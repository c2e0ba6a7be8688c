/** `Array.prototype.sort` with a comparator `(a, b) => key(b) - key(a)`:
    a stable sort into descending key order, written as insertion sort. */
module Sorting {
  import opened Seqs

  ghost predicate SortedDesc<T>(key: T -> real, s: seq<T>) {
    forall i, j :: 0 <= i < j < |s| ==> key(s[i]) >= key(s[j])
  }

  /** Puts `x` before the first element whose key is not greater than its own,
      so that among equal keys the earlier element stays first. */
  function Insert<T>(key: T -> real, x: T, s: seq<T>): (r: seq<T>)
    ensures |r| == |s| + 1
    ensures multiset(r) == multiset(s) + multiset{x}
  {
    if s == [] then [x]
    else if key(s[0]) > key(x) then
      var r := [s[0]] + Insert(key, x, s[1..]);
      assert s == [s[0]] + s[1..];
      r
    else [x] + s
  }

  function SortDesc<T>(key: T -> real, s: seq<T>): (r: seq<T>)
    ensures |r| == |s|
  {
    if s == [] then [] else Insert(key, s[0], SortDesc(key, s[1..]))
  }

  lemma {:induction false} InsertMembers<T>(key: T -> real, x: T, s: seq<T>, y: T)
    requires y in Insert(key, x, s)
    ensures y == x || y in s
  {
    if s != [] && key(s[0]) > key(x) && y != s[0] {
      InsertMembers(key, x, s[1..], y);
    }
  }

  lemma {:induction false} InsertSorted<T>(key: T -> real, x: T, s: seq<T>)
    requires SortedDesc(key, s)
    ensures SortedDesc(key, Insert(key, x, s))
  {
    if s == [] {
    } else if key(s[0]) > key(x) {
      InsertSorted(key, x, s[1..]);
      var rest := Insert(key, x, s[1..]);
      var r := [s[0]] + rest;
      forall j | 0 < j < |r| ensures key(r[0]) >= key(r[j]) {
        assert r[j] == rest[j - 1];
        InsertMembers(key, x, s[1..], r[j]);
        if r[j] != x {
          var k :| 0 <= k < |s[1..]| && s[1..][k] == r[j];
          assert s[k + 1] == r[j];
        }
      }
      forall i, j | 0 < i < j < |r| ensures key(r[i]) >= key(r[j]) {
        assert r[i] == rest[i - 1] && r[j] == rest[j - 1];
      }
    } else {
      var r := [x] + s;
      forall i, j | 0 <= i < j < |r| ensures key(r[i]) >= key(r[j]) {
        if i > 0 {
          assert r[i] == s[i - 1] && r[j] == s[j - 1];
        } else {
          assert key(s[0]) >= key(s[j - 1]) || j == 1;
        }
      }
    }
  }

  /** The result is in descending key order. */
  lemma {:induction false} SortDescSorted<T>(key: T -> real, s: seq<T>)
    ensures SortedDesc(key, SortDesc(key, s))
  {
    if s != [] {
      SortDescSorted(key, s[1..]);
      InsertSorted(key, s[0], SortDesc(key, s[1..]));
    }
  }

  /** The result is a permutation of the input. */
  lemma {:induction false} SortDescPermutes<T>(key: T -> real, s: seq<T>)
    ensures multiset(SortDesc(key, s)) == multiset(s)
  {
    if s != [] {
      SortDescPermutes(key, s[1..]);
      assert s == [s[0]] + s[1..];
    }
  }

  /** Sorting a list already in descending order leaves it as it is. */
  lemma {:induction false} SortedInputUnchanged<T>(key: T -> real, s: seq<T>)
    requires SortedDesc(key, s)
    ensures SortDesc(key, s) == s
  {
    if s != [] {
      SortedInputUnchanged(key, s[1..]);
      assert s == [s[0]] + s[1..];
    }
  }

  /** The test "has key `k`". */
  function HasKey<T>(key: T -> real, k: real): T -> bool {
    (y: T) => key(y) == k
  }

  /** The elements whose key is `k`. */
  function WithKey<T>(key: T -> real, k: real, s: seq<T>): seq<T> {
    Filter(HasKey(key, k), s)
  }

  /** The step of `InsertStable` where `x` moves past the head. */
  lemma InsertPastHead<T>(key: T -> real, k: real, x: T, s: seq<T>)
    requires s != [] && key(s[0]) > key(x)
    requires WithKey(key, k, Insert(key, x, s[1..])) == WithKey(key, k, [x]) + WithKey(key, k, s[1..])
    ensures WithKey(key, k, Insert(key, x, s)) == WithKey(key, k, [x]) + WithKey(key, k, s)
  {
    var f := HasKey(key, k);
    var rest := Insert(key, x, s[1..]);
    var A, B, C := Filter(f, [s[0]]), Filter(f, [x]), Filter(f, s[1..]);
    assert Filter(f, Insert(key, x, s)) == A + Filter(f, rest) by {
      assert Insert(key, x, s) == [s[0]] + rest;
      FilterAppend(f, [s[0]], rest);
    }
    assert Filter(f, s) == A + C by {
      FilterAppend(f, [s[0]], s[1..]);
      assert s == [s[0]] + s[1..];
    }
    assert A == [] || B == [] by {
      assert [s[0]][1..] == [] && [x][1..] == [];
    }
    Interleave(Filter(f, Insert(key, x, s)), Filter(f, rest), Filter(f, s), A, B, C);
  }

  /** Sequence algebra for `InsertPastHead`: when one of `a` and `b` is empty
      they may trade places. */
  lemma Interleave<T>(p: seq<T>, q: seq<T>, t: seq<T>, a: seq<T>, b: seq<T>, c: seq<T>)
    requires p == a + q && q == b + c && t == a + c
    requires a == [] || b == []
    ensures p == b + t
  {
    if a == [] {
      assert p == b + c;
    } else {
      assert p == a + c;
    }
  }

  /** Inserting `x` puts it before every element of equal key and keeps
      their order. */
  lemma {:induction false} InsertStable<T>(key: T -> real, k: real, x: T, s: seq<T>)
    ensures WithKey(key, k, Insert(key, x, s)) == WithKey(key, k, [x]) + WithKey(key, k, s)
  {
    if s == [] {
      assert WithKey(key, k, [x]) + [] == WithKey(key, k, [x]);
    } else if key(s[0]) > key(x) {
      InsertStable(key, k, x, s[1..]);
      InsertPastHead(key, k, x, s);
    } else {
      assert Insert(key, x, s) == [x] + s;
      FilterAppend(HasKey(key, k), [x], s);
    }
  }

  /** The sort is stable: the elements of any one key come out in the order
      they went in. */
  lemma {:induction false} SortDescStable<T>(key: T -> real, k: real, s: seq<T>)
    ensures WithKey(key, k, SortDesc(key, s)) == WithKey(key, k, s)
  {
    if s != [] {
      SortDescStable(key, k, s[1..]);
      InsertStable(key, k, s[0], SortDesc(key, s[1..]));
      FilterAppend(HasKey(key, k), [s[0]], s[1..]);
      assert s == [s[0]] + s[1..];
    }
  }
}

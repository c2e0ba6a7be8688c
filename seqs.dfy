/** Sequence operations that mirror the array methods the source uses:
    `filter`, `find`, `reduce` over a numeric field, and `slice`. */
module Seqs {
  import opened Wrappers

  /** `s.filter(f)`: the elements of `s` satisfying `f`, in order. */
  function Filter<T>(f: T -> bool, s: seq<T>): (r: seq<T>)
    ensures |r| <= |s|
    ensures forall x :: x in r ==> x in s && f(x)
  {
    if s == [] then [] else (if f(s[0]) then [s[0]] else []) + Filter(f, s[1..])
  }

  /** `r` occurs in `s` in the same order, possibly with gaps. */
  predicate IsSublist<T(==)>(r: seq<T>, s: seq<T>)
    decreases |s|
  {
    if r == [] then true
    else if s == [] then false
    else if r[0] == s[0] then IsSublist(r[1..], s[1..])
    else IsSublist(r, s[1..])
  }

  lemma {:induction false} FilterKeepsExactly<T>(f: T -> bool, s: seq<T>, x: T)
    ensures x in Filter(f, s) <==> x in s && f(x)
  {
    if s != [] {
      FilterKeepsExactly(f, s[1..], x);
      assert s == [s[0]] + s[1..];
    }
  }

  lemma {:induction false} FilterIsSublist<T>(f: T -> bool, s: seq<T>)
    ensures IsSublist(Filter(f, s), s)
  {
    if s != [] {
      FilterIsSublist(f, s[1..]);
      var rest := Filter(f, s[1..]);
      if f(s[0]) {
        assert Filter(f, s) == [s[0]] + rest;
        assert ([s[0]] + rest)[1..] == rest;
      } else {
        assert Filter(f, s) == rest;
        if rest != [] {
          assert f(rest[0]);
          assert rest[0] != s[0];
        }
      }
    }
  }

  lemma {:induction false} FilterAllKept<T>(f: T -> bool, s: seq<T>)
    requires forall i :: 0 <= i < |s| ==> f(s[i])
    ensures Filter(f, s) == s
  {
    if s != [] {
      FilterAllKept(f, s[1..]);
      assert s == [s[0]] + s[1..];
    }
  }

  lemma {:induction false} FilterNoneKept<T>(f: T -> bool, s: seq<T>)
    requires forall i :: 0 <= i < |s| ==> !f(s[i])
    ensures Filter(f, s) == []
  {
    if s != [] {
      FilterNoneKept(f, s[1..]);
    }
  }

  /** A filter whose matches form one contiguous block `s[a..b]` returns that block. */
  lemma {:induction false} FilterBlock<T>(f: T -> bool, s: seq<T>, a: nat, b: nat)
    requires a <= b <= |s|
    requires forall i :: 0 <= i < |s| ==> (f(s[i]) <==> a <= i < b)
    ensures Filter(f, s) == s[a..b]
  {
    if b == 0 {
      FilterNoneKept(f, s);
    } else {
      assert forall i :: 0 <= i < |s[1..]| ==> s[1..][i] == s[i + 1];
      if a > 0 {
        FilterBlock(f, s[1..], a - 1, b - 1);
        assert s[1..][a - 1..b - 1] == s[a..b];
      } else {
        FilterBlock(f, s[1..], 0, b - 1);
        assert [s[0]] + s[1..][..b - 1] == s[..b];
      }
    }
  }

  lemma {:induction false} FilterAppend<T>(f: T -> bool, a: seq<T>, b: seq<T>)
    ensures Filter(f, a + b) == Filter(f, a) + Filter(f, b)
  {
    if a == [] {
      assert a + b == b;
    } else {
      assert (a + b)[0] == a[0];
      assert (a + b)[1..] == a[1..] + b;
      FilterAppend(f, a[1..], b);
    }
  }

  /** Two predicates that agree on every element filter alike. */
  lemma {:induction false} FilterAgreeing<T>(f: T -> bool, g: T -> bool, s: seq<T>)
    requires forall i :: 0 <= i < |s| ==> f(s[i]) == g(s[i])
    ensures Filter(f, s) == Filter(g, s)
  {
    if s != [] {
      FilterAgreeing(f, g, s[1..]);
    }
  }

  /** `s.filter(f).length`. */
  function Count<T>(f: T -> bool, s: seq<T>): (n: nat)
    ensures n <= |s|
  {
    if s == [] then 0 else (if f(s[0]) then 1 else 0) + Count(f, s[1..])
  }

  lemma {:induction false} CountIsFilterLength<T>(f: T -> bool, s: seq<T>)
    ensures Count(f, s) == |Filter(f, s)|
  {
    if s != [] {
      CountIsFilterLength(f, s[1..]);
    }
  }

  /** A sublist whose elements all pass `f` is no longer than the number of
      elements of `s` that pass. */
  lemma {:induction false} SublistCountBound<T>(f: T -> bool, r: seq<T>, s: seq<T>)
    requires IsSublist(r, s) && forall i :: 0 <= i < |r| ==> f(r[i])
    ensures |r| <= Count(f, s)
    decreases |s|
  {
    if r != [] {
      if r[0] == s[0] {
        SublistCountBound(f, r[1..], s[1..]);
      } else {
        SublistCountBound(f, r, s[1..]);
      }
    }
  }

  /** `filter` is pinned by its three properties: a sublist, every element
      passing, and as many elements as pass in `s`. So a result with these
      properties keeps every passing element, duplicates included. */
  lemma {:induction false} FilterCharacterised<T>(f: T -> bool, r: seq<T>, s: seq<T>)
    requires IsSublist(r, s) && forall i :: 0 <= i < |r| ==> f(r[i])
    requires |r| == Count(f, s)
    ensures r == Filter(f, s)
    decreases |s|
  {
    if r == [] {
      CountIsFilterLength(f, s);
    } else if r[0] == s[0] {
      FilterCharacterised(f, r[1..], s[1..]);
      assert r == [r[0]] + r[1..];
    } else {
      SublistCountBound(f, r, s[1..]);
      FilterCharacterised(f, r, s[1..]);
    }
  }

  /** `s.reduce((acc, x) => acc + v(x), 0)`. */
  function Sum<T>(v: T -> real, s: seq<T>): real
  {
    if s == [] then 0.0 else v(s[0]) + Sum(v, s[1..])
  }

  lemma {:induction false} SumAppend<T>(v: T -> real, a: seq<T>, b: seq<T>)
    ensures Sum(v, a + b) == Sum(v, a) + Sum(v, b)
  {
    if a == [] {
      assert a + b == b;
    } else {
      assert (a + b)[0] == a[0];
      assert (a + b)[1..] == a[1..] + b;
      SumAppend(v, a[1..], b);
    }
  }

  lemma {:induction false} SumNonNegative<T>(v: T -> real, s: seq<T>)
    requires forall i :: 0 <= i < |s| ==> v(s[i]) >= 0.0
    ensures Sum(v, s) >= 0.0
  {
    if s != [] {
      SumNonNegative(v, s[1..]);
    }
  }

  /** With non-negative values, a filtered sum is at most the whole sum. */
  lemma {:induction false} SumFilterAtMost<T>(v: T -> real, f: T -> bool, s: seq<T>)
    requires forall i :: 0 <= i < |s| ==> v(s[i]) >= 0.0
    ensures Sum(v, Filter(f, s)) <= Sum(v, s)
  {
    if s != [] {
      SumFilterAtMost(v, f, s[1..]);
      var rest := Filter(f, s[1..]);
      if f(s[0]) {
        assert Filter(f, s) == [s[0]] + rest;
        assert ([s[0]] + rest)[1..] == rest;
      } else {
        assert Filter(f, s) == rest;
      }
    }
  }

  /** `s.find(f)`: the first element satisfying `f`. */
  function Find<T>(f: T -> bool, s: seq<T>): (r: Option<T>)
    ensures r.Some? ==> r.value in s && f(r.value)
    ensures r.None? <==> forall i :: 0 <= i < |s| ==> !f(s[i])
  {
    if s == [] then None
    else if f(s[0]) then Some(s[0])
    else
      var r := Find(f, s[1..]);
      assert forall i :: 1 <= i < |s| ==> s[i] == s[1..][i - 1];
      r
  }

  /** The element `Find` returns is the first one that qualifies. */
  lemma {:induction false} FindIsFirst<T>(f: T -> bool, s: seq<T>)
    requires Find(f, s).Some?
    ensures exists i :: 0 <= i < |s| && s[i] == Find(f, s).value
                        && forall j :: 0 <= j < i ==> !f(s[j])
  {
    if !f(s[0]) {
      FindIsFirst(f, s[1..]);
      var i :| 0 <= i < |s[1..]| && s[1..][i] == Find(f, s[1..]).value
                && forall j :: 0 <= j < i ==> !f(s[1..][j]);
      assert s[i + 1] == Find(f, s).value;
      assert forall j :: 0 <= j < i + 1 ==> !f(s[j]) by {
        forall j | 0 <= j < i + 1 ensures !f(s[j]) {
          if j > 0 { assert s[j] == s[1..][j - 1]; }
        }
      }
    } else {
      assert s[0] == Find(f, s).value;
    }
  }

  /** The end index JavaScript's `slice(0, end)` uses on a sequence of length `n`. */
  function SliceEnd(end: int, n: nat): (e: nat)
    ensures e <= n
  {
    if end < 0 then (if n + end > 0 then n + end else 0)
    else if end < n then end else n
  }

  /** What `s.slice(0, end)` keeps: the first `end` elements, all of them when
      `end` reaches past the end, and for a negative `end` everything but the
      last `-end` elements (nothing when `-end` exceeds the length). */
  lemma SliceEndSplits<T>(s: seq<T>, end: int)
    ensures 0 <= end <= |s| ==> |s[..SliceEnd(end, |s|)]| == end && s[..SliceEnd(end, |s|)] + s[end..] == s
    ensures end >= |s| ==> s[..SliceEnd(end, |s|)] == s
    ensures -|s| <= end < 0 ==> s[..SliceEnd(end, |s|)] + Last(s, -end) == s
    ensures end < -|s| ==> s[..SliceEnd(end, |s|)] == []
  {
    if -|s| <= end < 0 {
      assert s[..|s| + end] + s[|s| + end..] == s;
    } else if 0 <= end <= |s| {
      assert s[..end] + s[end..] == s;
    }
  }

  /** `s.slice(-k)` for `k > 0`: the last `k` elements, or all of them when fewer. */
  function Last<T>(s: seq<T>, k: nat): (r: seq<T>)
    ensures |r| == if |s| < k then |s| else k
    ensures forall i :: 0 <= i < |r| ==> r[i] == s[|s| - |r| + i]
  {
    if |s| <= k then s else s[|s| - k..]
  }
}

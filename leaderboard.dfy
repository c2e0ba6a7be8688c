/** The leaderboard route: each user row fetched from the database becomes an
    entry scored as wins + staking APR + referral earnings (a missing stats
    row counts as 0), the entries are sorted by score, highest first, cut to
    the requested limit and ranked from 1. The database query is a parameter:
    `rows` is what `findMany({ take: limit })` returned. */
module Leaderboard {
  import opened Wrappers
  import opened Seqs
  import opened Text
  import opened Sorting

  const DefaultLimit: int := 50
  const MaxLimit: int := 100
  const Ellipsis: char := '…'
  const ShortAddressLength: nat := 6

  /** A user with the stats rows the query includes (`None` when absent). */
  datatype UserRow = UserRow(
    id: string,
    username: Option<string>,
    walletAddr: string,
    avatarUrl: Option<string>,
    totalWins: Option<real>,
    stakingApr: Option<real>,
    referralEarnings: Option<real>)

  datatype Entry = Entry(
    userId: string,
    username: string,
    avatarUrl: Option<string>,
    totalWins: real,
    stakingApr: real,
    referralEarnings: real,
    totalScore: real)

  datatype RankedEntry = RankedEntry(entry: Entry, rank: nat)

  /** `Math.min(parseInt(q) || 50, 100)`: no number, or 0, means 50. */
  function ParseLimit(q: Option<string>): (l: int)
    ensures l <= MaxLimit
  {
    var n := if q.None? then None else ParseInt(q.value);
    var asked := if n.None? || n.value == 0 then DefaultLimit else n.value;
    if asked < MaxLimit then asked else MaxLimit
  }

  /** A rendered positive number is taken as the limit, capped at 100; a
      missing query or 0 gives the default. */
  lemma LimitOfQuery(n: nat)
    ensures ParseLimit(None) == DefaultLimit
    ensures ParseLimit(Some(NatToDecimal(n))) == (if n == 0 then DefaultLimit else if n < MaxLimit then n else MaxLimit)
  {
    ParseIntOfDecimal(n);
  }

  /** A `0x` query is read in hexadecimal and then clamped like any other. */
  lemma HexLimitOfQuery(s: string)
    requires s != [] && forall i :: 0 <= i < |s| ==> IsHexChar(s[i])
    ensures var n := HexValueOf(s);
      ParseLimit(Some("0x" + s)) == (if n == 0 then DefaultLimit else if n < MaxLimit then n else MaxLimit)
  {
    ParseIntOfHex(s);
  }

  /** `?limit=0x20` asks for 32 entries. */
  lemma HexLimitExample()
    ensures ParseLimit(Some("0x20")) == 32
  {
    var s := "20";
    assert s[..1] == "2";
    assert HexValueOf(s) == 32 by {
      assert HexValueOf(s[..1]) == 2;
    }
    HexLimitOfQuery(s);
    assert "0x" + s == "0x20";
  }

  /** A negative number passes through the clamp unchanged. */
  lemma NegativeLimitKept(s: string)
    requires s != [] && forall i :: 0 <= i < |s| ==> IsDigit(s[i])
    requires DecimalValue(s) > 0
    ensures ParseLimit(Some(['-'] + s)) == -(DecimalValue(s) as int)
  {
    ParseIntOfNegated(s);
  }

  /** `u.username || u.walletAddr.slice(0, 6) + "…"`. */
  function DisplayName(u: UserRow): (s: string)
    ensures u.username.Some? && u.username.value != "" ==> s == u.username.value
    ensures !(u.username.Some? && u.username.value != "") ==>
      && |s| == (if |u.walletAddr| < ShortAddressLength then |u.walletAddr| else ShortAddressLength) + 1
      && s[..|s| - 1] == u.walletAddr[..|s| - 1]
      && s[|s| - 1] == Ellipsis
  {
    if u.username.Some? && u.username.value != "" then u.username.value
    else u.walletAddr[..SliceEnd(ShortAddressLength, |u.walletAddr|)] + [Ellipsis]
  }

  /** The entry a row maps to. */
  function ToEntry(u: UserRow): (e: Entry)
    ensures e.userId == u.id && e.username == DisplayName(u) && e.avatarUrl == u.avatarUrl
    ensures e.totalWins == u.totalWins.GetOr(0.0) && e.stakingApr == u.stakingApr.GetOr(0.0)
    ensures e.referralEarnings == u.referralEarnings.GetOr(0.0)
    ensures e.totalScore == e.totalWins + e.stakingApr + e.referralEarnings
  {
    var w := u.totalWins.GetOr(0.0);
    var a := u.stakingApr.GetOr(0.0);
    var r := u.referralEarnings.GetOr(0.0);
    Entry(u.id, DisplayName(u), u.avatarUrl, w, a, r, w + a + r)
  }

  /** A user with no stats at all scores 0, and non-negative stats give a
      score no smaller than any one of them. */
  lemma ScoreOfStats(u: UserRow)
    ensures u.totalWins.None? && u.stakingApr.None? && u.referralEarnings.None? ==> ToEntry(u).totalScore == 0.0
    ensures u.totalWins.GetOr(0.0) >= 0.0 && u.stakingApr.GetOr(0.0) >= 0.0 && u.referralEarnings.GetOr(0.0) >= 0.0 ==>
      && ToEntry(u).totalScore >= ToEntry(u).totalWins
      && ToEntry(u).totalScore >= ToEntry(u).stakingApr
      && ToEntry(u).totalScore >= ToEntry(u).referralEarnings
  {
  }

  function Entries(rows: seq<UserRow>): (es: seq<Entry>)
    ensures |es| == |rows| && forall i :: 0 <= i < |rows| ==> es[i] == ToEntry(rows[i])
  {
    seq(|rows|, i requires 0 <= i < |rows| => ToEntry(rows[i]))
  }

  function Score(e: Entry): real { e.totalScore }

  /** `.map((entry, idx) => ({ ...entry, rank: idx + 1 }))`. */
  function Rank(es: seq<Entry>): (r: seq<RankedEntry>)
    ensures |r| == |es| && forall i :: 0 <= i < |es| ==> r[i] == RankedEntry(es[i], i + 1)
  {
    seq(|es|, i requires 0 <= i < |es| => RankedEntry(es[i], i + 1))
  }

  function Shown(r: seq<RankedEntry>): (es: seq<Entry>)
    ensures |es| == |r| && forall i :: 0 <= i < |r| ==> es[i] == r[i].entry
  {
    seq(|r|, i requires 0 <= i < |r| => r[i].entry)
  }

  /** `getLeaderboard(limit)` on the fetched rows. */
  function Board(rows: seq<UserRow>, limit: int): (r: seq<RankedEntry>)
    ensures |r| == SliceEnd(limit, |rows|)
    ensures limit >= 0 ==> |r| <= limit
    ensures forall i :: 0 <= i < |r| ==> r[i].rank == i + 1
  {
    var sorted := SortDesc(Score, Entries(rows));
    Rank(sorted[..SliceEnd(limit, |sorted|)])
  }

  /** The board is in descending score order. */
  lemma BoardSorted(rows: seq<UserRow>, limit: int)
    ensures forall i, j :: 0 <= i < j < |Board(rows, limit)| ==>
      Board(rows, limit)[i].entry.totalScore >= Board(rows, limit)[j].entry.totalScore
  {
    var sorted := SortDesc(Score, Entries(rows));
    SortDescSorted(Score, Entries(rows));
    var r := Board(rows, limit);
    forall i, j | 0 <= i < j < |r| ensures r[i].entry.totalScore >= r[j].entry.totalScore {
      assert r[i].entry == sorted[i] && r[j].entry == sorted[j];
    }
  }

  /** The board is a prefix of the sorted entries. */
  lemma BoardIsSortedPrefix(rows: seq<UserRow>, limit: int)
    ensures var sorted := SortDesc(Score, Entries(rows));
      Shown(Board(rows, limit)) == sorted[..SliceEnd(limit, |sorted|)]
  {
  }

  /** The board keeps the best-scoring entries: every row left off scores no
      more than any entry shown. */
  lemma {:induction false} BoardIsTop(rows: seq<UserRow>, limit: int)
    ensures forall i, j :: 0 <= i < |Board(rows, limit)| && 0 <= j < |rows| && ToEntry(rows[j]) !in Shown(Board(rows, limit)) ==>
      ToEntry(rows[j]).totalScore <= Board(rows, limit)[i].entry.totalScore
  {
    var es := Entries(rows);
    var sorted := SortDesc(Score, es);
    SortDescSorted(Score, es);
    SortDescPermutes(Score, es);
    var r := Board(rows, limit);
    var shown := Shown(r);
    var k := SliceEnd(limit, |sorted|);
    BoardIsSortedPrefix(rows, limit);
    forall i, j | 0 <= i < |r| && 0 <= j < |rows| && ToEntry(rows[j]) !in shown
      ensures ToEntry(rows[j]).totalScore <= r[i].entry.totalScore
    {
      assert es[j] == ToEntry(rows[j]);
      assert ToEntry(rows[j]) in multiset(sorted);
      var m :| 0 <= m < |sorted| && sorted[m] == ToEntry(rows[j]);
      assert m >= k;
      assert r[i].entry == sorted[i];
    }
  }

  /** Each shown entry is a row's entry, none more often than it occurs, and
      with a limit covering all the rows every row's entry is shown exactly once. */
  lemma {:induction false} BoardPermutes(rows: seq<UserRow>, limit: int)
    ensures multiset(Shown(Board(rows, limit))) <= multiset(Entries(rows))
    ensures limit >= |rows| ==> multiset(Shown(Board(rows, limit))) == multiset(Entries(rows))
  {
    var es := Entries(rows);
    var sorted := SortDesc(Score, es);
    SortDescPermutes(Score, es);
    assert |sorted| == |rows| by {
      assert |multiset(sorted)| == |multiset(es)|;
    }
    var k := SliceEnd(limit, |sorted|);
    BoardIsSortedPrefix(rows, limit);
    assert sorted == sorted[..k] + sorted[k..];
    assert multiset(sorted) == multiset(sorted[..k]) + multiset(sorted[k..]);
    if limit >= |rows| {
      assert sorted[..k] == sorted;
    }
  }

  /** A negative limit asks the database for the last rows, and
      `slice(0, limit)` then drops as many from the end: the board is empty. */
  lemma NegativeLimitEmptiesBoard(rows: seq<UserRow>, limit: int)
    requires limit < 0 && |rows| <= -limit
    ensures Board(rows, limit) == []
  {
  }

  /** `GET /api/v1/leaderboard?limit=…`. */
  function LeaderboardRoute(q: Option<string>, rows: seq<UserRow>): (r: seq<RankedEntry>)
    ensures |r| <= |rows|
    ensures ParseLimit(q) >= 0 ==> |r| <= ParseLimit(q) <= MaxLimit
  {
    Board(rows, ParseLimit(q))
  }
}

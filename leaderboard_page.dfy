/** The leaderboard page: the entries the leaderboard route returned, shown
    sorted on a copy, highest first, by the statistic of the selected tab. */
module LeaderboardPage {
  import opened Wrappers
  import opened Sorting
  import opened Leaderboard

  datatype Tab = Overall | Wins | Apr | Ref

  function WinsOf(e: RankedEntry): real { e.entry.totalWins }
  function AprOf(e: RankedEntry): real { e.entry.stakingApr }
  function RefOf(e: RankedEntry): real { e.entry.referralEarnings }
  function ScoreOf(e: RankedEntry): real { e.entry.totalScore }

  /** The statistic the comparator of a tab subtracts. */
  function KeyOf(tab: Tab): (key: RankedEntry -> real)
    ensures forall e :: key(e) == match tab
      case Wins => e.entry.totalWins
      case Apr => e.entry.stakingApr
      case Ref => e.entry.referralEarnings
      case Overall => e.entry.totalScore
  {
    match tab
    case Wins => WinsOf
    case Apr => AprOf
    case Ref => RefOf
    case Overall => ScoreOf
  }

  /** `data?.leaderboard || []`. */
  function Entries(data: Option<seq<RankedEntry>>): seq<RankedEntry> {
    if data.None? then [] else data.value
  }

  /** `[...entries].sort(comparator)`. */
  function SortedFor(tab: Tab, data: Option<seq<RankedEntry>>): seq<RankedEntry> {
    SortDesc(KeyOf(tab), Entries(data))
  }

  /** The shown list is a reordering of the entries, in descending order of
      the tab's statistic; without data it is empty. */
  lemma SortedForTab(tab: Tab, data: Option<seq<RankedEntry>>)
    ensures multiset(SortedFor(tab, data)) == multiset(Entries(data))
    ensures forall i, j :: 0 <= i < j < |SortedFor(tab, data)| ==>
      KeyOf(tab)(SortedFor(tab, data)[i]) >= KeyOf(tab)(SortedFor(tab, data)[j])
    ensures data.None? ==> SortedFor(tab, data) == []
  {
    SortDescPermutes(KeyOf(tab), Entries(data));
    SortDescSorted(KeyOf(tab), Entries(data));
  }

  /** On the overall tab the route's order is kept: the board is already
      sorted by score, and sorting it again changes nothing. */
  lemma {:induction false} OverallKeepsBoardOrder(rows: seq<UserRow>, limit: int)
    ensures SortedFor(Overall, Some(Board(rows, limit))) == Board(rows, limit)
  {
    var b := Board(rows, limit);
    BoardSorted(rows, limit);
    SortedInputUnchanged(ScoreOf, b);
  }
}

/** The `BrowserHistory` record: one row of the history query, and one entry of the report. */
module History {
  import opened Wrappers

  /** `frecency` is `Some` for Firefox rows and `None` for Chrome rows, whose record has no such
      field. `lastVisitDate` is the already-formatted date string SQLite produced, or `None`.
      `totalVisits` is a row's visit count, and in an aggregate entry the running sum. */
  datatype HistoryEntry = HistoryEntry(
    url: string,
    title: Option<string>,
    lastVisitDate: Option<string>,
    totalVisits: int,
    frecency: Option<int>)

  /** Everything but `url` and `totalVisits`: the fields an aggregate entry copies once from the
      row that created it. */
  datatype Details = Details(title: Option<string>, lastVisitDate: Option<string>, frecency: Option<int>)

  function DetailsOf(e: HistoryEntry): Details {
    Details(e.title, e.lastVisitDate, e.frecency)
  }

  /** Sum of `totalVisits` over a sequence of entries. */
  function SumVisits(s: seq<HistoryEntry>): int {
    if |s| == 0 then 0 else SumVisits(s[..|s| - 1]) + s[|s| - 1].totalVisits
  }

  lemma SumVisitsAppend(s: seq<HistoryEntry>, e: HistoryEntry)
    ensures SumVisits(s + [e]) == SumVisits(s) + e.totalVisits
  {
    assert (s + [e])[..|s|] == s;
  }

  /** Replacing one entry changes the sum by exactly the difference of the two counts. */
  lemma {:induction false} SumVisitsUpdate(s: seq<HistoryEntry>, i: nat, e: HistoryEntry)
    requires i < |s|
    ensures SumVisits(s[i := e]) == SumVisits(s) - s[i].totalVisits + e.totalVisits
  {
    var n := |s| - 1;
    if i == n {
      assert s[i := e][..n] == s[..n];
    } else {
      SumVisitsUpdate(s[..n], i, e);
      assert s[i := e][..n] == s[..n][i := e];
    }
  }

  lemma {:induction false} SumVisitsPrepend(e: HistoryEntry, s: seq<HistoryEntry>)
    ensures SumVisits([e] + s) == e.totalVisits + SumVisits(s)
  {
    if |s| > 0 {
      var n := |s| - 1;
      SumVisitsPrepend(e, s[..n]);
      assert ([e] + s)[..n + 1] == [e] + s[..n];
    }
  }
}

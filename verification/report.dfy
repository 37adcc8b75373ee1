/**
 The report both extractors write: the aggregate map's values, ranked by visit count.
 */
module Report {
  import opened Wrappers
  import opened History
  import opened UrlKeys
  import opened UrlGroups
  import opened Aggregate
  import opened Reference
  import opened Correctness
  import opened Ranking

  /** `results`: the values of the map built from `rows`, sorted by descending visit count. */
  function Results(parse: UrlParser, rows: seq<HistoryEntry>): (r: seq<HistoryEntry>)
    ensures SortedByVisits(r)
    ensures multiset(r) == multiset(Values(Run(parse, rows).groups))
  {
    RankSortsAndPermutes(Values(Run(parse, rows).groups));
    Rank(Values(Run(parse, rows).groups))
  }

  /** Entries with equal counts are listed in the order their keys entered the map. */
  lemma ResultsKeepMapOrderOnTies(parse: UrlParser, rows: seq<HistoryEntry>, v: int)
    ensures WithVisits(Results(parse, rows), v) == WithVisits(Values(Run(parse, rows).groups), v)
  {
    RankIsStable(Values(Run(parse, rows).groups), v);
  }

  /** The report lists every key of the map exactly once, each with its expected entry. */
  lemma ResultsListExpectedEntries(parse: UrlParser, rows: seq<HistoryEntry>)
    ensures var r := Results(parse, rows);
      && |r| == |Run(parse, rows).groups.order|
      && (forall i :: 0 <= i < |r| ==> Some(r[i]) == Expected(parse, rows, r[i].url))
      && (forall i, j :: 0 <= i < j < |r| ==> r[i].url != r[j].url)
      && (forall k :: Expected(parse, rows, k).Some? ==> Expected(parse, rows, k).value in r)
  {
    var g := Run(parse, rows).groups;
    var r := Results(parse, rows);
    ValuesListsEntries(g);
    assert |r| == |multiset(r)| == |multiset(Values(g))| == |Values(g)|;
    ResultsAreExpected(parse, rows);
    ResultsHaveDistinctUrls(parse, rows);
    ResultsCoverExpected(parse, rows);
  }

  /** Members of the report are exactly the map's values. */
  lemma ResultsAreValues(parse: UrlParser, rows: seq<HistoryEntry>, e: HistoryEntry)
    ensures e in Results(parse, rows) <==> e in Values(Run(parse, rows).groups)
  {
    var r := Results(parse, rows);
    var vs := Values(Run(parse, rows).groups);
    assert e in r <==> e in multiset(r);
    assert e in vs <==> e in multiset(vs);
  }

  lemma ResultsAreExpected(parse: UrlParser, rows: seq<HistoryEntry>)
    ensures var r := Results(parse, rows);
      forall i :: 0 <= i < |r| ==> Some(r[i]) == Expected(parse, rows, r[i].url)
  {
    var g := Run(parse, rows).groups;
    var r := Results(parse, rows);
    ValuesListsEntries(g);
    forall i | 0 <= i < |r| ensures Some(r[i]) == Expected(parse, rows, r[i].url) {
      ResultsAreValues(parse, rows, r[i]);
      var k :| k in g.entries && g.entries[k] == r[i];
      RunLookup(parse, rows, k);
    }
  }

  lemma ResultsHaveDistinctUrls(parse: UrlParser, rows: seq<HistoryEntry>)
    ensures var r := Results(parse, rows);
      forall i, j :: 0 <= i < j < |r| ==> r[i].url != r[j].url
  {
    var g := Run(parse, rows).groups;
    var r := Results(parse, rows);
    ValuesListsEntries(g);
    forall i, j | 0 <= i < j < |r| ensures r[i].url != r[j].url {
      ResultsAreValues(parse, rows, r[i]);
      ResultsAreValues(parse, rows, r[j]);
      if r[i].url == r[j].url {
        var k1 :| k1 in g.entries && g.entries[k1] == r[i];
        var k2 :| k2 in g.entries && g.entries[k2] == r[j];
        assert r[i] == r[j];
        ValuesOccurOnce(g, r[i]);
        OccursTwice(r, i, j);
      }
    }
  }

  lemma ResultsCoverExpected(parse: UrlParser, rows: seq<HistoryEntry>)
    ensures forall k :: Expected(parse, rows, k).Some? ==> Expected(parse, rows, k).value in Results(parse, rows)
  {
    var g := Run(parse, rows).groups;
    ValuesListsEntries(g);
    forall k | Expected(parse, rows, k).Some? ensures Expected(parse, rows, k).value in Results(parse, rows) {
      RunLookup(parse, rows, k);
      ResultsAreValues(parse, rows, g.entries[k]);
    }
  }

  /** The counts in the report add up to twice the counts of the rows whose URL parses: every such
      row is counted once under its page and once under its domain. */
  lemma ResultsTotal(parse: UrlParser, rows: seq<HistoryEntry>)
    ensures SumVisits(Results(parse, rows)) == 2 * ParsedVisits(parse, rows)
  {
    RankKeepsSum(Values(Run(parse, rows).groups));
    RunTotal(parse, rows);
  }

  /** Each entry occurs at most once among the values of a self-keyed map. */
  lemma ValuesOccurOnce(g: Groups, e: HistoryEntry)
    requires Valid(g) && SelfKeyed(g)
    ensures multiset(Values(g))[e] <= 1
  {
    var vs := Values(g);
    assert forall i, j :: 0 <= i < j < |vs| ==> vs[i].url != vs[j].url by {
      forall i, j | 0 <= i < j < |vs| ensures vs[i].url != vs[j].url {
        assert vs[i].url == g.order[i] && vs[j].url == g.order[j];
      }
    }
    DistinctUrlsOccurOnce(vs, e);
  }

  lemma {:induction false} DistinctUrlsOccurOnce(s: seq<HistoryEntry>, e: HistoryEntry)
    requires forall i, j :: 0 <= i < j < |s| ==> s[i].url != s[j].url
    ensures multiset(s)[e] <= 1
  {
    if |s| > 0 {
      var rest := s[1..];
      assert s == [s[0]] + rest;
      DistinctUrlsOccurOnce(rest, e);
      if s[0] == e {
        assert e !in rest by {
          forall j | 0 <= j < |rest| ensures rest[j] != e {
            assert s[j + 1] == rest[j];
          }
        }
      }
    }
  }

  /** An entry found at two positions occurs at least twice. */
  lemma OccursTwice(s: seq<HistoryEntry>, i: nat, j: nat)
    requires i < j < |s| && s[i] == s[j]
    ensures multiset(s)[s[i]] >= 2
  {
    assert s == s[..j] + [s[j]] + s[j + 1..];
    assert s[i] in s[..j];
  }
}

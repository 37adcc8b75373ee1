/**
 The fold agrees with the reference description: after all rows, the map holds exactly the expected
 entry under every key, its keys are in first-seen order, and its counts add up to twice the counts
 of the rows that parse.
 */
module Correctness {
  import opened Wrappers
  import opened History
  import opened UrlKeys
  import opened UrlGroups
  import opened Aggregate
  import opened Reference

  /** What one parsed row does to the entry under any key `k`. */
  lemma MergeLookup(parse: UrlParser, g: Groups, row: HistoryEntry, k: string)
    requires Valid(g) && parse(row.url).Some?
    ensures var r := TryMerge(parse, g, row).value;
      Lookup(r, k) ==
        if !Touches(parse, row, k) then Lookup(g, k)
        else if k in g.entries then
          Some(g.entries[k].(totalVisits := g.entries[k].totalVisits + Contribution(parse, row, k)))
        else Some(row.(url := k, totalVisits := Contribution(parse, row, k)))
  {
    var page := Normalize(row.url);
    var domain := BasePath(parse(row.url).value);
    assert TryMerge(parse, g, row).value == AddRow(g, row, page, domain);
    assert Touches(parse, row, k) <==> k == page || k == domain;
    AddRowLookup(g, row, page, domain, k);
  }

  /** A key no row is filed under has collected nothing. */
  lemma {:induction false} UntouchedKeyHasNoVisits(parse: UrlParser, rows: seq<HistoryEntry>, k: string)
    requires FirstToucher(parse, rows, k).None?
    ensures KeyVisits(parse, rows, k) == 0
  {
    if |rows| > 0 {
      var prefix := rows[..|rows| - 1];
      assert forall i :: 0 <= i < |prefix| ==> prefix[i] == rows[i];
      UntouchedKeyHasNoVisits(parse, prefix, k);
    }
  }

  /** The reference after one more row, in terms of the reference before it. */
  lemma ReferenceSnoc(parse: UrlParser, prefix: seq<HistoryEntry>, row: HistoryEntry, k: string)
    ensures var rows := prefix + [row];
      && KeyVisits(parse, rows, k) == KeyVisits(parse, prefix, k) + Contribution(parse, row, k)
      && FirstToucher(parse, rows, k) ==
           if FirstToucher(parse, prefix, k).Some? then FirstToucher(parse, prefix, k)
           else if Touches(parse, row, k) then Some(row)
           else None
  {
    assert (prefix + [row])[..|prefix|] == prefix;
  }

  /** Merging one more parsed row keeps the map in step with the reference, key by key. */
  lemma MergeKeepsReference(parse: UrlParser, g: Groups, prefix: seq<HistoryEntry>, row: HistoryEntry, k: string)
    requires Valid(g) && parse(row.url).Some?
    requires Lookup(g, k) == Expected(parse, prefix, k)
    ensures Lookup(TryMerge(parse, g, row).value, k) == Expected(parse, prefix + [row], k)
  {
    ReferenceSnoc(parse, prefix, row, k);
    MergeLookup(parse, g, row, k);
    if !Touches(parse, row, k) {
    } else if k in g.entries {
      MergeExistingKey(parse, g, prefix, row, k);
    } else {
      UntouchedKeyHasNoVisits(parse, prefix, k);
      ExpectedFromParts(parse, prefix + [row], k, row, Contribution(parse, row, k));
    }
  }

  lemma MergeExistingKey(parse: UrlParser, g: Groups, prefix: seq<HistoryEntry>, row: HistoryEntry, k: string)
    requires Valid(g) && parse(row.url).Some? && Touches(parse, row, k) && k in g.entries
    requires Lookup(g, k) == Expected(parse, prefix, k)
    ensures Lookup(TryMerge(parse, g, row).value, k) == Expected(parse, prefix + [row], k)
  {
    ReferenceSnoc(parse, prefix, row, k);
    MergeLookup(parse, g, row, k);
    var c := Contribution(parse, row, k);
    var first := FirstToucher(parse, prefix, k).value;
    var e := g.entries[k];
    assert e == first.(url := k, totalVisits := KeyVisits(parse, prefix, k));
    ExpectedFromParts(parse, prefix + [row], k, first, e.totalVisits + c);
  }

  lemma ExpectedFromParts(parse: UrlParser, rows: seq<HistoryEntry>, k: string, first: HistoryEntry, n: int)
    requires FirstToucher(parse, rows, k) == Some(first) && KeyVisits(parse, rows, k) == n
    ensures Expected(parse, rows, k) == Some(first.(url := k, totalVisits := n))
  {
  }

  /** Skipping a row whose URL does not parse keeps the map in step with the reference. */
  lemma SkipKeepsReference(parse: UrlParser, g: Groups, prefix: seq<HistoryEntry>, row: HistoryEntry, k: string)
    requires parse(row.url).None?
    requires Lookup(g, k) == Expected(parse, prefix, k)
    ensures Lookup(g, k) == Expected(parse, prefix + [row], k)
  {
    ReferenceSnoc(parse, prefix, row, k);
  }

  /** After any rows, the entry under `k` is the expected one, or absent when none is expected. */
  lemma {:induction false} RunLookup(parse: UrlParser, rows: seq<HistoryEntry>, k: string)
    ensures Lookup(Run(parse, rows).groups, k) == Expected(parse, rows, k)
  {
    if |rows| > 0 {
      var prefix := rows[..|rows| - 1];
      var row := rows[|rows| - 1];
      assert rows == prefix + [row];
      RunLookup(parse, prefix, k);
      var g := Run(parse, prefix).groups;
      if parse(row.url).Some? {
        MergeKeepsReference(parse, g, prefix, row, k);
      } else {
        SkipKeepsReference(parse, g, prefix, row, k);
      }
    }
  }

  /** The whole map is determined by the reference: each key holds its expected entry. */
  lemma RunMatchesReference(parse: UrlParser, rows: seq<HistoryEntry>)
    ensures forall k :: Lookup(Run(parse, rows).groups, k) == Expected(parse, rows, k)
  {
    forall k ensures Lookup(Run(parse, rows).groups, k) == Expected(parse, rows, k) {
      RunLookup(parse, rows, k);
    }
  }

  /** Merging one more parsed row appends its keys as first occurrences in the key stream. */
  lemma MergeKeepsOrder(parse: UrlParser, g: Groups, s: seq<string>, row: HistoryEntry)
    requires Valid(g) && g.order == Dedup(s) && parse(row.url).Some?
    ensures TryMerge(parse, g, row).value.order ==
      Dedup(s + [Normalize(row.url), BasePath(parse(row.url).value)])
  {
    var page := Normalize(row.url);
    var domain := BasePath(parse(row.url).value);
    assert TryMerge(parse, g, row).value == AddRow(g, row, page, domain);
    AddRowKeepsFirstOccurrences(g, s, row, page, domain);
  }

  lemma AddRowKeepsFirstOccurrences(g: Groups, s: seq<string>, row: HistoryEntry, page: string, domain: string)
    requires Valid(g) && g.order == Dedup(s)
    ensures AddRow(g, row, page, domain).order == Dedup(s + [page, domain])
  {
    AddRowOrder(g, row, page, domain);
    NewKeysAreFirstOccurrences(g, s, page, domain);
  }

  lemma NewKeysAreFirstOccurrences(g: Groups, s: seq<string>, page: string, domain: string)
    requires Valid(g) && g.order == Dedup(s)
    ensures g.order + NewKeys(g, page, domain) == Dedup(s + [page, domain])
  {
    DedupPair(s, page, domain);
    assert page in g.entries <==> page in s by {
      assert page in g.entries <==> page in g.order;
    }
    assert domain in g.entries <==> domain in s by {
      assert domain in g.entries <==> domain in g.order;
    }
  }

  /** Keys are kept in the order the rows first file something under them. */
  lemma {:induction false} RunOrder(parse: UrlParser, rows: seq<HistoryEntry>)
    ensures Run(parse, rows).groups.order == Dedup(KeyStream(parse, rows))
  {
    if |rows| > 0 {
      var prefix := rows[..|rows| - 1];
      var row := rows[|rows| - 1];
      RunOrder(parse, prefix);
      if parse(row.url).Some? {
        var s := KeyStream(parse, prefix);
        assert KeyStream(parse, rows) == s + [Normalize(row.url), BasePath(parse(row.url).value)];
        MergeKeepsOrder(parse, Run(parse, prefix).groups, s, row);
      } else {
        assert KeyStream(parse, rows) == KeyStream(parse, prefix);
      }
    }
  }

  /** The counts in the map add up to twice the counts of the rows whose URL parses. */
  lemma {:induction false} RunTotal(parse: UrlParser, rows: seq<HistoryEntry>)
    ensures Total(Run(parse, rows).groups) == 2 * ParsedVisits(parse, rows)
  {
    if |rows| > 0 {
      var prefix := rows[..|rows| - 1];
      var row := rows[|rows| - 1];
      RunTotal(parse, prefix);
      if parse(row.url).Some? {
        AddRowTotal(Run(parse, prefix).groups, row, Normalize(row.url), BasePath(parse(row.url).value));
      }
    }
  }

  /** One warning is printed per row whose URL does not parse, in row order. */
  lemma {:induction false} RunWarnings(parse: UrlParser, rows: seq<HistoryEntry>)
    ensures |Run(parse, rows).warnings| == |Unparsed(parse, rows)|
    ensures forall i :: 0 <= i < |Unparsed(parse, rows)| ==> Run(parse, rows).warnings[i] == Warning(Unparsed(parse, rows)[i])
  {
    if |rows| > 0 {
      var prefix := rows[..|rows| - 1];
      RunWarnings(parse, prefix);
      WarningStep(parse, rows);
      var before := Run(parse, prefix).warnings;
      var after := Run(parse, rows).warnings;
      var skipped := Unparsed(parse, rows);
      forall i | 0 <= i < |skipped| ensures after[i] == Warning(skipped[i]) {
        if i < |before| {
          assert after[i] == before[i];
          assert skipped[i] == Unparsed(parse, prefix)[i];
        }
      }
    }
  }

  lemma WarningStep(parse: UrlParser, rows: seq<HistoryEntry>)
    requires |rows| > 0
    ensures var prefix := rows[..|rows| - 1];
      var row := rows[|rows| - 1];
      if parse(row.url).None? then
        && Unparsed(parse, rows) == Unparsed(parse, prefix) + [row.url]
        && Run(parse, rows).warnings == Run(parse, prefix).warnings + [Warning(row.url)]
      else
        && Unparsed(parse, rows) == Unparsed(parse, prefix)
        && Run(parse, rows).warnings == Run(parse, prefix).warnings
  {
  }

  /** A domain key that no parsed row has as its page key holds exactly the counts of the rows of
      that domain: it starts at 0 and only accumulates. */
  lemma DomainEntryTotal(parse: UrlParser, rows: seq<HistoryEntry>, d: string)
    requires forall i :: 0 <= i < |rows| && parse(rows[i].url).Some? ==> Normalize(rows[i].url) != d
    ensures var g := Run(parse, rows).groups;
      d in g.entries ==> g.entries[d].totalVisits == DomainVisits(parse, rows, d)
  {
    RunLookup(parse, rows, d);
    KeyVisitsSplit(parse, rows, d);
    NoPageNoPageVisits(parse, rows, d);
  }

  /** A page key that is no parsed row's domain key holds exactly the counts of the rows that
      normalise to it, for instance `http://a.com/x` and `http://a.com/x/` together. */
  lemma PageEntryTotal(parse: UrlParser, rows: seq<HistoryEntry>, p: string)
    requires forall i :: 0 <= i < |rows| && parse(rows[i].url).Some? ==> BasePath(parse(rows[i].url).value) != p
    ensures var g := Run(parse, rows).groups;
      p in g.entries ==> g.entries[p].totalVisits == PageVisits(parse, rows, p)
  {
    RunLookup(parse, rows, p);
    KeyVisitsSplit(parse, rows, p);
    NoDomainNoDomainVisits(parse, rows, p);
  }

  /** The map has a key exactly when some parsed row is filed under it, and that entry's title,
      date and frecency are those of the first such row. */
  lemma EntryComesFromFirstRow(parse: UrlParser, rows: seq<HistoryEntry>, k: string)
    ensures var g := Run(parse, rows).groups;
      && (k in g.entries <==> exists i :: 0 <= i < |rows| && Touches(parse, rows[i], k))
      && (k in g.entries ==> exists i :: && 0 <= i < |rows| && Touches(parse, rows[i], k)
                                         && DetailsOf(g.entries[k]) == DetailsOf(rows[i])
                                         && forall j :: 0 <= j < i ==> !Touches(parse, rows[j], k))
  {
    RunLookup(parse, rows, k);
    FirstToucherIsFirst(parse, rows, k);
  }

  /** Chrome rows carry no frecency, and neither does any entry built from them. */
  lemma ChromeEntriesHaveNoFrecency(parse: UrlParser, rows: seq<HistoryEntry>)
    requires forall i :: 0 <= i < |rows| ==> rows[i].frecency.None?
    ensures var g := Run(parse, rows).groups;
      forall k :: k in g.entries ==> g.entries[k].frecency.None?
  {
    forall k | k in Run(parse, rows).groups.entries ensures Run(parse, rows).groups.entries[k].frecency.None? {
      EntryComesFromFirstRow(parse, rows, k);
    }
  }

  /** Firefox rows all carry a frecency, and so does every entry built from them. */
  lemma FirefoxEntriesHaveFrecency(parse: UrlParser, rows: seq<HistoryEntry>)
    requires forall i :: 0 <= i < |rows| ==> rows[i].frecency.Some?
    ensures var g := Run(parse, rows).groups;
      forall k :: k in g.entries ==> g.entries[k].frecency.Some?
  {
    forall k | k in Run(parse, rows).groups.entries ensures Run(parse, rows).groups.entries[k].frecency.Some? {
      EntryComesFromFirstRow(parse, rows, k);
    }
  }
}

/**
 An independent description of the map the aggregation builds, stated directly in terms of the input
 rows rather than as a fold: which keys it has and in what order, and what each entry holds.
 */
module Reference {
  import opened Wrappers
  import opened History
  import opened UrlKeys
  import opened UrlGroups

  /** A row is filed under `k` when its URL parses and `k` is its page key or its domain key. */
  predicate Touches(parse: UrlParser, row: HistoryEntry, k: string) {
    parse(row.url).Some? && (Normalize(row.url) == k || BasePath(parse(row.url).value) == k)
  }

  /** What one row adds to the count under `k`: its own count once for each of its two keys that
      equals `k`, so twice when the page key is the domain key, and nothing when the URL does not
      parse. */
  function Contribution(parse: UrlParser, row: HistoryEntry, k: string): (c: int)
    ensures !Touches(parse, row, k) ==> c == 0
    ensures Touches(parse, row, k) && Normalize(row.url) != BasePath(parse(row.url).value) ==> c == row.totalVisits
    ensures Touches(parse, row, k) && Normalize(row.url) == BasePath(parse(row.url).value) ==> c == 2 * row.totalVisits
  {
    match parse(row.url)
    case None => 0
    case Some(u) =>
      (if Normalize(row.url) == k then row.totalVisits else 0) +
      (if BasePath(u) == k then row.totalVisits else 0)
  }

  /** The count an entry under `k` should end with: all rows' contributions to `k`. */
  function KeyVisits(parse: UrlParser, rows: seq<HistoryEntry>, k: string): int {
    if |rows| == 0 then 0
    else KeyVisits(parse, rows[..|rows| - 1], k) + Contribution(parse, rows[|rows| - 1], k)
  }

  /** The earliest row filed under `k`, if any. */
  function FirstToucher(parse: UrlParser, rows: seq<HistoryEntry>, k: string): Option<HistoryEntry> {
    if |rows| == 0 then None
    else
      var f := FirstToucher(parse, rows[..|rows| - 1], k);
      var last := rows[|rows| - 1];
      if f.Some? then f
      else if Touches(parse, last, k) then Some(last)
      else None
  }

  /** `FirstToucher` finds a row exactly when some row is filed under `k`, and the row it finds
      is filed under `k` while no earlier row is. */
  lemma {:induction false} FirstToucherIsFirst(parse: UrlParser, rows: seq<HistoryEntry>, k: string)
    ensures var r := FirstToucher(parse, rows, k);
      && (r.Some? <==> exists i :: 0 <= i < |rows| && Touches(parse, rows[i], k))
      && (r.Some? ==> exists i :: && 0 <= i < |rows| && rows[i] == r.value && Touches(parse, rows[i], k)
                                  && forall j :: 0 <= j < i ==> !Touches(parse, rows[j], k))
  {
    if |rows| > 0 {
      var prefix := rows[..|rows| - 1];
      FirstToucherIsFirst(parse, prefix, k);
      assert forall i :: 0 <= i < |prefix| ==> prefix[i] == rows[i];
      if FirstToucher(parse, prefix, k).None? && Touches(parse, rows[|rows| - 1], k) {
        assert forall j :: 0 <= j < |rows| - 1 ==> !Touches(parse, rows[j], k);
      }
    }
  }

  /** The entry expected under `k`: the first row filed under `k`, with `url` set to `k` and the
      count set to the sum of all contributions to `k`. */
  function Expected(parse: UrlParser, rows: seq<HistoryEntry>, k: string): Option<HistoryEntry> {
    match FirstToucher(parse, rows, k)
    case None => None
    case Some(first) => Some(first.(url := k, totalVisits := KeyVisits(parse, rows, k)))
  }

  /** Every key the rows are filed under, in row order, page key before domain key. */
  function KeyStream(parse: UrlParser, rows: seq<HistoryEntry>): seq<string> {
    if |rows| == 0 then []
    else
      var last := rows[|rows| - 1];
      KeyStream(parse, rows[..|rows| - 1]) +
      match parse(last.url)
      case None => []
      case Some(u) => [Normalize(last.url), BasePath(u)]
  }

  /** The key stream holds exactly the keys some row is filed under. */
  lemma {:induction false} KeyStreamHoldsTouchedKeys(parse: UrlParser, rows: seq<HistoryEntry>, k: string)
    ensures k in KeyStream(parse, rows) <==> exists i :: 0 <= i < |rows| && Touches(parse, rows[i], k)
  {
    if |rows| > 0 {
      var prefix := rows[..|rows| - 1];
      KeyStreamHoldsTouchedKeys(parse, prefix, k);
      assert forall i :: 0 <= i < |prefix| ==> prefix[i] == rows[i];
      if Touches(parse, rows[|rows| - 1], k) {
        assert k in KeyStream(parse, rows);
      }
    }
  }

  /** The first occurrence of each element, in order. */
  function Dedup(s: seq<string>): (r: seq<string>)
    ensures forall x :: x in r <==> x in s
  {
    if |s| == 0 then []
    else
      var d := Dedup(s[..|s| - 1]);
      assert forall x :: x in s <==> x in s[..|s| - 1] || x == s[|s| - 1];
      if s[|s| - 1] in d then d else d + [s[|s| - 1]]
  }

  /** The deduplicated sequence lists each element once. */
  lemma {:induction false} DedupDistinct(s: seq<string>)
    ensures Distinct(Dedup(s))
  {
    if |s| > 0 {
      DedupDistinct(s[..|s| - 1]);
    }
  }

  /** One more element is appended to the deduplicated sequence exactly when it is new. */
  lemma DedupSnoc(s: seq<string>, x: string)
    ensures Dedup(s + [x]) == if x in s then Dedup(s) else Dedup(s) + [x]
  {
    assert (s + [x])[..|s|] == s;
  }

  /** The counts of the parsed rows whose page key is `k`. */
  function PageVisits(parse: UrlParser, rows: seq<HistoryEntry>, k: string): int {
    if |rows| == 0 then 0
    else
      var last := rows[|rows| - 1];
      PageVisits(parse, rows[..|rows| - 1], k) +
      (if parse(last.url).Some? && Normalize(last.url) == k then last.totalVisits else 0)
  }

  /** The counts of the parsed rows whose domain key is `k`. */
  function DomainVisits(parse: UrlParser, rows: seq<HistoryEntry>, k: string): int {
    if |rows| == 0 then 0
    else
      var last := rows[|rows| - 1];
      DomainVisits(parse, rows[..|rows| - 1], k) +
      (if parse(last.url).Some? && BasePath(parse(last.url).value) == k then last.totalVisits else 0)
  }

  /** The count under a key is what it collects as a page key plus what it collects as a domain
      key; the two parts are separate sums only because the keys share one map. */
  lemma {:induction false} KeyVisitsSplit(parse: UrlParser, rows: seq<HistoryEntry>, k: string)
    ensures KeyVisits(parse, rows, k) == PageVisits(parse, rows, k) + DomainVisits(parse, rows, k)
  {
    if |rows| > 0 {
      KeyVisitsSplit(parse, rows[..|rows| - 1], k);
    }
  }

  /** A key that is no parsed row's page key collects nothing as a page key. */
  lemma {:induction false} NoPageNoPageVisits(parse: UrlParser, rows: seq<HistoryEntry>, k: string)
    requires forall i :: 0 <= i < |rows| && parse(rows[i].url).Some? ==> Normalize(rows[i].url) != k
    ensures PageVisits(parse, rows, k) == 0
  {
    if |rows| > 0 {
      var prefix := rows[..|rows| - 1];
      assert forall i :: 0 <= i < |prefix| ==> prefix[i] == rows[i];
      NoPageNoPageVisits(parse, prefix, k);
    }
  }

  /** A key that is no parsed row's domain key collects nothing as a domain key. */
  lemma {:induction false} NoDomainNoDomainVisits(parse: UrlParser, rows: seq<HistoryEntry>, k: string)
    requires forall i :: 0 <= i < |rows| && parse(rows[i].url).Some? ==> BasePath(parse(rows[i].url).value) != k
    ensures DomainVisits(parse, rows, k) == 0
  {
    if |rows| > 0 {
      var prefix := rows[..|rows| - 1];
      assert forall i :: 0 <= i < |prefix| ==> prefix[i] == rows[i];
      NoDomainNoDomainVisits(parse, prefix, k);
    }
  }

  /** A row's two keys extend the deduplicated stream by those that are new, page key first. */
  lemma DedupPair(s: seq<string>, page: string, domain: string)
    ensures Dedup(s + [page, domain]) ==
      Dedup(s) + (if page in s then [] else [page]) + (if domain in s || domain == page then [] else [domain])
  {
    var s1 := s + [page];
    DedupSnoc(s, page);
    DedupSnoc(s1, domain);
    assert s + [page, domain] == s1 + [domain];
    assert domain in s1 <==> domain in s || domain == page;
  }

  /** The sum of the counts of the rows whose URL parses. */
  function ParsedVisits(parse: UrlParser, rows: seq<HistoryEntry>): int {
    if |rows| == 0 then 0
    else
      var last := rows[|rows| - 1];
      ParsedVisits(parse, rows[..|rows| - 1]) + (if parse(last.url).Some? then last.totalVisits else 0)
  }

  /** The URLs that do not parse, in row order. */
  function Unparsed(parse: UrlParser, rows: seq<HistoryEntry>): seq<string> {
    if |rows| == 0 then []
    else
      var last := rows[|rows| - 1];
      Unparsed(parse, rows[..|rows| - 1]) + (if parse(last.url).None? then [last.url] else [])
  }
}

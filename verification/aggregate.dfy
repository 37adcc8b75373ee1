/**
 The per-row fold of both extractors (`rows.forEach(row => { try { … } catch … })`): each row whose
 URL parses is added under its page key and under its domain key, in one shared map.
 */
module Aggregate {
  import opened Wrappers
  import opened History
  import opened UrlKeys
  import opened UrlGroups

  /** The exception `new URL(row.url)` throws. */
  datatype InvalidUrl = InvalidUrl(input: string)

  /** The map being built and the warnings printed so far. */
  datatype Progress = Progress(groups: Groups, warnings: seq<string>)

  /** The line `console.warn` prints for a row that is skipped. */
  function Warning(url: string): (w: string)
    ensures |w| == 13 + |url|
    ensures w[..13] == "Invalid URL: " && w[13..] == url
  {
    "Invalid URL: " + url
  }

  /** The keys the row adds to `g`, in the order it adds them: the page key before the domain key. */
  function NewKeys(g: Groups, page: string, domain: string): (r: seq<string>)
    ensures forall k :: k in r <==> (k == page || k == domain) && k !in g.entries
    ensures |r| <= 2
    ensures page !in g.entries ==> |r| > 0 && r[0] == page
  {
    (if page in g.entries then [] else [page]) +
    (if domain in g.entries || domain == page then [] else [domain])
  }

  /** The body of the `try` block. The URL is parsed before the map is touched, so when parsing
      throws nothing has changed; otherwise the row is added under its two keys. */
  function TryMerge(parse: UrlParser, g: Groups, row: HistoryEntry): (r: Result<Groups, InvalidUrl>)
    requires Valid(g)
    ensures r.Failure? <==> parse(row.url).None?
    ensures r.Failure? ==> r.error == InvalidUrl(row.url)
    ensures r.Success? ==> Valid(r.value)
  {
    match parse(row.url)
    case None => Failure(InvalidUrl(row.url))
    case Some(u) =>
      var basePath := BasePath(u);
      var normalizedUrl := Normalize(row.url);
      Success(AddRow(g, row, normalizedUrl, basePath))
  }

  /** Adding a parsed row under its page key and its domain key. The page entry is created as a copy
      of the row or has its count increased; the domain entry is created with count 0 if it is
      missing; then the domain entry's count is increased by the row's count. The two keys may be
      the same string. */
  function AddRow(g: Groups, row: HistoryEntry, page: string, domain: string): (r: Groups)
    requires Valid(g)
    ensures Valid(r)
  {
    var g1 := if page in g.entries then Bump(g, page, row.totalVisits)
              else Put(g, page, row.(url := page));
    var g2 := if domain in g1.entries then g1
              else Put(g1, domain, row.(url := domain, totalVisits := 0));
    Bump(g2, domain, row.totalVisits)
  }

  /** A row appends only its new keys, page key first. */
  lemma AddRowOrder(g: Groups, row: HistoryEntry, page: string, domain: string)
    requires Valid(g)
    ensures AddRow(g, row, page, domain).order == g.order + NewKeys(g, page, domain)
  {
    var g1 := if page in g.entries then Bump(g, page, row.totalVisits)
              else Put(g, page, row.(url := page));
    assert g1.order == g.order + (if page in g.entries then [] else [page]);
    assert domain in g1.entries <==> domain in g.entries || domain == page;
  }

  /** A row leaves every other key as it was. */
  lemma AddRowFrame(g: Groups, row: HistoryEntry, page: string, domain: string, k: string)
    requires Valid(g) && k != page && k != domain
    ensures Lookup(AddRow(g, row, page, domain), k) == Lookup(g, k)
  {
  }

  /** Entries created for a row are filed under their own `url`. */
  lemma AddRowSelfKeyed(g: Groups, row: HistoryEntry, page: string, domain: string)
    requires Valid(g)
    ensures SelfKeyed(g) ==> SelfKeyed(AddRow(g, row, page, domain))
  {
    var r := AddRow(g, row, page, domain);
    forall k | k in r.entries && SelfKeyed(g) ensures r.entries[k].url == k {
      if k != page && k != domain {
        AddRowFrame(g, row, page, domain, k);
      }
    }
  }

  /** A page seen before: only its count grows, by the row's count; its title, date and frecency
      stay those of the row that created it. */
  lemma ExistingPageGrows(g: Groups, row: HistoryEntry, page: string, domain: string)
    requires Valid(g) && page in g.entries && page != domain
    ensures var r := AddRow(g, row, page, domain);
      page in r.entries && r.entries[page] == g.entries[page].(totalVisits := g.entries[page].totalVisits + row.totalVisits)
  {
  }

  /** A new page: its entry is the row with `url` rewritten to the page key, and the page key is
      appended to the insertion order ahead of any new domain key. */
  lemma NewPageIsRow(g: Groups, row: HistoryEntry, page: string, domain: string)
    requires Valid(g) && page !in g.entries && page != domain
    ensures var r := AddRow(g, row, page, domain);
      && page in r.entries && r.entries[page] == row.(url := page)
      && |r.order| > |g.order| && r.order[|g.order|] == page
  {
    AddRowOrder(g, row, page, domain);
  }

  /** A new domain: its entry is a copy of the row under the domain key, seeded with count 0 and
      then given the row's count. */
  lemma NewDomainSeededAtZero(g: Groups, row: HistoryEntry, page: string, domain: string)
    requires Valid(g) && domain !in g.entries && page != domain
    ensures var r := AddRow(g, row, page, domain);
      && domain in r.entries && r.entries[domain] == row.(url := domain)
      && r.order[|r.order| - 1] == domain
  {
    AddRowOrder(g, row, page, domain);
  }

  /** A domain seen before: only its count grows, by the row's count. */
  lemma ExistingDomainGrows(g: Groups, row: HistoryEntry, page: string, domain: string)
    requires Valid(g) && domain in g.entries && page != domain
    ensures var r := AddRow(g, row, page, domain);
      domain in r.entries && r.entries[domain] == g.entries[domain].(totalVisits := g.entries[domain].totalVisits + row.totalVisits)
  {
  }

  /** When the page key is the domain key (`http://a.com/` normalises to `http://a.com`), the one
      shared entry receives the row's count twice. */
  lemma SharedKeyCountsTwice(g: Groups, row: HistoryEntry, key: string)
    requires Valid(g)
    ensures var r := AddRow(g, row, key, key);
      && key in r.entries
      && r.entries[key].totalVisits == (if key in g.entries then g.entries[key].totalVisits else 0) + 2 * row.totalVisits
      && DetailsOf(r.entries[key]) == (if key in g.entries then DetailsOf(g.entries[key]) else DetailsOf(row))
  {
  }

  /** What a row does to the entry under any key `k`: `k` gains the row's count once for each of
      the row's two keys it equals; a new entry starts as the row itself under `k`. */
  lemma AddRowLookup(g: Groups, row: HistoryEntry, page: string, domain: string, k: string)
    requires Valid(g)
    ensures var c := (if k == page then row.totalVisits else 0) + (if k == domain then row.totalVisits else 0);
      Lookup(AddRow(g, row, page, domain), k) ==
        if k != page && k != domain then Lookup(g, k)
        else if k in g.entries then Some(g.entries[k].(totalVisits := g.entries[k].totalVisits + c))
        else Some(row.(url := k, totalVisits := c))
  {
    if k != page && k != domain {
      AddRowFrame(g, row, page, domain, k);
    } else if page == domain {
      SharedKeyCountsTwice(g, row, k);
    } else if k == page {
      if k in g.entries {
        ExistingPageGrows(g, row, page, domain);
      } else {
        NewPageIsRow(g, row, page, domain);
      }
    } else {
      if k in g.entries {
        ExistingDomainGrows(g, row, page, domain);
      } else {
        NewDomainSeededAtZero(g, row, page, domain);
      }
    }
  }

  /** Every row adds exactly twice its count to the sum of all entries, whether or not its two keys
      coincide. */
  lemma AddRowTotal(g: Groups, row: HistoryEntry, page: string, domain: string)
    requires Valid(g)
    ensures Total(AddRow(g, row, page, domain)) == Total(g) + 2 * row.totalVisits
  {
    var g1 := if page in g.entries then Bump(g, page, row.totalVisits)
              else Put(g, page, row.(url := page));
    if page in g.entries {
      BumpTotal(g, page, row.totalVisits);
    } else {
      PutNewTotal(g, page, row.(url := page));
    }
    var g2 := if domain in g1.entries then g1
              else Put(g1, domain, row.(url := domain, totalVisits := 0));
    if domain !in g1.entries {
      PutNewTotal(g1, domain, row.(url := domain, totalVisits := 0));
    }
    BumpTotal(g2, domain, row.totalVisits);
  }

  /** The `forEach` callback: the `catch` turns a parse failure into a warning and the row is
      skipped; no exception leaves the callback. */
  function Absorb(parse: UrlParser, p: Progress, row: HistoryEntry): (r: Progress)
    requires Valid(p.groups)
    ensures Valid(r.groups)
    ensures SelfKeyed(p.groups) ==> SelfKeyed(r.groups)
    ensures parse(row.url).None? ==> r.groups == p.groups && r.warnings == p.warnings + [Warning(row.url)]
    ensures parse(row.url).Some? ==> r.warnings == p.warnings && r.groups == TryMerge(parse, p.groups, row).value
  {
    match TryMerge(parse, p.groups, row)
    case Success(g) =>
      AddRowSelfKeyed(p.groups, row, Normalize(row.url), BasePath(parse(row.url).value));
      Progress(g, p.warnings)
    case Failure(InvalidUrl(url)) =>
      Progress(p.groups, p.warnings + [Warning(url)])
  }

  /** The whole `forEach`, starting from `new Map()`: row `i` is absorbed after rows `0..i-1`. */
  function Run(parse: UrlParser, rows: seq<HistoryEntry>): (r: Progress)
    ensures Valid(r.groups) && SelfKeyed(r.groups)
    ensures |r.warnings| <= |rows|
  {
    if |rows| == 0 then Progress(Empty(), [])
    else
      var prev := Run(parse, rows[..|rows| - 1]);
      Absorb(parse, prev, rows[|rows| - 1])
  }
}

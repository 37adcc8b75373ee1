/**
 A worked example: three Chrome rows on one domain, two of which differ only by a trailing slash.
 */
module Example {
  import opened Wrappers
  import opened History
  import opened UrlKeys
  import opened UrlGroups
  import opened Aggregate
  import opened Ranking
  import opened Report

  const PageX: string := "http://a.com/x"
  const PageXSlash: string := "http://a.com/x/"
  const PageY: string := "http://a.com/y"
  const Domain: string := "http://a.com"

  function Visit(url: string, visits: int): HistoryEntry {
    HistoryEntry(url, None, None, visits, None)
  }

  function ExampleRows(): seq<HistoryEntry> {
    [Visit(PageX, 15), Visit(PageXSlash, 5), Visit(PageY, 20)]
  }

  /** A parser that files all three URLs under `http:` and `a.com`. */
  ghost predicate ParsesExample(parse: UrlParser) {
    && parse(PageX) == Some(ParsedUrl("http:", "a.com"))
    && parse(PageXSlash) == Some(ParsedUrl("http:", "a.com"))
    && parse(PageY) == Some(ParsedUrl("http:", "a.com"))
  }

  lemma ExampleKeys()
    ensures BasePath(ParsedUrl("http:", "a.com")) == Domain
    ensures Normalize(PageX) == PageX && Normalize(PageXSlash) == PageX && Normalize(PageY) == PageY
    ensures PageX != Domain && PageY != Domain && PageX != PageY
  {
    assert |PageX| != |Domain| && |PageY| != |Domain| && PageX[13] != PageY[13];
    assert PageXSlash[..|PageXSlash| - 1] == PageX;
  }

  /** After the first two rows: one page with 15 + 5 visits and its domain with the same. */
  lemma FirstTwoRows(parse: UrlParser)
    requires ParsesExample(parse)
    ensures Run(parse, ExampleRows()[..2]).groups
         == Groups([PageX, Domain], map[PageX := Visit(PageX, 20), Domain := Visit(Domain, 20)])
  {
    var rows := ExampleRows();
    ExampleKeys();
    var g1 := AddRow(Empty(), rows[0], PageX, Domain);
    assert g1 == Groups([PageX, Domain], map[PageX := Visit(PageX, 15), Domain := Visit(Domain, 15)]);
    assert Run(parse, rows[..1]).groups == g1 by {
      assert rows[..1][..0] == [];
    }
    var g2 := AddRow(g1, rows[1], PageX, Domain);
    assert g2 == Groups([PageX, Domain], map[PageX := Visit(PageX, 20), Domain := Visit(Domain, 20)]);
    assert rows[..2][..1] == rows[..1];
  }

  /** The third row adds its page after the two existing keys and 20 more visits to the domain. */
  lemma ThirdRow(g2: Groups, row: HistoryEntry)
    requires g2 == Groups([PageX, Domain], map[PageX := Visit(PageX, 20), Domain := Visit(Domain, 20)])
    requires row == Visit(PageY, 20)
    ensures Values(AddRow(g2, row, PageY, Domain)) == [Visit(PageX, 20), Visit(Domain, 40), Visit(PageY, 20)]
  {
    ExampleKeys();
    var g3 := AddRow(g2, row, PageY, Domain);
    AddRowOrder(g2, row, PageY, Domain);
    NewPageIsRow(g2, row, PageY, Domain);
    ExistingDomainGrows(g2, row, PageY, Domain);
    AddRowFrame(g2, row, PageY, Domain, PageX);
    assert g3.order == [PageX, Domain, PageY];
    var vs := Values(g3);
    assert vs[0] == g3.entries[PageX] && vs[1] == g3.entries[Domain] && vs[2] == g3.entries[PageY];
  }

  /** After all three rows the map lists the page, the domain and the second page. */
  lemma AllThreeRows(parse: UrlParser)
    requires ParsesExample(parse)
    ensures Values(Run(parse, ExampleRows()).groups)
         == [Visit(PageX, 20), Visit(Domain, 40), Visit(PageY, 20)]
  {
    var rows := ExampleRows();
    ExampleKeys();
    FirstTwoRows(parse);
    var g2 := Run(parse, rows[..2]).groups;
    assert rows[..2] == rows[..|rows| - 1];
    assert Run(parse, rows).groups == AddRow(g2, rows[2], PageY, Domain);
    ThirdRow(g2, rows[2]);
  }

  lemma RankThree(a: HistoryEntry, b: HistoryEntry, c: HistoryEntry)
    requires a.totalVisits == c.totalVisits < b.totalVisits
    ensures Rank([a, b, c]) == [b, a, c]
  {
    assert [a, b, c][1..] == [b, c] && [b, c][1..] == [c];
    assert Rank([c]) == [c];
    assert Rank([b, c]) == [b, c];
    assert Insert(a, [c]) == [a, c];
  }

  /** `http://a.com/x` (15 visits), `http://a.com/x/` (5) and `http://a.com/y` (20) give the domain
      entry `http://a.com` with 40 visits first, then the two pages with 20 visits each, in the
      order they entered the map. */
  lemma ThreeRowsOneDomain(parse: UrlParser)
    requires ParsesExample(parse)
    ensures Results(parse, ExampleRows()) == [Visit(Domain, 40), Visit(PageX, 20), Visit(PageY, 20)]
  {
    AllThreeRows(parse);
    RankThree(Visit(PageX, 20), Visit(Domain, 40), Visit(PageY, 20));
  }

  /** `http://a.com/` is its own domain once its slash is removed, so a single row for it yields a
      single entry holding twice the row's count. */
  lemma RootUrlCountsTwice(parse: UrlParser)
    requires parse(Domain + "/") == Some(ParsedUrl("http:", "a.com"))
    ensures Values(Run(parse, [Visit(Domain + "/", 12)]).groups) == [Visit(Domain, 24)]
  {
    var rows := [Visit(Domain + "/", 12)];
    ExampleKeys();
    NormalizeStripsAppendedSlash(Domain);
    assert rows[..0] == [];
    var g := AddRow(Empty(), rows[0], Domain, Domain);
    assert g == Groups([Domain], map[Domain := Visit(Domain, 24)]);
  }
}

# Browser history aggregation, modelled in Dafny

The repository holds two scripts, `src/firefox.ts` and `src/chrome.ts`. Each reads the history table
of a browser's SQLite database and writes a ranked JSON report. The only logic between the query and
the file write is the same in both scripts:

1. **Fold.** Every row is folded, in order, into one insertion-ordered `Map<string, BrowserHistory>`.
   A row whose URL the WHATWG `URL` constructor rejects is skipped with a warning. Any other row is
   filed twice:
   - under its *page key*, the URL with one trailing `/` removed;
   - under its *domain key*, `protocol + "//" + hostname`.
   A page entry is created as a copy of the row, or has its count increased. A domain entry is
   created as a copy of the row with count 0, and then has its count increased by the row's count.
   Page keys and domain keys share one map, so `http://a.com/` files its count twice under
   `http://a.com`.
2. **Ranking.** The map's values are sorted by descending `total_visits`. `Array.prototype.sort` is
   stable, so ties keep map insertion order.

The model covers both scripts with one record type, `History.HistoryEntry`. It models the `BrowserHistory` interface of src/firefox.ts:10-16 and src/chrome.ts:10-15. Its `frecency` field is
`Some` for Firefox rows and `None` for Chrome rows.

Modules, in dependency order:

- `Wrappers` (`wrappers.dfy`): `Option` and `Result`.
- `History` (`history.dfy`): the `BrowserHistory` record and sums of visit counts.
- `UrlKeys` (`url_keys.dfy`): the page key (`Normalize`) and the domain key (`BasePath`). URL parsing
  is the parameter `parse: UrlParser`. It returns `None` where `new URL(s)` throws, and otherwise the
  `protocol` and `hostname` getters' values.
- `UrlGroups` (`url_groups.dfy`): a JavaScript `Map`, modelled as the key insertion order plus a
  Dafny `map`.
- `Aggregate` (`aggregate.dfy`): the body of the `try` block (`TryMerge`, `AddRow`), the `forEach`
  callback with its `catch` (`Absorb`), and the whole fold (`Run`).
- `Reference` (`reference.dfy`): a description of the expected map that does not use the fold. Each
  key's entry is the first row filed under it, with `url` set to the key and the count set to the sum
  of every row's contribution to that key. The keys appear in the order they first occur.
- `Correctness` (`correctness.dfy`): proofs that the fold builds exactly the map `Reference`
  describes, plus the totals, warnings and frecency facts that follow.
- `Ranking` (`ranking.dfy`): the stable descending sort. It is proved sorted, a permutation and
  stable, and it is proved to be the only sort with those three properties.
- `Report` (`report.dfy`): the ranked values, `results` in the scripts.
- `Example` (`example.dfy`): two worked inputs.

## Model

| member | source | states |
|---|---|---|
| UrlKeys.BasePath | src/firefox.ts:48 | the domain key is the protocol, then "//", then the hostname, and each part sits at a fixed position in the key |
| UrlKeys.BasePathDeterminesParts | src/firefox.ts:48 | when both protocols are a scheme ending in its only ':', equal domain keys mean equal protocols and equal hostnames |
| UrlKeys.Normalize | src/firefox.ts:51 | the page key is a prefix of the URL that is shorter exactly when the URL ends in '/', and then by one character only |
| UrlKeys.NormalizeKeepsUnslashed | src/chrome.ts:44 | a URL without a trailing slash is its own page key |
| UrlKeys.NormalizeStripsAppendedSlash | src/firefox.ts:51 | `s + "/"` normalises to `s`, whatever `s` ends with |
| UrlKeys.NormalizeStripsOnlyOneSlash | src/firefox.ts:51 | `s + "//"` normalises to `s + "/"`, which still ends in a slash |
| UrlKeys.NormalizeNotIdempotent | src/chrome.ts:44 | normalising `x//` twice differs from normalising it once |
| UrlKeys.NormalizeMergesTrailingSlash | src/chrome.ts:44 | a URL and the same URL with one slash appended share a page key |
| UrlGroups.Empty | src/firefox.ts:41 | the new map has no keys and every lookup misses |
| UrlGroups.Lookup | src/firefox.ts:54 | `get` misses exactly when the key is absent, and otherwise returns the entry filed under it |
| UrlGroups.Put | src/firefox.ts:61-64 | `set` files the entry under the key and keeps the map well formed; a key already present keeps its position, and a new key goes last |
| UrlGroups.Bump | src/firefox.ts:78-79 | adding to an entry's count changes only that count, and the key keeps its position |
| UrlGroups.Values | src/firefox.ts:86 | `values()` has one element per key, and the i-th element is the entry of the i-th key in insertion order |
| UrlGroups.ValuesListsEntries | src/firefox.ts:86 | `values()` lists every entry of the map once, in key order, and nothing else |
| UrlGroups.PutNewTotal | src/firefox.ts:61-64 | setting a new key adds its entry's count to the sum of all counts |
| UrlGroups.BumpTotal | src/firefox.ts:58 | increasing one entry's count by n increases the sum of all counts by n |
| Aggregate.Warning | src/firefox.ts:81 | the warning is "Invalid URL: " followed by the row's URL |
| Aggregate.NewKeys | src/firefox.ts:54-75 | a row adds only those of its page key and domain key that were absent, at most two, with the page key first |
| Aggregate.TryMerge | src/firefox.ts:45-51 | the row fails exactly when its URL does not parse, the failure names that URL, and a merge keeps the map well formed |
| Aggregate.AddRow | src/chrome.ts:46-66 | filing a parsed row keeps the insertion order free of duplicates and in step with the keys |
| Aggregate.AddRowOrder | src/firefox.ts:59-75 | the new insertion order is the old one followed by the row's new keys, page key before domain key |
| Aggregate.AddRowFrame | src/chrome.ts:46-66 | every key other than the page key and the domain key keeps its entry, or stays absent |
| Aggregate.AddRowSelfKeyed | src/firefox.ts:61-74 | every entry's url stays equal to the key it is filed under |
| Aggregate.ExistingPageGrows | src/firefox.ts:54-58 | a page seen before gains exactly the row's count, and its title, date and frecency stay those of its first row |
| Aggregate.NewPageIsRow | src/firefox.ts:59-64 | a new page entry equals the row with url set to the page key, and its key comes right after the old keys |
| Aggregate.NewDomainSeededAtZero | src/firefox.ts:68-79 | a new domain entry is the row under the domain key with count 0 plus the row's count, and its key is the last one |
| Aggregate.ExistingDomainGrows | src/chrome.ts:57-66 | a domain seen before gains exactly the row's count and nothing else changes in it |
| Aggregate.SharedKeyCountsTwice | src/firefox.ts:51-79 | when the page key equals the domain key, the one entry gains twice the row's count |
| Aggregate.AddRowLookup | src/firefox.ts:54-79 | every key gains the row's count once for each of the row's two keys it equals, and a new key starts as the row under that key |
| Aggregate.AddRowTotal | src/chrome.ts:46-66 | each parsed row adds exactly twice its count to the sum of all counts |
| Aggregate.Absorb | src/firefox.ts:80-82 | a row that does not parse leaves the map unchanged and logs one warning; a parsed row logs nothing; no failure escapes |
| Aggregate.Run | src/chrome.ts:37-70 | the fold from an empty map keeps the map well formed, keeps each entry under its own url, and warns at most once per row |
| Reference.Contribution | src/chrome.ts:46-66 | a row adds nothing to a key it is not filed under, its count to one of its two keys, and twice its count when the keys coincide |
| Reference.FirstToucherIsFirst | src/firefox.ts:56-75 | the reference's source row for a key is filed under that key, and no earlier row is |
| Reference.KeyStreamHoldsTouchedKeys | src/firefox.ts:61-75 | the keys in the reference's key stream are exactly the keys some parsed row is filed under |
| Reference.Dedup | src/firefox.ts:41 | the insertion order holds exactly the keys of the key stream |
| Reference.DedupDistinct | src/firefox.ts:59-75 | a key enters the insertion order only once, so the order has no duplicates |
| Reference.DedupSnoc | src/firefox.ts:68-75 | a further key is appended to the order exactly when it has not been seen |
| Reference.DedupPair | src/firefox.ts:59-75 | a row's two keys extend the order by those not seen before, page key first |
| Reference.KeyVisitsSplit | src/chrome.ts:46-66 | a key's count is what it collects as a page key plus what it collects as a domain key |
| Correctness.MergeLookup | src/firefox.ts:54-79 | after a parsed row, each key holds what it held, or that entry plus the row's contribution, or the row itself under that key with the row's contribution |
| Correctness.RunLookup | src/firefox.ts:44-83 | after the fold, the lookup of every key is the reference's expected entry, or absent |
| Correctness.RunMatchesReference | src/chrome.ts:40-70 | the fold's map agrees with the reference at every key |
| Correctness.MergeKeepsReference | src/firefox.ts:45-79 | one parsed row keeps the map in step with the reference extended by that row |
| Correctness.SkipKeepsReference | src/firefox.ts:80-82 | a skipped row keeps the map in step with the reference extended by that row |
| Correctness.MergeKeepsOrder | src/firefox.ts:59-75 | one parsed row extends the insertion order with the first occurrences of its two keys |
| Correctness.RunOrder | src/firefox.ts:44-83 | the map's keys are in the order they first occur among page and domain keys of the parsed rows |
| Correctness.RunTotal | src/chrome.ts:40-70 | the map's counts add up to twice the counts of the rows whose URL parses |
| Correctness.RunWarnings | src/firefox.ts:80-82 | one warning per row that does not parse, in row order, naming its URL |
| Correctness.DomainEntryTotal | src/firefox.ts:68-79 | a domain key that is no row's page key holds exactly the sum of counts of its domain's rows |
| Correctness.PageEntryTotal | src/chrome.ts:44-55 | a page key that is no row's domain key holds exactly the sum of counts of the rows that normalise to it |
| Correctness.EntryComesFromFirstRow | src/firefox.ts:56-75 | a key is present exactly when some parsed row is filed under it, and its title, date and frecency are the first such row's |
| Correctness.ChromeEntriesHaveNoFrecency | src/chrome.ts:10-15 | rows without frecency give entries without frecency |
| Correctness.FirefoxEntriesHaveFrecency | src/firefox.ts:10-16 | rows with frecency give entries with frecency |
| Ranking.Insert | src/firefox.ts:87 | inserting gives one more element, and the elements are the inserted entry and the old ones |
| Ranking.Rank | src/firefox.ts:86-87 | the ranked list has the input's length and the input's elements |
| Ranking.InsertAddsOne | src/firefox.ts:87 | inserting one entry adds exactly that entry to the multiset of entries |
| Ranking.InsertKeepsSorted | src/firefox.ts:87 | inserting into a list sorted by descending count keeps it sorted |
| Ranking.RankSortsAndPermutes | src/firefox.ts:86-87 | the ranked list is sorted non-increasing by count and is a permutation of its input |
| Ranking.InsertKeepsTies | src/chrome.ts:73 | an inserted entry stays ahead of every entry with its count |
| Ranking.RankIsStable | src/chrome.ts:72-73 | for every count, the entries with that count appear in input order |
| Ranking.SortedTiesDetermine | src/firefox.ts:86-87 | two sorted lists that agree on the order of every group of equal counts are equal |
| Ranking.RankIsTheStableSort | src/chrome.ts:72-73 | every sorted list that keeps ties in input order is the ranked list, so any stable sort gives this output |
| Ranking.RankKeepsSum | src/firefox.ts:86-87 | ranking keeps the sum of counts |
| Report.Results | src/firefox.ts:86-87 | the report is sorted non-increasing by count and is a permutation of the map's values |
| Report.ResultsKeepMapOrderOnTies | src/chrome.ts:72-73 | entries with equal counts appear in map insertion order |
| Report.ResultsListExpectedEntries | src/firefox.ts:44-87 | the report lists each expected entry exactly once, with pairwise distinct urls, and nothing else |
| Report.ResultsTotal | src/chrome.ts:40-73 | the report's counts add up to twice the counts of the rows that parse |
| Example.ThreeRowsOneDomain | src/chrome.ts:40-73 | rows `http://a.com/x` (15), `http://a.com/x/` (5) and `http://a.com/y` (20) give `http://a.com` 40, then `http://a.com/x` 20, then `http://a.com/y` 20 |
| Example.RootUrlCountsTwice | src/firefox.ts:48-79 | a single row for `http://a.com/` with 12 visits gives the single entry `http://a.com` with 24 |

## Left out

- Database access is not modelled: opening the SQLite file, the SQL text, the `visit_count > 10` filter and the `ORDER BY`. The rows are an input sequence. No property needs the filter, so there is no precondition on counts.
- The `datetime(...)` timestamp conversions run inside SQLite. `lastVisitDate` is an opaque optional string.
- WHATWG URL parsing and host canonicalisation (lowercasing, punycode) are the parameter `parse`. Every property holds for every parser.
- UrlKeys.BasePathDeterminesParts: the parser parameter may return any protocol string, so the lemma takes the getter's shape (a scheme ending in its only ':') as a precondition. Without it, protocol `a` with hostname `/b` and protocol `a/` with hostname `b` share the key `a///b`.
- Creating the output directory, `JSON.stringify`, the file write, `console.log`, `db.close()` and the outer `try`/`catch` are file and console I/O. `console.warn` is modelled as the `warnings` list of `Aggregate.Progress`.
- Aggregate.Run: `total_visits` is a JavaScript number, a double. Sums are modelled as unbounded integers, which matches the scripts only while totals stay below 2^53.
- Ranking.RankSortsAndPermutes: the engine's sorting algorithm is not modelled. `Rank` is an insertion sort, and `Ranking.RankIsTheStableSort` shows that every stable sort with this comparator gives the same list.
- Correctness.DomainEntryTotal: the domain entry is meant as the domain's total (the comment "Aggregate visits at the domain level" at src/firefox.ts:77). Page keys and domain keys share one map, so a row for `http://a.com/` adds its count to `http://a.com` twice (`Aggregate.SharedKeyCountsTwice`). The per-domain sum is proved only for domain keys that are no row's page key.

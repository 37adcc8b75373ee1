/**
 The `Map<string, BrowserHistory>` the aggregation fills. A JavaScript `Map` remembers the order
 in which keys were first set; `set` on a key already present replaces its value in place and
 keeps its position, and iteration (`values()`) follows that order.
 */
module UrlGroups {
  import opened Wrappers
  import opened History

  /** Keys in insertion order, plus the key/value association. */
  datatype Groups = Groups(order: seq<string>, entries: map<string, HistoryEntry>)

  ghost predicate Distinct(s: seq<string>) {
    forall i, j :: 0 <= i < j < |s| ==> s[i] != s[j]
  }

  /** The insertion order lists every key exactly once. */
  ghost predicate Valid(g: Groups) {
    && Distinct(g.order)
    && (forall k :: k in g.entries <==> k in g.order)
  }

  /** Every entry's `url` is the key it is filed under. */
  ghost predicate SelfKeyed(g: Groups) {
    forall k :: k in g.entries ==> g.entries[k].url == k
  }

  /** `new Map()`. */
  function Empty(): (g: Groups)
    ensures Valid(g) && SelfKeyed(g)
    ensures forall k :: Lookup(g, k) == None
    ensures |g.order| == 0
  {
    Groups([], map[])
  }

  /** `map.get(k)`, with `undefined` as `None`. */
  function Lookup(g: Groups, k: string): (r: Option<HistoryEntry>)
    ensures r.None? <==> k !in g.entries
    ensures r.Some? ==> r.value == g.entries[k]
  {
    if k in g.entries then Some(g.entries[k]) else None
  }

  /** `map.set(k, e)`. */
  function Put(g: Groups, k: string, e: HistoryEntry): (r: Groups)
    requires Valid(g)
    ensures Valid(r)
    ensures r.entries == g.entries[k := e]
    ensures k in g.entries ==> r.order == g.order
    ensures k !in g.entries ==> r.order == g.order + [k]
  {
    if k in g.entries then Groups(g.order, g.entries[k := e])
    else Groups(g.order + [k], g.entries[k := e])
  }

  /** `map.get(k)!.total_visits += n`: the entry object is changed in place, so the key keeps its
      position and every other field of the entry is kept. */
  function Bump(g: Groups, k: string, n: int): (r: Groups)
    requires Valid(g) && k in g.entries
    ensures Valid(r)
    ensures r.order == g.order
    ensures r.entries == g.entries[k := g.entries[k].(totalVisits := g.entries[k].totalVisits + n)]
  {
    var e := g.entries[k];
    Groups(g.order, g.entries[k := e.(totalVisits := e.totalVisits + n)])
  }

  /** `map.values()`, in insertion order. */
  function Values(g: Groups): (r: seq<HistoryEntry>)
    requires Valid(g)
    ensures |r| == |g.order| == |g.entries|
    ensures forall i :: 0 <= i < |r| ==> g.order[i] in g.entries && r[i] == g.entries[g.order[i]]
  {
    OrderCardinality(g.order, g.entries.Keys);
    seq(|g.order|, i requires 0 <= i < |g.order| => g.entries[g.order[i]])
  }

  /** Sum of `totalVisits` over all entries. */
  function Total(g: Groups): int
    requires Valid(g)
  {
    SumVisits(Values(g))
  }

  /** The values are exactly the entries of the map, each once, in key order. */
  lemma ValuesListsEntries(g: Groups)
    requires Valid(g)
    ensures |Values(g)| == |g.order| == |g.entries|
    ensures forall k :: k in g.entries ==> g.entries[k] in Values(g)
    ensures forall e :: e in Values(g) ==> exists k :: k in g.entries && g.entries[k] == e
  {
    var s := Values(g);
    forall k | k in g.entries ensures g.entries[k] in s {
      var i :| 0 <= i < |g.order| && g.order[i] == k;
      assert s[i] == g.entries[k];
    }
    OrderCardinality(g.order, g.entries.Keys);
  }

  lemma {:induction false} OrderCardinality(s: seq<string>, keys: set<string>)
    requires Distinct(s)
    requires forall k :: k in keys <==> k in s
    ensures |keys| == |s|
  {
    if |s| > 0 {
      var n := |s| - 1;
      assert forall k :: k in keys - {s[n]} <==> k in s[..n];
      OrderCardinality(s[..n], keys - {s[n]});
    }
  }

  /** Setting a new key adds its entry's count to the total. */
  lemma PutNewTotal(g: Groups, k: string, e: HistoryEntry)
    requires Valid(g) && k !in g.entries
    ensures Total(Put(g, k, e)) == Total(g) + e.totalVisits
  {
    var r := Put(g, k, e);
    assert Values(r) == Values(g) + [e];
    SumVisitsAppend(Values(g), e);
  }

  /** Adding `n` to one entry adds `n` to the total. */
  lemma BumpTotal(g: Groups, k: string, n: int)
    requires Valid(g) && k in g.entries
    ensures Total(Bump(g, k, n)) == Total(g) + n
  {
    var r := Bump(g, k, n);
    var i :| 0 <= i < |g.order| && g.order[i] == k;
    var s := Values(g);
    assert Values(r) == s[i := r.entries[k]];
    SumVisitsUpdate(s, i, r.entries[k]);
  }
}

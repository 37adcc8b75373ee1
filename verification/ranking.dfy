/**
 `Array.from(map.values()).sort((a, b) => b.total_visits - a.total_visits)`: a descending sort by
 visit count. `Array.prototype.sort` is stable (ECMAScript 2019 onwards), so entries with equal
 counts keep the order they had in the map.
 */
module Ranking {
  import opened History

  /** Non-increasing by visit count. */
  ghost predicate SortedByVisits(s: seq<HistoryEntry>) {
    forall i, j :: 0 <= i < j < |s| ==> s[i].totalVisits >= s[j].totalVisits
  }

  /** The entries of `s` whose count is `v`, in their order in `s`. Two sequences have the same
      such subsequence for every `v` exactly when they list the same entries and agree on the
      relative order of every tie. */
  function WithVisits(s: seq<HistoryEntry>, v: int): seq<HistoryEntry> {
    if |s| == 0 then []
    else (if s[0].totalVisits == v then [s[0]] else []) + WithVisits(s[1..], v)
  }

  /** Places `x` before the first entry whose count is at most its own. */
  function Insert(x: HistoryEntry, s: seq<HistoryEntry>): (r: seq<HistoryEntry>)
    ensures |r| == |s| + 1
    ensures forall e :: e in r <==> e == x || e in s
  {
    if |s| == 0 || x.totalVisits >= s[0].totalVisits then [x] + s
    else [s[0]] + Insert(x, s[1..])
  }

  /** The sorted list: a stable descending sort by visit count. */
  function Rank(s: seq<HistoryEntry>): (r: seq<HistoryEntry>)
    ensures |r| == |s|
    ensures forall e :: e in r <==> e in s
  {
    if |s| == 0 then [] else Insert(s[0], Rank(s[1..]))
  }

  /** Inserting adds exactly the one entry. */
  lemma {:induction false} InsertAddsOne(x: HistoryEntry, s: seq<HistoryEntry>)
    ensures multiset(Insert(x, s)) == multiset(s) + multiset{x}
  {
    if |s| > 0 && x.totalVisits < s[0].totalVisits {
      InsertAddsOne(x, s[1..]);
      assert s == [s[0]] + s[1..];
    }
  }

  /** Inserting into a sorted sequence gives a sorted sequence. */
  lemma {:induction false} InsertKeepsSorted(x: HistoryEntry, s: seq<HistoryEntry>)
    requires SortedByVisits(s)
    ensures SortedByVisits(Insert(x, s))
  {
    if |s| == 0 || x.totalVisits >= s[0].totalVisits {
      HeadAboveSorted(x, s);
    } else {
      var rest := Insert(x, s[1..]);
      InsertKeepsSorted(x, s[1..]);
      InsertAddsOne(x, s[1..]);
      forall e | e in rest ensures e.totalVisits <= s[0].totalVisits {
        assert e in multiset(rest);
        if e != x {
          assert e in multiset(s[1..]);
          var k :| 0 <= k < |s[1..]| && s[1..][k] == e;
          assert s[k + 1] == e;
        }
      }
      HeadAboveSorted(s[0], rest);
    }
  }

  /** An entry whose count is at least every count of a sorted sequence can lead it. */
  lemma HeadAboveSorted(h: HistoryEntry, s: seq<HistoryEntry>)
    requires SortedByVisits(s)
    requires forall e :: e in s ==> e.totalVisits <= h.totalVisits
    ensures SortedByVisits([h] + s)
  {
    var r := [h] + s;
    forall i, j | 0 <= i < j < |r| ensures r[i].totalVisits >= r[j].totalVisits {
      assert r[j] == s[j - 1];
      if i > 0 {
        assert r[i] == s[i - 1];
      }
    }
  }

  /** The ranked list is sorted and holds exactly the input entries. */
  lemma {:induction false} RankSortsAndPermutes(s: seq<HistoryEntry>)
    ensures SortedByVisits(Rank(s))
    ensures multiset(Rank(s)) == multiset(s)
  {
    if |s| > 0 {
      RankSortsAndPermutes(s[1..]);
      InsertKeepsSorted(s[0], Rank(s[1..]));
      InsertAddsOne(s[0], Rank(s[1..]));
      assert s == [s[0]] + s[1..];
    }
  }

  lemma {:induction false} WithVisitsAppend(a: seq<HistoryEntry>, b: seq<HistoryEntry>, v: int)
    ensures WithVisits(a + b, v) == WithVisits(a, v) + WithVisits(b, v)
  {
    if |a| == 0 {
      assert a + b == b;
    } else {
      assert (a + b)[0] == a[0];
      assert (a + b)[1..] == a[1..] + b;
      WithVisitsAppend(a[1..], b, v);
    }
  }

  /** Inserting `x` keeps it ahead of every entry of equal count. */
  lemma {:induction false} InsertKeepsTies(x: HistoryEntry, s: seq<HistoryEntry>, v: int)
    ensures WithVisits(Insert(x, s), v) == WithVisits([x] + s, v)
  {
    if |s| > 0 && x.totalVisits < s[0].totalVisits {
      InsertKeepsTies(x, s[1..], v);
      WithVisitsAppend([s[0]], Insert(x, s[1..]), v);
      WithVisitsAppend([x], s[1..], v);
      WithVisitsAppend([x], s, v);
      WithVisitsAppend([s[0]], s[1..], v);
      assert s == [s[0]] + s[1..];
    }
  }

  /** The sort is stable: for every count, the entries with that count appear in their input order. */
  lemma {:induction false} RankIsStable(s: seq<HistoryEntry>, v: int)
    ensures WithVisits(Rank(s), v) == WithVisits(s, v)
  {
    if |s| > 0 {
      RankIsStable(s[1..], v);
      InsertKeepsTies(s[0], Rank(s[1..]), v);
      WithVisitsAppend([s[0]], Rank(s[1..]), v);
      WithVisitsAppend([s[0]], s[1..], v);
      assert s == [s[0]] + s[1..];
    }
  }

  /** The entries with count `v` are exactly the members of `s` with that count. */
  lemma {:induction false} WithVisitsMembers(s: seq<HistoryEntry>, v: int, e: HistoryEntry)
    ensures e in WithVisits(s, v) <==> e in s && e.totalVisits == v
  {
    if |s| > 0 {
      WithVisitsMembers(s[1..], v, e);
      assert s == [s[0]] + s[1..];
    }
  }

  /** A sorted sequence is determined by its subsequences of equal count: two sorted sequences that
      agree on all of them are equal. */
  lemma {:induction false} SortedTiesDetermine(r1: seq<HistoryEntry>, r2: seq<HistoryEntry>)
    requires SortedByVisits(r1) && SortedByVisits(r2)
    requires forall v :: WithVisits(r1, v) == WithVisits(r2, v)
    ensures r1 == r2
  {
    if |r1| == 0 || |r2| == 0 {
      if |r1| > 0 {
        WithVisitsMembers(r1, r1[0].totalVisits, r1[0]);
      } else if |r2| > 0 {
        WithVisitsMembers(r2, r2[0].totalVisits, r2[0]);
      }
    } else {
      var m1 := r1[0].totalVisits;
      var m2 := r2[0].totalVisits;
      WithVisitsMembers(r1, m2, r2[0]);
      WithVisitsMembers(r2, m2, r2[0]);
      WithVisitsMembers(r2, m1, r1[0]);
      WithVisitsMembers(r1, m1, r1[0]);
      assert m1 == m2 by {
        var i :| 0 <= i < |r1| && r1[i] == r2[0];
        var j :| 0 <= j < |r2| && r2[j] == r1[0];
      }
      assert r1[0] == r2[0] by {
        assert WithVisits(r1, m1)[0] == r1[0];
        assert WithVisits(r2, m1)[0] == r2[0];
      }
      forall v ensures WithVisits(r1[1..], v) == WithVisits(r2[1..], v) {
        assert WithVisits(r1, v) == WithVisits(r2, v);
        var head := if m1 == v then [r1[0]] else [];
        assert WithVisits(r1, v) == head + WithVisits(r1[1..], v);
        assert WithVisits(r2, v) == head + WithVisits(r2[1..], v);
        assert WithVisits(r1[1..], v) == WithVisits(r1, v)[|head|..];
      }
      SortedTiesDetermine(r1[1..], r2[1..]);
      assert r1 == [r1[0]] + r1[1..] && r2 == [r2[0]] + r2[1..];
    }
  }

  /** `Rank` is the only stable descending sort: any sorted sequence that keeps every tie in input
      order is `Rank` of that input. */
  lemma RankIsTheStableSort(s: seq<HistoryEntry>, r: seq<HistoryEntry>)
    requires SortedByVisits(r)
    requires forall v :: WithVisits(r, v) == WithVisits(s, v)
    ensures r == Rank(s)
  {
    forall v ensures WithVisits(r, v) == WithVisits(Rank(s), v) {
      RankIsStable(s, v);
    }
    RankSortsAndPermutes(s);
    SortedTiesDetermine(r, Rank(s));
  }

  lemma {:induction false} InsertKeepsSum(x: HistoryEntry, s: seq<HistoryEntry>)
    ensures SumVisits(Insert(x, s)) == x.totalVisits + SumVisits(s)
  {
    SumVisitsPrepend(x, s);
    if |s| > 0 && x.totalVisits < s[0].totalVisits {
      InsertKeepsSum(x, s[1..]);
      SumVisitsPrepend(s[0], Insert(x, s[1..]));
      SumVisitsPrepend(s[0], s[1..]);
      assert s == [s[0]] + s[1..];
    }
  }

  /** Ranking moves entries around but keeps their total count. */
  lemma {:induction false} RankKeepsSum(s: seq<HistoryEntry>)
    ensures SumVisits(Rank(s)) == SumVisits(s)
  {
    if |s| > 0 {
      RankKeepsSum(s[1..]);
      InsertKeepsSum(s[0], Rank(s[1..]));
      SumVisitsPrepend(s[0], s[1..]);
      assert s == [s[0]] + s[1..];
    }
  }
}

/** Why merging capped sub-queries is as good as one big query. */
module TopK {
  import opened Options
  import opened Sets
  import opened StableSort
  import opened FlightRecorder

  lemma SortNoDuplicates<T>(s: seq<T>, key: T -> real)
    requires NoDuplicates(s)
    ensures NoDuplicates(Sort(s, key))
  {
    hide Sort;
    var t := Sort(s, key);
    SortPermutes(s, key);
    forall i, j | 0 <= i < j < |t| ensures t[i] != t[j] {
      assert t[i] in multiset(t);
      assert t[i] in multiset(s);
      var a :| 0 <= a < |s| && s[a] == t[i];
      CountedOnce(s, a);
      if t[i] == t[j] { RepeatedCount(t, i, j); }
    }
  }

  lemma CountedOnce<T>(s: seq<T>, a: nat)
    requires NoDuplicates(s) && a < |s|
    ensures multiset(s)[s[a]] == 1
  {
    assert s == s[..a] + [s[a]] + s[a + 1..];
  }

  // ---- what the merge contains ----

  lemma NewestSound(rows: seq<Row>, cs: set<Clause>, since: Option<real>, limit: nat)
    ensures forall r :: r in Newest(rows, cs, since, limit) ==> r in rows && Selects(cs, since, r.event)
    ensures |Newest(rows, cs, since, limit)| <= limit
  {
    MatchingMembers(rows, cs, since);
    SortMembers(Matching(rows, cs, since), Age());
  }

  lemma {:induction false} GatheredMembers(rows: seq<Row>, cs: seq<Clause>, since: Option<real>, limit: nat)
    ensures forall r :: r in Gathered(rows, cs, since, limit)
                   <==> exists i :: 0 <= i < |cs| && r in Newest(rows, {cs[i]}, since, limit)
  {
    hide Newest;
    if cs == [] {
    } else {
      var init := cs[..|cs| - 1];
      GatheredMembers(rows, init, since, limit);
      forall r ensures r in Gathered(rows, cs, since, limit)
                  <==> exists i :: 0 <= i < |cs| && r in Newest(rows, {cs[i]}, since, limit) {
        if r in Gathered(rows, init, since, limit) {
          var i :| 0 <= i < |init| && r in Newest(rows, {init[i]}, since, limit);
          assert cs[i] == init[i];
        }
        if i :| 0 <= i < |cs| && r in Newest(rows, {cs[i]}, since, limit) {
          if i < |init| { assert init[i] == cs[i]; }
        }
      }
    }
  }

  lemma SelectsSplit(f: Filter, since: Option<real>, e: Event)
    ensures f.Wants(since, e)
       <==> exists i :: 0 <= i < |f.Clauses()| && Selects({f.Clauses()[i]}, since, e)
  {
    var cs := f.Clauses();
    if f.Wants(since, e) {
      var c :| c in cs && Hits(c, e);
      var i :| 0 <= i < |cs| && cs[i] == c;
      assert Selects({cs[i]}, since, e);
    }
    if i :| 0 <= i < |cs| && Selects({cs[i]}, since, e) {
      assert cs[i] in cs;
    }
  }

  lemma GatheredSound(rows: seq<Row>, f: Filter, since: Option<real>, limit: nat)
    ensures forall r :: r in Gathered(rows, f.Clauses(), since, limit) ==> r in rows && f.Wants(since, r.event)
  {
    var cs := f.Clauses();
    GatheredMembers(rows, cs, since, limit);
    forall r | r in Gathered(rows, cs, since, limit) ensures r in rows && f.Wants(since, r.event) {
      var i :| 0 <= i < |cs| && r in Newest(rows, {cs[i]}, since, limit);
      NewestSound(rows, {cs[i]}, since, limit);
      SelectsSplit(f, since, r.event);
    }
  }

  /** Deduplication by id keeps every row, once, when equal ids mean equal rows. */
  lemma {:induction false} DedupedExact(rows: seq<Row>)
    requires forall a, b :: a in rows && b in rows && a.id == b.id ==> a == b
    ensures UniqueIds(Deduped(rows))
    ensures forall r :: r in Deduped(rows) <==> r in rows
  {
    if rows == [] {
    } else {
      var init, last := rows[..|rows| - 1], rows[|rows| - 1];
      assert rows == init + [last];
      assert forall r :: r in init ==> r in rows;
      DedupedExact(init);
      if last.id in Ids(init) {
        var r :| r in init && r.id == last.id;
        assert r == last;
      } else {
        forall r | r in Deduped(init) ensures r.id != last.id { assert r.id in Ids(init); }
      }
    }
  }

  lemma SameIdSameRow(rows: seq<Row>)
    requires UniqueIds(rows)
    ensures forall a, b :: a in rows && b in rows && a.id == b.id ==> a == b
  {
  }

  ghost function Merged(rows: seq<Row>, f: Filter, since: Option<real>, limit: nat): seq<Row> {
    Deduped(Gathered(rows, f.Clauses(), since, limit))
  }

  lemma MergedFacts(rows: seq<Row>, f: Filter, since: Option<real>, limit: nat)
    requires UniqueIds(rows)
    ensures UniqueIds(Merged(rows, f, since, limit))
    ensures forall r :: r in Merged(rows, f, since, limit) <==> r in Gathered(rows, f.Clauses(), since, limit)
    ensures forall r :: r in Merged(rows, f, since, limit) ==> r in rows && f.Wants(since, r.event)
  {
    GatheredSound(rows, f, since, limit);
    SameIdSameRow(rows);
    DedupedExact(Gathered(rows, f.Clauses(), since, limit));
  }

  /** Everything pulled is a wanted row of the table, no row twice, newest first, at most `limit`. */
  lemma PulledSound(rows: seq<Row>, f: Filter, since: Option<real>, limit: nat)
    requires UniqueIds(rows)
    ensures forall r :: r in Pulled(rows, f, since, limit) ==> r in rows && f.Wants(since, r.event)
    ensures NoDuplicates(Pulled(rows, f, since, limit))
    ensures Ordered(Pulled(rows, f, since, limit), Age())
    ensures |Pulled(rows, f, since, limit)| <= limit
  {
    var m := Merged(rows, f, since, limit);
    MergedFacts(rows, f, since, limit);
    SortMembers(m, Age());
    SortOrdered(m, Age());
    SortNoDuplicates(m, Age());
  }

  lemma ClauseUncapped(rows: seq<Row>, f: Filter, since: Option<real>, limit: nat, i: nat, r: Row)
    requires UniqueIds(rows) && |Pulled(rows, f, since, limit)| < limit
    requires i < |f.Clauses()| && r in rows && Selects({f.Clauses()[i]}, since, r.event)
    ensures r in Newest(rows, {f.Clauses()[i]}, since, limit)
  {
    var cs, m := f.Clauses(), Merged(rows, f, since, limit);
    var q := Newest(rows, {cs[i]}, since, limit);
    var all := Matching(rows, {cs[i]}, since);
    MatchingMembers(rows, {cs[i]}, since);
    MatchingUnique(rows, {cs[i]}, since);
    SortMembers(all, Age());
    SortNoDuplicates(all, Age());
    MergedFacts(rows, f, since, limit);
    GatheredMembers(rows, cs, since, limit);
    assert |m| < limit;
    FitsIn(q, m);
  }

  /** A pull that comes back with fewer than `limit` rows missed nothing. */
  lemma UncappedPullIsComplete(rows: seq<Row>, f: Filter, since: Option<real>, limit: nat)
    requires UniqueIds(rows) && |Pulled(rows, f, since, limit)| < limit
    ensures forall r :: r in Pulled(rows, f, since, limit) <==> r in rows && f.Wants(since, r.event)
  {
    PulledSound(rows, f, since, limit);
    var cs, m := f.Clauses(), Merged(rows, f, since, limit);
    SortMembers(m, Age());
    MergedFacts(rows, f, since, limit);
    GatheredMembers(rows, cs, since, limit);
    forall r | r in rows && f.Wants(since, r.event) ensures r in Pulled(rows, f, since, limit) {
      SelectsSplit(f, since, r.event);
      var i :| 0 <= i < |cs| && Selects({cs[i]}, since, r.event);
      ClauseUncapped(rows, f, since, limit, i, r);
    }
  }

  /** Exactly when a pull misses nothing: when no more than `limit` rows are wanted. */
  lemma PullCoversIff(rows: seq<Row>, f: Filter, since: Option<real>, limit: nat)
    requires UniqueIds(rows)
    ensures (forall r :: r in rows && f.Wants(since, r.event) ==> r in Pulled(rows, f, since, limit))
       <==> |Matching(rows, (set c | c in f.Clauses()), since)| <= limit
  {
    var any := set c | c in f.Clauses();
    var m, d := Matching(rows, any, since), Merged(rows, f, since, limit);
    MatchingMembers(rows, any, since);
    MatchingUnique(rows, any, since);
    PulledSound(rows, f, since, limit);
    if forall r :: r in rows && f.Wants(since, r.event) ==> r in Pulled(rows, f, since, limit) {
      FitsIn(m, Pulled(rows, f, since, limit));
    }
    if |m| <= limit {
      MergedFacts(rows, f, since, limit);
      FitsIn(d, m);
      SortMembers(d, Age());
      forall r | r in m ensures r in d { FewAreAllMerged(rows, f, since, limit, r); }
    }
  }

  lemma FewAreAllMerged(rows: seq<Row>, f: Filter, since: Option<real>, limit: nat, r: Row)
    requires UniqueIds(rows) && |Matching(rows, (set c | c in f.Clauses()), since)| <= limit
    requires r in rows && f.Wants(since, r.event)
    ensures r in Merged(rows, f, since, limit)
  {
    var cs := f.Clauses();
    var any := set c | c in cs;
    SelectsSplit(f, since, r.event);
    var i :| 0 <= i < |cs| && Selects({cs[i]}, since, r.event);
    var one := Matching(rows, {cs[i]}, since);
    MatchingUnique(rows, {cs[i]}, since);
    MatchingUnique(rows, any, since);
    MatchingGrows(rows, {cs[i]}, any, since);
    FitsIn(one, Matching(rows, any, since));
    MatchingMembers(rows, {cs[i]}, since);
    SortMembers(one, Age());
    MergedFacts(rows, f, since, limit);
    GatheredMembers(rows, cs, since, limit);
    assert r in Newest(rows, {cs[i]}, since, limit);
  }

  // ---- the newest `limit` rows of the union ----

  ghost function Above(s: seq<Row>, t: real): set<Row> { set y | y in s && y.Ts() > t }

  /** In a newest-first list, only rows before a position are newer than its row, and they and it are above anything older. */
  lemma AboveIsPosition(s: seq<Row>, i: nat, t: real)
    requires Ordered(s, Age()) && NoDuplicates(s) && i < |s|
    ensures s[i].Ts() <= t ==> |Above(s, t)| <= i
    ensures s[i].Ts() > t ==> |Above(s, t)| > i
  {
    assert forall a, b :: 0 <= a < b < |s| ==> Age()(s[a]) <= Age()(s[b]);
    if s[i].Ts() <= t {
      var before := s[..i];
      MembersSize(before);
      forall y | y in Above(s, t) ensures y in Members(before) {
        var a :| 0 <= a < |s| && s[a] == y;
        assert a < i && before[a] == y;
      }
      SubsetCard(Above(s, t), Members(before));
    } else {
      var upTo := s[..i + 1];
      MembersSize(upTo);
      forall y | y in Members(upTo) ensures y in Above(s, t) {
        var a :| 0 <= a < |upTo| && upTo[a] == y;
        assert s[a] == y;
      }
      SubsetCard(Members(upTo), Above(s, t));
    }
  }

  /** Two newest-first lists show the same times up to `k` when the smaller has as much above every time. */
  lemma SameTimes(u: seq<Row>, d: seq<Row>, k: nat, i: nat)
    requires Ordered(u, Age()) && NoDuplicates(u) && Ordered(d, Age()) && NoDuplicates(d)
    requires forall x :: x in d ==> x in u
    requires forall t :: |Above(u, t)| <= |Above(d, t)| || k <= |Above(d, t)|
    requires i < k && i < |u|
    ensures i < |d| && u[i].Ts() == d[i].Ts()
  {
    var low := u[i].Ts() - 1.0;
    AboveIsPosition(u, i, low);
    assert |Above(d, low)| > i;
    MembersSize(d);
    SubsetCard(Above(d, low), Members(d));
    AboveIsPosition(u, i, u[i].Ts());
    AboveIsPosition(d, i, u[i].Ts());
    SubsetCard(Above(d, u[i].Ts()), Above(u, u[i].Ts()));
    if d[i].Ts() < u[i].Ts() {
      AboveIsPosition(u, i, d[i].Ts());
      AboveIsPosition(d, i, d[i].Ts());
    }
  }

  lemma MatchingGrows(rows: seq<Row>, cs: set<Clause>, ds: set<Clause>, since: Option<real>)
    requires cs <= ds
    ensures forall r :: r in Matching(rows, cs, since) ==> r in Matching(rows, ds, since)
  {
    MatchingMembers(rows, cs, since);
    MatchingMembers(rows, ds, since);
  }

  /** A sub-query that leaves out a row above `t` returns `limit` rows above `t`. */
  lemma LeftOutBelow(rows: seq<Row>, cs: set<Clause>, since: Option<real>, limit: nat, x: Row, t: real)
    requires UniqueIds(rows) && x in Matching(rows, cs, since) && x !in Newest(rows, cs, since, limit) && x.Ts() > t
    ensures |Above(Newest(rows, cs, since, limit), t)| >= limit
  {
    var all := Matching(rows, cs, since);
    var sorted := Sort(all, Age());
    MatchingUnique(rows, cs, since);
    SortMembers(all, Age());
    SortOrdered(all, Age());
    SortNoDuplicates(all, Age());
    var j :| 0 <= j < |sorted| && sorted[j] == x;
    assert forall a :: 0 <= a < |Take(sorted, limit)| ==> Take(sorted, limit)[a] == sorted[a] != x;
    if limit > 0 {
      assert Age()(sorted[limit - 1]) <= Age()(sorted[j]);
      AboveIsPosition(Take(sorted, limit), limit - 1, t);
    }
  }

  lemma MergedHasEnough(rows: seq<Row>, f: Filter, since: Option<real>, limit: nat, t: real)
    requires UniqueIds(rows)
    ensures var u, d := Matching(rows, (set c | c in f.Clauses()), since), Merged(rows, f, since, limit);
      |Above(u, t)| <= |Above(d, t)| || limit <= |Above(d, t)|
  {
    var cs := f.Clauses();
    var u, d := Matching(rows, (set c | c in cs), since), Merged(rows, f, since, limit);
    MergedFacts(rows, f, since, limit);
    GatheredMembers(rows, cs, since, limit);
    if x :| x in Above(u, t) && x !in d {
      MatchingMembers(rows, (set c | c in cs), since);
      SelectsSplit(f, since, x.event);
      var i :| 0 <= i < |cs| && Selects({cs[i]}, since, x.event);
      MatchingMembers(rows, {cs[i]}, since);
      LeftOutBelow(rows, {cs[i]}, since, limit, x, t);
      SubsetCard(Above(Newest(rows, {cs[i]}, since, limit), t), Above(d, t));
    } else {
      SubsetCard(Above(u, t), Above(d, t));
    }
  }

  /** Sorting what was found and what was merged gives lists with the same times up to the limit. */
  lemma SortedShowSameTimes(rows: seq<Row>, f: Filter, since: Option<real>, limit: nat, i: nat)
    requires UniqueIds(rows) && i < limit
    ensures var u := Sort(Matching(rows, (set c | c in f.Clauses()), since), Age());
            var d := Sort(Merged(rows, f, since, limit), Age());
      |d| <= |u| && (i < |u| ==> i < |d| && u[i].Ts() == d[i].Ts())
  {
    hide Merged, Sort, Newest;
    var any := set c | c in f.Clauses();
    var m, n := Matching(rows, any, since), Merged(rows, f, since, limit);
    var u, d := Sort(m, Age()), Sort(n, Age());
    MatchingMembers(rows, any, since);
    MatchingUnique(rows, any, since);
    MergedFacts(rows, f, since, limit);
    SortMembers(m, Age());
    SortMembers(n, Age());
    SortOrdered(m, Age());
    SortOrdered(n, Age());
    SortNoDuplicates(m, Age());
    SortNoDuplicates(n, Age());
    FitsIn(d, u);
    forall t ensures |Above(u, t)| <= |Above(d, t)| || limit <= |Above(d, t)| {
      MergedHasEnough(rows, f, since, limit, t);
      assert Above(u, t) == Above(m, t) && Above(d, t) == Above(n, t);
    }
    if i < |u| { SameTimes(u, d, limit, i); }
  }

  /** The distributed top-k: merging the newest `limit` rows of each sub-query shows the same timestamps, position by
      position, as the newest `limit` rows of their union. */
  lemma PullShowsTopTimes(rows: seq<Row>, f: Filter, since: Option<real>, limit: nat)
    requires UniqueIds(rows)
    ensures var pulled, top := Pulled(rows, f, since, limit), Newest(rows, (set c | c in f.Clauses()), since, limit);
      |pulled| == |top| && forall i :: 0 <= i < |top| ==> pulled[i].Ts() == top[i].Ts()
  {
    hide Matching, Deduped, Gathered, Sort;
    var u, d := Sort(Matching(rows, (set c | c in f.Clauses()), since), Age()), Sort(Merged(rows, f, since, limit), Age());
    forall i | 0 <= i < limit ensures |d| <= |u| && (i < |u| ==> i < |d| && u[i].Ts() == d[i].Ts()) {
      SortedShowSameTimes(rows, f, since, limit, i);
    }
    if limit > 0 {
      SortedShowSameTimes(rows, f, since, limit, 0);
      if |u| > 0 { SortedShowSameTimes(rows, f, since, limit, (if |u| < limit then |u| else limit) - 1); }
    }
  }

  /** Without equal timestamps it is exactly those rows. */
  lemma PullIsTopOfUnion(rows: seq<Row>, f: Filter, since: Option<real>, limit: nat)
    requires UniqueIds(rows) && DistinctKeys(rows, Age())
    ensures Pulled(rows, f, since, limit) == Newest(rows, (set c | c in f.Clauses()), since, limit)
  {
    var any := set c | c in f.Clauses();
    var pulled, top := Pulled(rows, f, since, limit), Newest(rows, any, since, limit);
    PullShowsTopTimes(rows, f, since, limit);
    PulledSound(rows, f, since, limit);
    NewestSound(rows, any, since, limit);
    forall i | 0 <= i < |top| ensures pulled[i] == top[i] {
      assert pulled[i] in pulled && top[i] in top;
      OneRowPerTime(rows, pulled[i], top[i]);
    }
  }

  lemma OneRowPerTime(rows: seq<Row>, x: Row, y: Row)
    requires DistinctKeys(rows, Age()) && x in rows && y in rows && x.Ts() == y.Ts()
    ensures x == y
  {
    var a :| 0 <= a < |rows| && rows[a] == x;
    var b :| 0 <= b < |rows| && rows[b] == y;
    assert Age()(rows[a]) == Age()(rows[b]);
  }
}

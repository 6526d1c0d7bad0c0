/** One surveillance pull on the agent: anchors to descendants, then the recorder's queries. */
module SurveillancePull {
  import opened DescendantBfs
  import opened FlightRecorder
  import opened Options
  import opened TopK

  /** Returns the newest rows for the PIDs that the anchors resolve to, and for the addresses and users. */
  method PullFromFlightRecorder(rows: seq<Row>, anchors: seq<int>, ips: seq<string>, users: seq<string>,
                                since: Option<real>, limit: nat, built: bool, children: Children<int>)
    returns (records: seq<Row>, resolved: set<int>)
    ensures var asked := Filter((set p | p in anchors), ips, users);
      Resolution(asked, resolved) && records == Pulled(rows, asked.(pids := resolved), since, limit)
    ensures resolved <= Reach(children, (set p | p in anchors), MAX_DEPTH)
    ensures built && anchors != [] && |resolved| < MAX_TOTAL ==> resolved == Reach(children, (set p | p in anchors), MAX_DEPTH)
  {
    resolved := {};
    if anchors != [] {
      resolved := ResolveDescendantPids(anchors, built, children);
      assert anchors[0] in resolved;
    }
    NothingReached(children, anchors, resolved);
    records := MergeQueries(rows, Filter(resolved, ips, users), since, limit);
  }

  lemma NothingReached(children: Children<int>, anchors: seq<int>, resolved: set<int>)
    requires resolved == {} || resolved == (set p | p in anchors) || resolved <= Reach(children, (set p | p in anchors), MAX_DEPTH)
    ensures resolved <= Reach(children, (set p | p in anchors), MAX_DEPTH)
  {
    ReachGrows(children, (set p | p in anchors), 0, MAX_DEPTH);
  }

  /** While no cap is met, a pull returns every row of every process within ten steps of an anchor. */
  lemma PullReachesDescendants(rows: seq<Row>, asked: Filter, children: Children<int>, since: Option<real>, limit: nat,
                               resolved: set<int>, r: Row)
    requires UniqueIds(rows) && asked.pids != {} && resolved == Reach(children, asked.pids, MAX_DEPTH)
    requires |Pulled(rows, asked.(pids := resolved), since, limit)| < limit
    requires r in rows && AtOrAfter(since, r.event) && !Squelched(r.event)
    requires r.event.pid.Some? && r.event.pid.value in Reach(children, asked.pids, MAX_DEPTH)
    ensures r in Pulled(rows, asked.(pids := resolved), since, limit)
  {
    var f := asked.(pids := resolved);
    UncappedPullIsComplete(rows, f, since, limit);
    assert f.Clauses()[0] == ByPids(resolved);
    assert Hits(ByPids(resolved), r.event) && ByPids(resolved) in f.Clauses();
  }
}

/** The background worker that moves incidents from detected to closed. */
module Orchestrator {
  import opened Options
  import opened FlightRecorder
  import opened FleetModel
  import opened FleetServer

  /** What the orchestrator asks the host graph: a host's addresses and a finding's port. */
  datatype Hosts = Hosts(ips: map<AgentId, seq<string>>, ports: map<FindingId, int>) {
    function SrcIps(inc: Incident): seq<string> { if inc.src in ips then ips[inc.src] else [] }
  }

  /** A row of `get_incidents_by_status`: an incident as it was when the rows were read, once per finding. */
  datatype VisitRow = VisitRow(inc: nat, finding: Option<FindingId>, snap: Incident) {
    function Port(h: Hosts): Option<int> {
      if snap.port.Some? then snap.port
      else if finding.Some? && finding.value in h.ports then Some(h.ports[finding.value])
      else None
    }
  }

  function RowsOf(inc: nat, snap: Incident, n: nat): seq<VisitRow>
    requires n <= |snap.findings|
  {
    if n == 0 then [] else RowsOf(inc, snap, n - 1) + [VisitRow(inc, Some(snap.findings[n - 1]), snap)]
  }

  function IncidentRows(incs: seq<Incident>, status: Status): seq<VisitRow> {
    if incs == [] then []
    else
      var k := |incs| - 1;
      IncidentRows(incs[..k], status)
        + if incs[k].status != status then []
          else if incs[k].findings == [] then [VisitRow(k, None, incs[k])]
          else RowsOf(k, incs[k], |incs[k].findings|)
  }

  /** Exactly the incidents with the status have a row, and each row shows its incident. */
  lemma {:induction false} IncidentRowsExact(incs: seq<Incident>, status: Status)
    ensures forall r :: r in IncidentRows(incs, status) ==> r.inc < |incs| && r.snap == incs[r.inc] && r.snap.status == status
    ensures forall i :: 0 <= i < |incs| && incs[i].status == status ==> exists r :: r in IncidentRows(incs, status) && r.inc == i
  {
    if incs == [] {
    } else {
      var k := |incs| - 1;
      var init := incs[..k];
      IncidentRowsExact(init, status);
      var rows := IncidentRows(incs, status);
      assert forall r :: r in IncidentRows(init, status) ==> r in rows;
      RowsOfExact(k, incs[k], |incs[k].findings|);
      forall i | 0 <= i < |incs| && incs[i].status == status ensures exists r :: r in rows && r.inc == i {
        if i < k {
          assert init[i].status == status;
        } else if incs[k].findings == [] {
          assert VisitRow(k, None, incs[k]) in rows;
        } else {
          var r := RowsOf(k, incs[k], |incs[k].findings|)[0];
          assert r in rows;
        }
      }
    }
  }

  lemma {:induction false} RowsOfExact(inc: nat, snap: Incident, n: nat)
    requires n <= |snap.findings|
    ensures |RowsOf(inc, snap, n)| == n
    ensures forall r :: r in RowsOf(inc, snap, n) ==> r.inc == inc && r.snap == snap
  {
    if n == 0 {
    } else {
      RowsOfExact(inc, snap, n - 1);
    }
  }

  ghost predicate RowsIn(rows: seq<VisitRow>, s: Server) {
    forall r :: r in rows ==> r.inc < |s.incidents|
  }

  function DetectedRun(s: Server, rows: seq<VisitRow>, h: Hosts, now: real): (r: Server)
    requires RowsIn(rows, s)
    ensures |r.incidents| == |s.incidents|
  {
    if rows == [] then s
    else
      var last := rows[|rows| - 1];
      var t := DetectedRun(s, rows[..|rows| - 1], h, now);
      DetectedVisit(t, last.inc, h.SrcIps(t.incidents[last.inc]), last.Port(h), now)
  }

  function SweepingRun(s: Server, rows: seq<VisitRow>, now: real): (r: Server)
    requires RowsIn(rows, s)
    ensures |r.incidents| == |s.incidents|
  {
    if rows == [] then s
    else SweepingVisit(SweepingRun(s, rows[..|rows| - 1], now), rows[|rows| - 1].inc, now)
  }

  /** `g(n)` is what the graph says at the n-th visit. */
  function ActiveRun(s: Server, rows: seq<VisitRow>, g: nat -> Chains, now: real): (r: Server)
    requires RowsIn(rows, s)
    ensures |r.incidents| == |s.incidents|
  {
    if rows == [] then s
    else
      var n := |rows| - 1;
      ActiveVisit(ActiveRun(s, rows[..n], g, now), rows[n].inc, rows[n].snap.updatedAt, g(n), now)
  }

  class XdrOrchestrator {
    const neo: IncidentStore
    const db: SettingsDb

    constructor (neo: IncidentStore, db: SettingsDb)
      ensures this.neo == neo && this.db == db
    {
      this.neo, this.db := neo, db;
    }

    ghost function State(): Server
      reads neo, db
    {
      Server(neo.incidents, db.queries, db.logs, db.pulls)
    }

    method GetIncidentsByStatus(status: Status) returns (rows: seq<VisitRow>)
      ensures rows == IncidentRows(neo.incidents, status)
    {
      rows := IncidentRows(neo.incidents, status);
    }

    method VisitDetected(row: VisitRow, h: Hosts, now: real)
      requires row.inc < |neo.incidents|
      modifies neo, db
      ensures State() == DetectedVisit(old(State()), row.inc, h.SrcIps(old(neo.incidents)[row.inc]), row.Port(h), now)
    {
      var inc := neo.incidents[row.inc];
      var srcIps, port := h.SrcIps(inc), row.Port(h);
      db.EnqueueXdrQuery(inc.dst, Victim(row.inc), VictimTrace, Trace(srcIps, port), now);
      db.EnqueueXdrQuery(inc.src, Source(row.inc), SourceTrace, Trace([inc.pivot], port), now);
      db.EnqueueXdrQuery(inc.dst, OcsfDst(row.inc), PullOcsf, Pull(Filter({}, srcIps, []), None, OCSF_LIMIT), now);
      db.EnqueueXdrQuery(inc.src, OcsfSrc(row.inc), PullOcsf, Pull(Filter({}, Addresses(inc.pivot), []), None, OCSF_LIMIT), now);
      neo.UpdateIncidentStatus(row.inc, Sweeping, now);
    }

    method ProcessDetected(h: Hosts, now: real)
      modifies neo, db
      ensures RowsIn(IncidentRows(old(neo.incidents), Detected), old(State()))
      ensures State() == DetectedRun(old(State()), IncidentRows(old(neo.incidents), Detected), h, now)
    {
      hide DetectedVisit, IncidentRows;
      var rows := GetIncidentsByStatus(Detected);
      IncidentRowsExact(neo.incidents, Detected);
      var n := 0;
      while n < |rows|
        invariant 0 <= n <= |rows| && RowsIn(rows, old(State())) && RowsIn(rows[..n], old(State()))
        invariant State() == DetectedRun(old(State()), rows[..n], h, now)
      {
        assert rows[n] in rows && rows[..n + 1][..n] == rows[..n];
        VisitDetected(rows[n], h, now);
        n := n + 1;
      }
      assert rows[..n] == rows;
    }

    method ProcessSweeping(now: real)
      modifies neo
      ensures RowsIn(IncidentRows(old(neo.incidents), Sweeping), old(State()))
      ensures State() == SweepingRun(old(State()), IncidentRows(old(neo.incidents), Sweeping), now)
    {
      hide LatestResult, IncidentRows;
      var rows := GetIncidentsByStatus(Sweeping);
      IncidentRowsExact(neo.incidents, Sweeping);
      var n := 0;
      while n < |rows|
        invariant 0 <= n <= |rows| && RowsIn(rows, old(State())) && RowsIn(rows[..n], old(State()))
        invariant State() == SweepingRun(old(State()), rows[..n], now)
        invariant forall i :: 0 <= i < |neo.incidents| ==> neo.incidents[i].createdAt == old(neo.incidents)[i].createdAt
      {
        assert rows[n] in rows && rows[..n + 1][..n] == rows[..n];
        var i := rows[n].inc;
        var timedOut := now - rows[n].snap.createdAt as real > QUERY_TIMEOUT;
        var victim := LatestResult(db.queries, Victim(i), VictimTrace);
        var source := LatestResult(db.queries, Source(i), SourceTrace);
        if (victim.Some? && source.Some?) || timedOut {
          neo.UpdateIncidentStatus(i, Active, now);
        }
        n := n + 1;
      }
      assert rows[..n] == rows;
    }

    /** Reads the pull state of both sides first, then enqueues for each side that is due. */
    method VisitActive(row: VisitRow, c: Chains, now: real)
      requires row.inc < |neo.incidents|
      modifies neo, db
      ensures State() == ActiveVisit(old(State()), row.inc, row.snap.updatedAt, c, now)
    {
      if now - row.snap.updatedAt as real > AUTO_CLOSE {
        neo.UpdateIncidentStatus(row.inc, Closed, now);
        return;
      }
      var i, inc := row.inc, neo.incidents[row.inc];
      var dstState := PullStateOf(db.pulls, PullKey(i, Dst));
      var srcState := PullStateOf(db.pulls, PullKey(i, Src));
      if inc.dst != "" && now.Floor - dstState.lastEnqueueAt >= PULL_INTERVAL {
        EnqueueSide(i, Dst, c, dstState, now);
      }
      if inc.src != "" && now.Floor - srcState.lastEnqueueAt >= PULL_INTERVAL {
        EnqueueSide(i, Src, c, srcState, now);
      }
    }

    method EnqueueSide(i: nat, side: Side, c: Chains, state: PullState, now: real)
      requires i < |neo.incidents| && state == PullStateOf(db.pulls, PullKey(i, side))
      modifies db
      ensures State() == if HasPending(old(db.queries), Surv(i, side), PullSurveillance) || neo.incidents[i].Watched(side, c).Empty()
                         then old(State()) else EnqueuePull(old(State()), i, side, c, now)
    {
      var inc := neo.incidents[i];
      var watched := inc.Watched(side, c);
      if HasPending(db.queries, Surv(i, side), PullSurveillance) || watched.Empty() {
        return;
      }
      var since := if state.lastRecordTs > 0.0 then Some(state.lastRecordTs) else None;
      db.EnqueueXdrQuery(inc.Agent(side), Surv(i, side), PullSurveillance, Pull(watched, since, PULL_LIMIT), now);
      db.SetSurveillancePullState(PullKey(i, side), Some(now.Floor), None);
    }

    method ProcessActive(g: nat -> Chains, now: real)
      modifies neo, db
      ensures RowsIn(IncidentRows(old(neo.incidents), Active), old(State()))
      ensures State() == ActiveRun(old(State()), IncidentRows(old(neo.incidents), Active), g, now)
    {
      var rows := GetIncidentsByStatus(Active);
      IncidentRowsExact(neo.incidents, Active);
      var n := 0;
      while n < |rows|
        invariant 0 <= n <= |rows| && RowsIn(rows, old(State())) && RowsIn(rows[..n], old(State()))
        invariant State() == ActiveRun(old(State()), rows[..n], g, now)
      {
        assert rows[n] in rows && rows[..n + 1][..n] == rows[..n];
        VisitActive(rows[n], g(n), now);
        n := n + 1;
      }
      assert rows[..n] == rows;
    }

    /** One turn of the worker's loop, when no handler raises. */
    method RunOnce(h: Hosts, g: nat -> Chains, t1: real, t2: real, t3: real)
      requires t1 <= t2 <= t3
      modifies neo, db
      ensures Settled(State(), t2, t3)
    {
      ghost var s0 := State();
      ProcessDetected(h, t1);
      ghost var s1 := State();
      DetectedRunSettles(s0, IncidentRows(s0.incidents, Detected), h, t1);
      NoneLeftDetected(s0, h, t1);
      ProcessSweeping(t2);
      ghost var s2 := State();
      SweepingSettled(s1, t2);
      ProcessActive(g, t3);
      ActiveSettled(s2, g, t2, t3);
    }
  }

  /** What a full turn leaves behind. */
  ghost predicate Settled(s: Server, t2: real, t3: real) {
    && SweepSettled(s, t2)
    && forall i :: 0 <= i < |s.incidents| && s.incidents[i].status == Active ==>
         t3 - s.incidents[i].updatedAt as real <= AUTO_CLOSE
  }

  ghost predicate SweepSettled(s: Server, t2: real) {
    forall i :: 0 <= i < |s.incidents| ==>
      && s.incidents[i].status != Detected
      && (s.incidents[i].status == Sweeping ==>
            t2 - s.incidents[i].createdAt as real <= QUERY_TIMEOUT && !TracesDone(s.queries, i))
  }

  ghost predicate Visits(rows: seq<VisitRow>, i: nat) {
    exists r :: r in rows && r.inc == i
  }

  lemma VisitsStep(rows: seq<VisitRow>, i: nat)
    requires rows != []
    ensures Visits(rows, i) <==> Visits(rows[..|rows| - 1], i) || rows[|rows| - 1].inc == i
  {
    assert rows == rows[..|rows| - 1] + [rows[|rows| - 1]];
    if Visits(rows[..|rows| - 1], i) {
      var r :| r in rows[..|rows| - 1] && r.inc == i;
      assert r in rows;
    }
    assert rows[|rows| - 1] in rows;
  }

  lemma {:induction false} DetectedRunSettles(s: Server, rows: seq<VisitRow>, h: Hosts, now: real)
    requires RowsIn(rows, s)
    ensures var t := DetectedRun(s, rows, h, now);
            forall i :: 0 <= i < |s.incidents| ==>
              t.incidents[i].status == if Visits(rows, i) then Sweeping else s.incidents[i].status
  {
    if rows == [] {
    } else {
      DetectedRunSettles(s, rows[..|rows| - 1], h, now);
      forall i | 0 <= i < |s.incidents| ensures Visits(rows, i) <==> Visits(rows[..|rows| - 1], i) || rows[|rows| - 1].inc == i {
        VisitsStep(rows, i);
      }
    }
  }

  ghost predicate NoneDetected(s: Server) { forall i :: 0 <= i < |s.incidents| ==> s.incidents[i].status != Detected }

  lemma NoneLeftDetected(s: Server, h: Hosts, now: real)
    requires RowsIn(IncidentRows(s.incidents, Detected), s)
    ensures NoneDetected(DetectedRun(s, IncidentRows(s.incidents, Detected), h, now))
  {
    var rows := IncidentRows(s.incidents, Detected);
    DetectedRunSettles(s, rows, h, now);
    IncidentRowsExact(s.incidents, Detected);
    forall i | 0 <= i < |s.incidents| && s.incidents[i].status == Detected ensures Visits(rows, i) {
      var r :| r in rows && r.inc == i;
    }
  }

  lemma {:induction false} SweepingRunSettles(s: Server, rows: seq<VisitRow>, now: real)
    requires RowsIn(rows, s)
    ensures var t := SweepingRun(s, rows, now);
            && t.queries == s.queries
            && forall i :: 0 <= i < |s.incidents| ==>
                 && t.incidents[i].createdAt == s.incidents[i].createdAt
                 && t.incidents[i].status ==
                      if Visits(rows, i) && (TracesDone(s.queries, i) || now - s.incidents[i].createdAt as real > QUERY_TIMEOUT)
                      then Active else s.incidents[i].status
  {
    if rows == [] {
    } else {
      SweepingRunSettles(s, rows[..|rows| - 1], now);
      forall i | 0 <= i < |s.incidents| ensures Visits(rows, i) <==> Visits(rows[..|rows| - 1], i) || rows[|rows| - 1].inc == i {
        VisitsStep(rows, i);
      }
    }
  }

  lemma SweepingSettled(s: Server, t2: real)
    requires RowsIn(IncidentRows(s.incidents, Sweeping), s)
    requires NoneDetected(s)
    ensures SweepSettled(SweepingRun(s, IncidentRows(s.incidents, Sweeping), t2), t2)
  {
    var rows := IncidentRows(s.incidents, Sweeping);
    SweepingRunSettles(s, rows, t2);
    IncidentRowsExact(s.incidents, Sweeping);
    forall i | 0 <= i < |s.incidents| && s.incidents[i].status == Sweeping ensures Visits(rows, i) {
      var r :| r in rows && r.inc == i;
    }
  }

  /** A new surveillance pull is not the answer to any trace. */
  lemma PullKeepsTraces(qs: seq<Query>, q: Query, key: Key, kind: Kind)
    requires q.kind == PullSurveillance && kind != PullSurveillance
    ensures LatestResult(qs + [q], key, kind) == LatestResult(qs, key, kind)
  {
    assert (qs + [q])[..|qs|] == qs;
  }

  lemma PullSideKeepsTraces(s: Server, i: nat, side: Side, c: Chains, now: real, key: Key, kind: Kind)
    requires i < |s.incidents| && kind != PullSurveillance
    ensures LatestResult(PullSide(s, i, side, c, now).queries, key, kind) == LatestResult(s.queries, key, kind)
    ensures PullSide(s, i, side, c, now).incidents == s.incidents
  {
    if WantsPull(s, i, side, c, now) {
      var q := EnqueuePull(s, i, side, c, now).queries[|s.queries|];
      PullKeepsTraces(s.queries, q, key, kind);
    }
  }

  lemma ActiveVisitKeepsTraces(s: Server, i: nat, updatedAt: int, c: Chains, now: real, key: Key, kind: Kind)
    requires i < |s.incidents| && kind != PullSurveillance
    ensures LatestResult(ActiveVisit(s, i, updatedAt, c, now).queries, key, kind) == LatestResult(s.queries, key, kind)
    ensures ActiveVisit(s, i, updatedAt, c, now).incidents
         == if now - updatedAt as real > AUTO_CLOSE then SetStatus(s, i, Closed, now).incidents else s.incidents
  {
    PullSideKeepsTraces(s, i, Dst, c, now, key, kind);
    PullSideKeepsTraces(PullSide(s, i, Dst, c, now), i, Src, c, now, key, kind);
  }

  lemma {:induction false} ActiveRunTraces(s: Server, rows: seq<VisitRow>, g: nat -> Chains, now: real, key: Key, kind: Kind)
    requires RowsIn(rows, s) && kind != PullSurveillance
    ensures LatestResult(ActiveRun(s, rows, g, now).queries, key, kind) == LatestResult(s.queries, key, kind)
  {
    hide ActiveVisit, LatestResult;
    if rows == [] {
    } else {
      var init, last := rows[..|rows| - 1], rows[|rows| - 1];
      ActiveRunTraces(s, init, g, now, key, kind);
      ActiveVisitKeepsTraces(ActiveRun(s, init, g, now), last.inc, last.snap.updatedAt, g(|init|), now, key, kind);
    }
  }

  ghost predicate Stale(inc: Incident, now: real) {
    now - inc.updatedAt as real > AUTO_CLOSE
  }

  lemma {:induction false} ActiveRunSettles(s: Server, rows: seq<VisitRow>, g: nat -> Chains, now: real)
    requires RowsIn(rows, s)
    requires forall r :: r in rows ==> r.snap == s.incidents[r.inc]
    ensures var t := ActiveRun(s, rows, g, now);
            forall i :: 0 <= i < |s.incidents| ==>
              if Visits(rows, i) && Stale(s.incidents[i], now) then t.incidents[i] == WithStatus(s.incidents[i], Closed, now)
              else t.incidents[i] == s.incidents[i]
  {
    if rows == [] {
    } else {
      var init, last := rows[..|rows| - 1], rows[|rows| - 1];
      ActiveRunSettles(s, init, g, now);
      ActiveVisitKeepsTraces(ActiveRun(s, init, g, now), last.inc, last.snap.updatedAt, g(|init|), now, Victim(0), VictimTrace);
      forall i | 0 <= i < |s.incidents| ensures Visits(rows, i) <==> Visits(init, i) || last.inc == i {
        VisitsStep(rows, i);
      }
    }
  }

  lemma ActiveSettled(s: Server, g: nat -> Chains, t2: real, t3: real)
    requires SweepSettled(s, t2) && RowsIn(IncidentRows(s.incidents, Active), s)
    ensures Settled(ActiveRun(s, IncidentRows(s.incidents, Active), g, t3), t2, t3)
  {
    var rows := IncidentRows(s.incidents, Active);
    IncidentRowsExact(s.incidents, Active);
    ActiveRunSettles(s, rows, g, t3);
    forall i | 0 <= i < |s.incidents| ensures TracesDone(ActiveRun(s, rows, g, t3).queries, i) <==> TracesDone(s.queries, i) {
      ActiveRunTraces(s, rows, g, t3, Victim(i), VictimTrace);
      ActiveRunTraces(s, rows, g, t3, Source(i), SourceTrace);
    }
    forall i | 0 <= i < |s.incidents| && s.incidents[i].status == Active ensures Visits(rows, i) {
      var r :| r in rows && r.inc == i;
    }
  }
}

/** The orchestrator's loops as runs of the step system: undisturbed, no visit of a batch moves a status back. */
module FleetBatches {
  import opened FleetModel
  import opened FleetProtocol
  import opened FleetHistory
  import opened FleetIncidents
  import opened Orchestrator

  /** A sweeping visit that finds its incident neither sweeping nor activated by the batch itself. */
  ghost predicate Strays(w: World, a: Action)
    requires Enabled(w, a)
  {
    a.VisitSweeping? && StatusAt(w.server, a.inc) !in {Sweeping, Active}
  }

  /** A visit that finds its incident no further than the batch itself may have moved it. */
  ghost predicate Orderly(w: World, a: Action) {
    Enabled(w, a) && !Backward(w, a) && !Strays(w, a)
  }

  /** Where every sweep has its traces, an orderly action skips none. */
  lemma OrderlySkipsNothing(w: World, a: Action)
    requires Orderly(w, a) && AllTraced(w.server)
    ensures !Skips(w, a)
  {
    hide HasTraces;
    if a.VisitSweeping? { assert Traced(w.server, a.inc); }
  }

  ghost predicate OrderlyRun(ws: seq<World>, acts: seq<Action>) {
    Run(ws, acts) && forall k :: 0 <= k < |acts| ==> Orderly(ws[k], acts[k])
  }

  lemma Extend(ws: seq<World>, acts: seq<Action>, a: Action) returns (longer: seq<World>)
    requires OrderlyRun(ws, acts) && Orderly(ws[|acts|], a)
    ensures longer == ws + [After(ws[|acts|], a)] && OrderlyRun(longer, acts + [a])
  {
    hide After, Enabled, Backward, Strays;
    longer := ws + [After(ws[|acts|], a)];
  }

  lemma Join(ws: seq<World>, acts: seq<Action>, vs: seq<World>, more: seq<Action>) returns (us: seq<World>, all: seq<Action>)
    requires OrderlyRun(ws, acts) && OrderlyRun(vs, more) && ws[|acts|] == vs[0]
    ensures OrderlyRun(us, all) && us[0] == ws[0] && us[|all|] == vs[|more|]
  {
    hide After, Enabled, Backward, Strays;
    us, all := ws + vs[1..], acts + more;
    forall k | 0 <= k < |all| ensures Orderly(us[k], all[k]) && us[k + 1] == After(us[k], all[k]) {
      if k < |acts| {
        assert us[k] == ws[k] && us[k + 1] == ws[k + 1] && all[k] == acts[k];
      } else {
        var n := k - |acts|;
        assert us[k] == vs[n] && us[k + 1] == vs[n + 1] && all[k] == more[n];
      }
    }
  }

  /** What a batch of visits does to the world: a run of `visits` actions from `w` to the server state `t`. */
  ghost predicate BatchRun(w: World, t: Server, visits: nat, ws: seq<World>, acts: seq<Action>) {
    OrderlyRun(ws, acts) && |acts| == visits && |ws| == visits + 1 && ws[0] == w && ws[visits].server == t && ws[visits].clock == w.clock
  }

  lemma NoVisits(w: World)
    ensures BatchRun(w, w.server, 0, [w], [])
  {
  }

  lemma BatchStep(w: World, s: Server, t: Server, n: nat, ws: seq<World>, acts: seq<Action>, a: Action) returns (longer: seq<World>)
    requires BatchRun(w, s, n, ws, acts) && Orderly(ws[n], a) && !a.Tick? && ServerAfter(ws[n], a) == t
    ensures BatchRun(w, t, n + 1, longer, acts + [a])
  {
    hide Enabled, Backward, Strays, ServerAfter;
    longer := Extend(ws, acts, a);
  }

  lemma StillDetected(s: Server, init: seq<VisitRow>, last: VisitRow, h: Hosts, now: real)
    requires RowsIn(init, s) && last.inc < |s.incidents| && StatusAt(s, last.inc) == Detected
    ensures var t := DetectedRun(s, init, h, now);
      last.inc < |t.incidents| && StatusAt(t, last.inc) in {Detected, Sweeping}
  {
    hide DetectedRun;
    DetectedRunSettles(s, init, h, now);
  }

  /** Where every row shows a detected incident, the detected loop is a run of visits that each find their incident
      detected, or sweeping since an earlier visit of the batch. */
  lemma {:induction false} DetectedBatch(w: World, rows: seq<VisitRow>, h: Hosts) returns (ws: seq<World>, acts: seq<Action>)
    requires RowsIn(rows, w.server) && forall r :: r in rows ==> StatusAt(w.server, r.inc) == Detected
    ensures BatchRun(w, DetectedRun(w.server, rows, h, w.clock), |rows|, ws, acts)
    ensures forall k :: 0 <= k < |rows| ==> acts[k].VisitDetected? && acts[k].inc == rows[k].inc && acts[k].port == rows[k].Port(h)
    decreases |rows|
  {
    hide DetectedVisit, Orderly, OrderlyRun;
    if rows == [] {
      ws, acts := [w], [];
      NoVisits(w);
    } else {
      var n := |rows| - 1;
      var init, last := rows[..n], rows[n];
      assert rows == init + [last] && last in rows;
      ws, acts := DetectedBatch(w, init, h);
      StillDetected(w.server, init, last, h, w.clock);
      var s := ws[n].server;
      var a := VisitDetected(last.inc, h.SrcIps(s.incidents[last.inc]), last.Port(h));
      OrderlyVisit(ws[n], a);
      ws := BatchStep(w, s, DetectedRun(w.server, rows, h, w.clock), n, ws, acts, a);
      acts := acts + [a];
    }
  }

  lemma OrderlyVisit(w: World, a: Action)
    requires Enabled(w, a) && (a.VisitDetected? || a.VisitSweeping? || a.VisitActive?)
    requires a.VisitDetected? ==> StatusAt(w.server, a.inc) in {Detected, Sweeping}
    requires a.VisitSweeping? ==> StatusAt(w.server, a.inc) in {Sweeping, Active}
    ensures Orderly(w, a)
  {
  }

  /** The sweeping loop is a run of visits that each find their incident sweeping or active. */
  lemma {:induction false} SweepingBatch(w: World, rows: seq<VisitRow>) returns (ws: seq<World>, acts: seq<Action>)
    requires RowsIn(rows, w.server) && forall r :: r in rows ==> StatusAt(w.server, r.inc) == Sweeping
    ensures BatchRun(w, SweepingRun(w.server, rows, w.clock), |rows|, ws, acts)
    ensures forall k :: 0 <= k < |rows| ==> acts[k] == VisitSweeping(rows[k].inc)
    decreases |rows|
  {
    hide SweepingVisit, Orderly, OrderlyRun;
    if rows == [] {
      ws, acts := [w], [];
      NoVisits(w);
    } else {
      var n := |rows| - 1;
      var init, last := rows[..n], rows[n];
      assert rows == init + [last];
      ws, acts := SweepingBatch(w, init);
      SweepingRunSettles(w.server, init, w.clock);
      var s := ws[n].server;
      assert last in rows;
      OrderlyVisit(ws[n], VisitSweeping(last.inc));
      ws := BatchStep(w, s, SweepingRun(w.server, rows, w.clock), n, ws, acts, VisitSweeping(last.inc));
      acts := acts + [VisitSweeping(last.inc)];
    }
  }

  /** The active loop is a run of visits. */
  lemma {:induction false} ActiveBatch(w: World, rows: seq<VisitRow>, g: nat -> Chains) returns (ws: seq<World>, acts: seq<Action>)
    requires RowsIn(rows, w.server)
    ensures BatchRun(w, ActiveRun(w.server, rows, g, w.clock), |rows|, ws, acts)
    ensures forall k :: 0 <= k < |rows| ==> acts[k] == VisitActive(rows[k].inc, rows[k].snap.updatedAt, g(k))
    decreases |rows|
  {
    hide ActiveVisit, Orderly, OrderlyRun, ActiveRun;
    if rows == [] {
      ws, acts := [w], [];
      NoVisits(w);
      NoActiveVisits(w.server, g, w.clock);
    } else {
      var n := |rows| - 1;
      var init, last := rows[..n], rows[n];
      assert rows == init + [last];
      ws, acts := ActiveBatch(w, init, g);
      var a := VisitActive(last.inc, last.snap.updatedAt, g(n));
      assert last in rows;
      ActiveStep(w.server, rows, g, w.clock);
      OrderlyVisit(ws[n], a);
      ws := BatchStep(w, ws[n].server, ActiveRun(w.server, rows, g, w.clock), n, ws, acts, a);
      acts := acts + [a];
    }
  }

  lemma NoActiveVisits(s: Server, g: nat -> Chains, now: real)
    ensures ActiveRun(s, [], g, now) == s
  {
  }

  lemma ActiveStep(s: Server, rows: seq<VisitRow>, g: nat -> Chains, now: real)
    requires RowsIn(rows, s) && rows != []
    ensures var n := |rows| - 1;
      && RowsIn(rows[..n], s) && rows[n].inc < |ActiveRun(s, rows[..n], g, now).incidents|
      && ActiveRun(s, rows, g, now)
         == ActiveVisit(ActiveRun(s, rows[..n], g, now), rows[n].inc, rows[n].snap.updatedAt, g(n), now)
  {
    hide ActiveVisit;
    assert rows[|rows| - 1] in rows;
  }

  lemma TickRun(w: World, now: real) returns (ws: seq<World>, acts: seq<Action>)
    requires now >= w.clock
    ensures OrderlyRun(ws, acts) && acts == [Tick(now)] && ws[0] == w
    ensures ws[1].server == w.server && ws[1].clock == now
  {
    ws, acts := [w, After(w, Tick(now))], [Tick(now)];
  }

  lemma DetectedTurn(w: World, h: Hosts) returns (ws: seq<World>, acts: seq<Action>)
    ensures OrderlyRun(ws, acts) && ws[0] == w && ws[|acts|].clock == w.clock && NoneDetected(ws[|acts|].server)
  {
    hide Orderly, After, NoneDetected;
    var rows := IncidentRows(w.server.incidents, Detected);
    IncidentRowsExact(w.server.incidents, Detected);
    ws, acts := DetectedBatch(w, rows, h);
    NoneLeftDetected(w.server, h, w.clock);
  }

  lemma SweepingTurn(w: World) returns (ws: seq<World>, acts: seq<Action>)
    requires NoneDetected(w.server)
    ensures OrderlyRun(ws, acts) && ws[0] == w && ws[|acts|].clock == w.clock && SweepSettled(ws[|acts|].server, w.clock)
  {
    hide Orderly, After, SweepSettled;
    var rows := IncidentRows(w.server.incidents, Sweeping);
    IncidentRowsExact(w.server.incidents, Sweeping);
    ws, acts := SweepingBatch(w, rows);
    SweepingSettled(w.server, w.clock);
  }

  lemma ActiveTurn(w: World, g: nat -> Chains, t2: real) returns (ws: seq<World>, acts: seq<Action>)
    requires SweepSettled(w.server, t2)
    ensures OrderlyRun(ws, acts) && ws[0] == w && Settled(ws[|acts|].server, t2, w.clock)
  {
    hide Orderly, After, SweepSettled, Settled;
    var rows := IncidentRows(w.server.incidents, Active);
    IncidentRowsExact(w.server.incidents, Active);
    ws, acts := ActiveBatch(w, rows, g);
    ActiveSettled(w.server, g, t2, w.clock);
  }

  /**
   * A full turn of the orchestrator that nothing disturbs is a run of the step system in which no visit moves a status
   * back or skips a sweep, and it leaves nothing detected, unfinished sweeps within their time and no stale incident.
   */
  lemma OrchestratorTurn(w: World, h: Hosts, g: nat -> Chains, t2: real, t3: real) returns (ws: seq<World>, acts: seq<Action>)
    requires w.clock <= t2 <= t3
    ensures OrderlyRun(ws, acts) && ws[0] == w && Settled(ws[|acts|].server, t2, t3)
  {
    hide NoneDetected, Settled, SweepSettled, After, Orderly;
    ws, acts := DetectedTurn(w, h);
    var vs, more := TickRun(ws[|acts|], t2);
    ws, acts := Join(ws, acts, vs, more);
    vs, more := SweepingTurn(ws[|acts|]);
    ws, acts := Join(ws, acts, vs, more);
    vs, more := TickRun(ws[|acts|], t3);
    ws, acts := Join(ws, acts, vs, more);
    vs, more := ActiveTurn(ws[|acts|], g, t2);
    ws, acts := Join(ws, acts, vs, more);
  }
}

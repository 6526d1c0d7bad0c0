/** The surveillance invariants hold in every reachable state. */
module FleetSurveillance {
  import opened Options
  import opened FlightRecorder
  import opened TopK
  import opened FleetModel
  import opened FleetAgent
  import opened FleetProtocol
  import opened FleetHistory
  import opened FleetPulls

  // ---- what ingesting one batch of rows does ----

  lemma {:induction false} UpsertExact(logs: map<LogKey, Log>, inc: nat, agent: AgentId, side: Side, rows: seq<Row>)
    ensures var t := UpsertLogs(logs, inc, agent, side, rows);
            && (forall x :: x in rows ==> LogKey(inc, agent, x.id) in t)
            && (forall k :: k in t && k !in logs ==> k.inc == inc && k.agent == agent && t[k].side == side
                                                     && t[k].row in rows && t[k].row.id == k.logId)
  {
    if rows == [] {
    } else {
      var init, last := rows[..|rows| - 1], rows[|rows| - 1];
      UpsertExact(logs, inc, agent, side, init);
      assert forall x :: x in rows <==> x in init || x == last;
    }
  }

  lemma {:induction false} MaxTsExact(rows: seq<Row>)
    requires rows != []
    ensures exists x :: x in rows && x.Ts() == MaxTs(rows)
    ensures forall x :: x in rows ==> x.Ts() <= MaxTs(rows)
  {
    var init, last := rows[..|rows| - 1], rows[|rows| - 1];
    assert forall x :: x in rows <==> x in init || x == last;
    if |rows| <= 1 {
      assert rows[0] in rows && rows[0] == last;
    } else {
      MaxTsExact(init);
    }
  }

  /** The server after a pull result for `(i, side)` was accepted. */
  ghost predicate Accepted(s: Server, t: Server, i: nat, side: Side, b: AgentId, rows: seq<Row>) {
    && rows != [] && i < |s.incidents| && t.incidents == s.incidents && QueriesEvolve(s.queries, t.queries)
    && |t.queries| == |s.queries| && b == s.incidents[i].Agent(side)
    && t.logs == UpsertLogs(s.logs, i, b, side, rows)
    && t.pulls == if MaxTs(rows) > 0.0 then SetPullState(s.pulls, PullKey(i, side), None, Some(MaxTs(rows))) else s.pulls
  }

  lemma AcceptedWatermarks(s: Server, t: Server, i: nat, side: Side, b: AgentId, rows: seq<Row>, j: nat, other: Side)
    requires Accepted(s, t, i, side, b, rows) && PullQueriesOk(s)
    ensures Watermark(t, j, other)
         == if j == i && other == side && MaxTs(rows) > Watermark(s, i, side) then MaxTs(rows) else Watermark(s, j, other)
  {
  }

  lemma AcceptedNoGap(s: Server, t: Server, agents: map<AgentId, Agent>, i: nat, side: Side, b: AgentId, rows: seq<Row>,
                      since: Option<real>, wanted: Filter)
    requires Accepted(s, t, i, side, b, rows) && PullQueriesOk(s) && NoGap(s, agents, i, side, wanted)
    requires since.Some? ==> 0.0 < since.value <= Watermark(s, i, side)
    requires CompleteUpTo(AgentAt(agents, b), rows, wanted, since)
    ensures NoGap(t, agents, i, side, wanted)
  {
    AcceptedWatermarks(s, t, i, side, b, rows, i, side);
    UpsertExact(s.logs, i, b, side, rows);
    UpsertEvolves(s.logs, i, b, side, rows);
    MaxTsExact(rows);
    forall r | r in AgentAt(agents, b).table && wanted.Wants(None, r.event) && r.Ts() < Watermark(t, i, side)
             && Watermark(t, i, side) > 0.0
      ensures LogKey(i, b, r.id) in t.logs {
      if r.Ts() >= Watermark(s, i, side) || Watermark(s, i, side) <= 0.0 {
        assert wanted.Wants(since, r.event);
        var x :| x in rows && x.Ts() == MaxTs(rows);
        assert r in rows;
      }
    }
  }

  lemma AcceptedOtherNoGap(s: Server, t: Server, agents: map<AgentId, Agent>, i: nat, side: Side, b: AgentId, rows: seq<Row>,
                           j: nat, other: Side, wanted: Filter)
    requires Accepted(s, t, i, side, b, rows) && PullQueriesOk(s) && j < |s.incidents| && NoGap(s, agents, j, other, wanted)
    requires j != i || other != side
    ensures NoGap(t, agents, j, other, wanted)
  {
    AcceptedWatermarks(s, t, i, side, b, rows, j, other);
    UpsertEvolves(s.logs, i, b, side, rows);
  }

  lemma AcceptedBounded(s: Server, t: Server, agents: map<AgentId, Agent>, i: nat, side: Side, b: AgentId, rows: seq<Row>,
                        j: nat, other: Side)
    requires Accepted(s, t, i, side, b, rows) && PullQueriesOk(s) && j < |s.incidents| && Bounded(s, agents, j, other)
    requires AgentsOk(agents) && RowsKnown(AgentAt(agents, b), rows)
    ensures Bounded(t, agents, j, other)
  {
    hide UpsertLogs, SetPullState, QueriesEvolve, PullQueriesOk, Watermark, AgentOk, RowsKnown, MaxTs;
    AcceptedWatermarks(s, t, i, side, b, rows, j, other);
    if j == i && other == side {
      MaxTsExact(rows);
      var x :| x in rows && x.Ts() == MaxTs(rows);
      assert AgentOk(AgentAt(agents, b));
      KnownIsBounded(AgentAt(agents, b), rows, x);
    }
  }

  lemma KnownIsBounded(g: Agent, rows: seq<Row>, x: Row)
    requires AgentOk(g) && RowsKnown(g, rows) && x in rows
    ensures g.history != [] && x.Ts() <= g.history[|g.history| - 1].Ts()
  {
  }

  lemma AcceptedUpper(s: Server, t: Server, i: nat, side: Side, b: AgentId, rows: seq<Row>, j: nat, other: Side, k: LogKey)
    requires Accepted(s, t, i, side, b, rows) && PullQueriesOk(s) && j < |s.incidents| && WatermarkExact(s, j, other)
    requires s.incidents[j].src != s.incidents[j].dst && StoredFor(t, j, other, k)
    ensures t.logs[k].side == other && t.logs[k].row.Ts() <= Watermark(t, j, other)
  {
    AcceptedWatermarks(s, t, i, side, b, rows, j, other);
    UpsertExact(s.logs, i, b, side, rows);
    UpsertEvolves(s.logs, i, b, side, rows);
    MaxTsExact(rows);
    if k in s.logs {
      assert StoredFor(s, j, other, k);
    } else {
      assert j == i && other == side;
      assert PullStateOf(s.pulls, PullKey(i, side)).lastRecordTs >= 0.0;
    }
  }

  lemma AcceptedAttained(s: Server, t: Server, agents: map<AgentId, Agent>, i: nat, side: Side, b: AgentId, rows: seq<Row>,
                         j: nat, other: Side)
    requires Accepted(s, t, i, side, b, rows) && PullQueriesOk(s) && j < |s.incidents| && WatermarkExact(s, j, other)
    requires s.incidents[j].src != s.incidents[j].dst && Watermark(t, j, other) > 0.0
    requires LogsKnown(t, agents) && RowsKnown(AgentAt(agents, b), rows)
    ensures exists k :: StoredFor(t, j, other, k) && t.logs[k].row.Ts() == Watermark(t, j, other)
  {
    AcceptedWatermarks(s, t, i, side, b, rows, j, other);
    UpsertExact(s.logs, i, b, side, rows);
    UpsertEvolves(s.logs, i, b, side, rows);
    if Watermark(t, j, other) == Watermark(s, j, other) {
      var k :| StoredFor(s, j, other, k) && s.logs[k].row.Ts() == Watermark(s, j, other);
      assert StoredFor(t, j, other, k);
    } else {
      MaxTsExact(rows);
      var x :| x in rows && x.Ts() == MaxTs(rows);
      var k := LogKey(i, b, x.id);
      assert StoredFor(t, j, other, k);
      assert t.logs[k].row in [t.logs[k].row];
    }
  }

  lemma AcceptedLogsKnown(s: Server, t: Server, agents: map<AgentId, Agent>, i: nat, side: Side, b: AgentId, rows: seq<Row>)
    requires Accepted(s, t, i, side, b, rows) && LogsKnown(s, agents) && RowsKnown(AgentAt(agents, b), rows)
    ensures LogsKnown(t, agents)
  {
    UpsertExact(s.logs, i, b, side, rows);
    UpsertEvolves(s.logs, i, b, side, rows);
    forall k | k in t.logs ensures RowsKnown(AgentAt(agents, k.agent), [t.logs[k].row]) && t.logs[k].row.id == k.logId {
      if k in s.logs { assert RowsKnown(AgentAt(agents, k.agent), [s.logs[k].row]); }
    }
  }

  lemma AcceptedQueriesOk(s: Server, t: Server, i: nat, side: Side, b: AgentId, rows: seq<Row>)
    requires Accepted(s, t, i, side, b, rows) && PullQueriesOk(s) && Evolves(s, t)
    ensures PullQueriesOk(t)
  {
    forall n | 0 <= n < |t.queries| ensures PullQueryOk(t, t.queries[n]) {
      assert PullQueryOk(s, s.queries[n]) && QueryEvolves(s.queries[n], t.queries[n]);
      QueryOkKept(s, t, s.queries[n]);
    }
  }

  lemma AcceptedSide(s: Server, t: Server, agents: map<AgentId, Agent>, i: nat, side: Side, b: AgentId, rows: seq<Row>,
                     since: Option<real>, scope: Scope, j: nat, other: Side)
    requires Accepted(s, t, i, side, b, rows) && PullQueriesOk(s) && j < |s.incidents| && SideOk(s, agents, j, other, scope)
    requires AgentsOk(agents) && RowsKnown(AgentAt(agents, b), rows) && LogsKnown(t, agents)
    requires since.Some? ==> 0.0 < since.value <= Watermark(s, i, side)
    requires scope.Some? ==>
               CompleteUpTo(AgentAt(agents, b), rows, scope.value(PullKey(i, side)), since)
    ensures SideOk(t, agents, j, other, scope)
  {
    AcceptedBounded(s, t, agents, i, side, b, rows, j, other);
    if scope.Some? {
      var wanted := scope.value(PullKey(j, other));
      if j == i && other == side { AcceptedNoGap(s, t, agents, i, side, b, rows, since, wanted); }
      else { AcceptedOtherNoGap(s, t, agents, i, side, b, rows, j, other, wanted); }
    }
    if s.incidents[j].src != s.incidents[j].dst {
      forall k | StoredFor(t, j, other, k)
        ensures t.logs[k].side == other && t.logs[k].row.Ts() <= Watermark(t, j, other) {
        AcceptedUpper(s, t, i, side, b, rows, j, other, k);
      }
      if Watermark(t, j, other) > 0.0 { AcceptedAttained(s, t, agents, i, side, b, rows, j, other); }
    }
  }

  lemma ReceiveResultStore(s: Server, agents: map<AgentId, Agent>, c: AgentId, r: QueryResult, scope: Scope)
    requires StoreOk(s, agents, scope) && AgentsOk(agents) && ResultOk(s, agents, c, r, scope)
    ensures StoreOk(ReceiveResult(s, r), agents, scope)
  {
    hide UpsertLogs, MaxTs, SideOk, AgentsOk;
    var t := ReceiveResult(s, r);
    ReceiveResultEvolves(s, r);
    var q := s.queries[r.id];
    if q.result.None? && q.kind == PullSurveillance && r.payload.Records? && r.payload.rows != [] {
      assert PullQueryOk(s, q);
      var i, side, b, rows := q.key.inc, q.key.side, q.agent, r.payload.rows;
      assert Accepted(s, t, i, side, b, rows);
      AcceptedLogsKnown(s, t, agents, i, side, b, rows);
      AcceptedQueriesOk(s, t, i, side, b, rows);
      forall j, other | 0 <= j < |t.incidents| ensures SideOk(t, agents, j, other, scope) {
        AcceptedSide(s, t, agents, i, side, b, rows, q.params.since, scope, j, other);
      }
    } else {
      assert Rearranged(s, t);
      RearrangedStore(s, t, agents, scope);
    }
  }

  lemma {:induction false} ReceiveResultsStore(s: Server, agents: map<AgentId, Agent>, c: AgentId, rs: seq<QueryResult>, scope: Scope)
    requires StoreOk(s, agents, scope) && AgentsOk(agents) && ResultsOk(s, agents, c, rs, scope)
    ensures StoreOk(ReceiveResults(s, rs), agents, scope)
  {
    if rs == [] {
    } else {
      var init, last := rs[..|rs| - 1], rs[|rs| - 1];
      ReceiveResultsStore(s, agents, c, init, scope);
      ReceiveResultsEvolve(s, init);
      assert last in rs;
      ResultKept(s, ReceiveResults(s, init), agents, agents, c, last, scope);
      ReceiveResultStore(ReceiveResults(s, init), agents, c, last, scope);
    }
  }

  // ---- the other server actions ----

  lemma EnqueuePullRearranged(s: Server, i: nat, side: Side, c: Chains, now: real)
    requires i < |s.incidents| && PullQueriesOk(s)
    ensures Rearranged(s, EnqueuePull(s, i, side, c, now))
  {
  }

  lemma ActiveVisitStore(s: Server, agents: map<AgentId, Agent>, i: nat, updatedAt: int, c: Chains, now: real, scope: Scope)
    requires i < |s.incidents| && StoreOk(s, agents, scope)
    ensures StoreOk(ActiveVisit(s, i, updatedAt, c, now), agents, scope)
  {
    if now - updatedAt as real > AUTO_CLOSE {
      assert Rearranged(s, SetStatus(s, i, Closed, now));
      RearrangedStore(s, SetStatus(s, i, Closed, now), agents, scope);
    } else {
      PullSideStore(s, agents, i, Dst, c, now, scope);
      PullSideStore(PullSide(s, i, Dst, c, now), agents, i, Src, c, now, scope);
    }
  }

  lemma PullSideStore(s: Server, agents: map<AgentId, Agent>, i: nat, side: Side, c: Chains, now: real, scope: Scope)
    requires i < |s.incidents| && StoreOk(s, agents, scope)
    ensures StoreOk(PullSide(s, i, side, c, now), agents, scope)
  {
    if WantsPull(s, i, side, c, now) {
      EnqueuePullRearranged(s, i, side, c, now);
      RearrangedStore(s, EnqueuePull(s, i, side, c, now), agents, scope);
    }
  }

  lemma PlainActionRearranged(w: World, a: Action)
    requires Enabled(w, a) && PullQueriesOk(w.server) && !a.Serve? && !a.VisitActive?
    ensures Rearranged(w.server, After(w, a).server)
  {
    StepEvolves(w, a);
    match a
    case ManualPull(i, side, _) =>
    case VisitDetected(i, ips, port) => DetectedVisitQueries(w.server, i, ips, port, w.clock);
    case _ =>
  }

  lemma StepStore(w: World, a: Action, scope: Scope)
    requires Enabled(w, a) && StoreOk(w.server, w.agents, scope) && AgentsOk(w.agents)
    requires a.Serve? ==> ResultsOk(w.server, w.agents, a.m.agent, a.m.results, scope)
    ensures StoreOk(After(w, a).server, w.agents, scope)
  {
    hide ReceiveResults, ActiveVisit, ResultsOk, SideOk;
    match a
    case Serve(m) => ReceiveResultsStore(w.server, w.agents, m.agent, m.results, scope);
    case VisitActive(i, updatedAt, c) => ActiveVisitStore(w.server, w.agents, i, updatedAt, c, w.clock, scope);
    case _ =>
      PlainActionRearranged(w, a);
      RearrangedStore(w.server, After(w, a).server, w.agents, scope);
  }

  // ---- executing queries ----

  /** A pull of a side where something is wanted comes back below its limit and, its anchors resolved, asks for all of it. */
  ghost predicate Covers(w: World, a: Action, wanted: PullKey -> Filter) {
    a.Apply? && a.m.Response? ==>
      forall d :: d in a.m.queries && d.id in a.outcomes && a.outcomes[d.id].Records? && d.params.Pull?
                  && d.id < |w.server.queries| && w.server.queries[d.id].key.Surv? && d.id in a.resolved ==>
        var key := w.server.queries[d.id].key;
        Suffices(d.params, a.resolved[d.id], |a.outcomes[d.id].rows|, wanted(PullKey(key.inc, key.side)))
  }

  ghost predicate Suffices(params: Params, resolved: set<int>, returned: nat, wanted: Filter)
    requires params.Pull?
  {
    !wanted.Empty() ==> returned < params.limit && Includes(params.filter.(pids := resolved), wanted)
  }

  lemma NothingWanted(wanted: Filter, since: Option<real>, e: Event)
    requires wanted.Empty()
    ensures !wanted.Wants(since, e)
  {
  }

  lemma PulledOk(g: Agent, q: Query, resolved: set<int>, scope: Scope)
    requires AgentOk(g) && q.kind == PullSurveillance && q.params.Pull? && Resolution(q.params.filter, resolved)
    requires scope.Some? && q.key.Surv? ==>
               Suffices(q.params, resolved, |Pulled(g.table, q.params.filter.(pids := resolved), q.params.since, q.params.limit)|,
                        scope.value(PullKey(q.key.inc, q.key.side)))
    ensures PullResultOk(g, q, Records(Pulled(g.table, q.params.filter.(pids := resolved), q.params.since, q.params.limit)), scope)
  {
    var f, since, limit := q.params.filter.(pids := resolved), q.params.since, q.params.limit;
    PulledSound(g.table, f, since, limit);
    if scope.Some? && q.key.Surv? {
      var wanted := scope.value(PullKey(q.key.inc, q.key.side));
      if !wanted.Empty() { UncappedPullIsComplete(g.table, f, since, limit); }
      forall r | r in g.table && wanted.Wants(since, r.event) ensures r in Pulled(g.table, f, since, limit) {
        if wanted.Empty() { NothingWanted(wanted, since, r.event); }
        WantsGrows(f, wanted, since, r.event);
      }
    }
  }

  lemma ExecutedOk(w: World, a: Action, scope: Scope)
    requires Enabled(w, a) && a.Apply? && MessageOk(w.server, w.agents, a.m, scope) && AgentsOk(w.agents)
    requires scope.Some? ==> Covers(w, a, scope.value)
    ensures ResultsOk(w.server, w.agents, a.m.agent, Executed(a.m.queries, a.outcomes), scope)
  {
    var g := AgentAt(w.agents, a.m.agent);
    ExecutedExact(a.m.queries, a.outcomes);
    forall r | r in Executed(a.m.queries, a.outcomes) ensures ResultOk(w.server, w.agents, a.m.agent, r, scope) {
      var d :| d in a.m.queries && d.id == r.id;
      assert DeliveryOk(w.server, a.m.agent, d);
      if d.kind == PullSurveillance && d.params.Pull? {
        PulledOk(g, w.server.queries[d.id], a.resolved[d.id], scope);
      }
    }
  }

  // ---- the whole invariant ----

  ghost predicate PullInv(w: World, scope: Scope) {
    && AgentsOk(w.agents) && StoreOk(w.server, w.agents, scope)
    && (forall b :: ResultsOk(w.server, w.agents, b, AgentAt(w.agents, b).results, scope))
    && (forall m :: m in w.net ==> MessageOk(w.server, w.agents, m, scope))
  }

  lemma StepBuffers(w: World, a: Action, scope: Scope, b: AgentId)
    requires Enabled(w, a) && PullInv(w, scope) && (scope.Some? ==> Covers(w, a, scope.value))
    ensures ResultsOk(After(w, a).server, After(w, a).agents, b, AgentAt(After(w, a).agents, b).results, scope)
  {
    var w' := After(w, a);
    StepEvolves(w, a);
    StepAgents(w, a);
    AgentsAfter(w, a, b);
    var rs := AgentAt(w'.agents, b).results;
    if a.Apply? && a.m.agent == b { ExecutedOk(w, a, scope); }
    assert ResultsOk(w.server, w.agents, b, AgentAt(w.agents, b).results, scope);
    assert ResultsOk(w.server, w.agents, b, rs, scope);
    ResultsKept(w.server, w'.server, w.agents, w'.agents, b, rs, scope);
  }

  lemma HandoutOk(s: Server, agents: map<AgentId, Agent>, b: AgentId, scope: Scope)
    ensures MessageOk(s, agents, Response(b, Handout(s.queries, b)), scope)
  {
    HandoutExact(s.queries, b);
  }

  lemma StepMessages(w: World, a: Action, scope: Scope, m: Message)
    requires Enabled(w, a) && PullInv(w, scope) && m in After(w, a).net
    ensures MessageOk(After(w, a).server, After(w, a).agents, m, scope)
  {
    var w' := After(w, a);
    StepEvolves(w, a);
    StepAgents(w, a);
    if a.Serve? && m in Sent(w, a) {
      HandoutOk(w'.server, w'.agents, a.m.agent, scope);
    } else {
      MessageKept(w.server, w'.server, w.agents, w'.agents, m, scope);
    }
  }

  lemma StepPullInv(w: World, a: Action, scope: Scope)
    requires Enabled(w, a) && PullInv(w, scope) && (scope.Some? ==> Covers(w, a, scope.value))
    ensures PullInv(After(w, a), scope)
  {
    var w' := After(w, a);
    if a.Serve? { assert MessageOk(w.server, w.agents, a.m, scope); }
    StepStore(w, a, scope);
    StepAgents(w, a);
    StoreKept(w'.server, w.agents, w'.agents, scope);
    forall b ensures ResultsOk(w'.server, w'.agents, b, AgentAt(w'.agents, b).results, scope) { StepBuffers(w, a, scope, b); }
    forall m | m in w'.net ensures MessageOk(w'.server, w'.agents, m, scope) { StepMessages(w, a, scope, m); }
  }

  lemma {:induction false} RunPullInv(ws: seq<World>, acts: seq<Action>, k: nat, scope: Scope)
    requires Run(ws, acts) && Init(ws[0]) && k < |ws|
    requires scope.Some? ==> forall i :: 0 <= i < k ==> Covers(ws[i], acts[i], scope.value)
    ensures PullInv(ws[k], scope)
  {
    if k == 0 {
    } else {
      RunPullInv(ws, acts, k - 1, scope);
      StepPullInv(ws[k - 1], acts[k - 1], scope);
    }
  }

  /** What is wanted on one side, and nothing on any other. */
  ghost function Only(key: PullKey, wanted: Filter): PullKey -> Filter {
    k => if k == key then wanted else Filter({}, [], [])
  }

  /**
   * Incremental surveillance is gap-free, however the incident's chains change. Take any filter that every pull of a side
   * includes once its anchors are resolved, and let no pull be capped. Then every row that the filter wants, that the
   * agent still has and that lies below the side's watermark, is in the log store.
   */
  lemma SurveillanceIsGapFree(ws: seq<World>, acts: seq<Action>, k: nat, i: nat, side: Side, wanted: Filter, r: Row)
    requires Run(ws, acts) && Init(ws[0]) && k < |ws|
    requires forall n :: 0 <= n < k ==> Covers(ws[n], acts[n], Only(PullKey(i, side), wanted))
    requires i < |ws[k].server.incidents|
    requires r in AgentAt(ws[k].agents, ws[k].server.incidents[i].Agent(side)).table
    requires wanted.Wants(None, r.event)
    requires 0.0 < Watermark(ws[k].server, i, side) && r.Ts() < Watermark(ws[k].server, i, side)
    ensures var key := LogKey(i, ws[k].server.incidents[i].Agent(side), r.id);
            key in ws[k].server.logs && ws[k].server.logs[key].row == r
  {
    var scope := Some(Only(PullKey(i, side), wanted));
    RunPullInv(ws, acts, k, scope);
    var s := ws[k].server;
    assert SideOk(s, ws[k].agents, i, side, scope);
    var key := LogKey(i, s.incidents[i].Agent(side), r.id);
    assert s.logs[key].row in [s.logs[key].row];
    assert AgentOk(AgentAt(ws[k].agents, s.incidents[i].Agent(side)));
  }

  /** In every reachable state, capped pulls or not, the watermark of a side watched on its own agent is the
      greatest timestamp stored for that side. */
  lemma WatermarkIsGreatestStored(ws: seq<World>, acts: seq<Action>, k: nat, i: nat, side: Side)
    requires Run(ws, acts) && Init(ws[0]) && k < |ws|
    requires i < |ws[k].server.incidents| && ws[k].server.incidents[i].src != ws[k].server.incidents[i].dst
    ensures var s := ws[k].server;
            && (forall key :: StoredFor(s, i, side, key) ==> s.logs[key].side == side && s.logs[key].row.Ts() <= Watermark(s, i, side))
            && (Watermark(s, i, side) > 0.0 ==>
                  exists key :: StoredFor(s, i, side, key) && s.logs[key].row.Ts() == Watermark(s, i, side))
  {
    RunPullInv(ws, acts, k, None);
    assert SideOk(ws[k].server, ws[k].agents, i, side, None);
  }

  // ---- serialization ----

  ghost predicate IsPull(q: Query, i: nat, side: Side) {
    q.kind == PullSurveillance && q.key == Surv(i, side)
  }

  ghost predicate Spaced(s: Server, i: nat, side: Side, p: nat, q: nat)
    requires p < q < |s.queries|
  {
    IsPull(s.queries[p], i, side) && IsPull(s.queries[q], i, side) ==>
      s.queries[p].result.Some? && s.queries[q].createdAt >= s.queries[p].createdAt + PULL_INTERVAL
  }

  /** Of two pulls of a side the earlier is finished, and they were enqueued at least a minute apart. */
  ghost predicate Serialized(s: Server) {
    && (forall i, side, p, q :: 0 <= p < q < |s.queries| ==> Spaced(s, i, side, p, q))
    && (forall i, side, p :: 0 <= p < |s.queries| && IsPull(s.queries[p], i, side) ==>
          s.queries[p].createdAt <= PullStateOf(s.pulls, PullKey(i, side)).lastEnqueueAt)
  }

  ghost predicate NoNewPulls(s: Server, t: Server) {
    && QueriesEvolve(s.queries, t.queries)
    && (forall n :: |s.queries| <= n < |t.queries| ==> t.queries[n].kind != PullSurveillance)
    && (forall k :: PullStateOf(t.pulls, k).lastEnqueueAt == PullStateOf(s.pulls, k).lastEnqueueAt)
  }

  lemma SerializedKept(s: Server, t: Server)
    requires Serialized(s) && NoNewPulls(s, t)
    ensures Serialized(t)
  {
    forall i, side, p, q | 0 <= p < q < |t.queries| ensures Spaced(t, i, side, p, q) {
      if q < |s.queries| {
        assert QueryEvolves(s.queries[p], t.queries[p]) && QueryEvolves(s.queries[q], t.queries[q]);
        assert Spaced(s, i, side, p, q);
      }
    }
    forall i, side, p | 0 <= p < |t.queries| && IsPull(t.queries[p], i, side)
      ensures t.queries[p].createdAt <= PullStateOf(t.pulls, PullKey(i, side)).lastEnqueueAt {
      assert QueryEvolves(s.queries[p], t.queries[p]);
      assert IsPull(s.queries[p], i, side);
    }
  }

  lemma PullSideSerialized(s: Server, i: nat, side: Side, c: Chains, now: real)
    requires i < |s.incidents| && Serialized(s)
    ensures Serialized(PullSide(s, i, side, c, now))
  {
    if WantsPull(s, i, side, c, now) {
      var t, n := EnqueuePull(s, i, side, c, now), |s.queries|;
      forall j, other, p, q | 0 <= p < q < |t.queries| ensures Spaced(t, j, other, p, q) {
        if q < n {
          assert Spaced(s, j, other, p, q);
        } else if IsPull(s.queries[p], j, other) && IsPull(t.queries[q], j, other) {
          assert s.queries[p].key == Surv(i, side);
        }
      }
      forall j, other, p | 0 <= p < |t.queries| && IsPull(t.queries[p], j, other)
        ensures t.queries[p].createdAt <= PullStateOf(t.pulls, PullKey(j, other)).lastEnqueueAt {
        if p < n { assert IsPull(s.queries[p], j, other); }
      }
    }
  }

  lemma ReceiveResultQuiet(s: Server, r: QueryResult)
    ensures NoNewPulls(s, ReceiveResult(s, r))
  {
    ReceiveResultEvolves(s, r);
  }

  lemma {:induction false} ReceiveResultsSerialized(s: Server, rs: seq<QueryResult>)
    requires Serialized(s)
    ensures Serialized(ReceiveResults(s, rs))
  {
    if rs == [] {
    } else {
      var mid := ReceiveResults(s, rs[..|rs| - 1]);
      ReceiveResultsSerialized(s, rs[..|rs| - 1]);
      ReceiveResultQuiet(mid, rs[|rs| - 1]);
      SerializedKept(mid, ReceiveResult(mid, rs[|rs| - 1]));
    }
  }

  lemma StepSerialized(w: World, a: Action)
    requires Enabled(w, a) && Serialized(w.server) && !a.ManualPull?
    ensures Serialized(After(w, a).server)
  {
    if a.Serve? {
      ReceiveResultsSerialized(w.server, a.m.results);
    } else if a.VisitActive? && w.clock - a.updatedAt as real <= AUTO_CLOSE {
      PullSideSerialized(w.server, a.inc, Dst, a.chains, w.clock);
      PullSideSerialized(PullSide(w.server, a.inc, Dst, a.chains, w.clock), a.inc, Src, a.chains, w.clock);
    } else {
      StepEvolves(w, a);
      SerializedKept(w.server, After(w, a).server);
    }
  }

  /** In every state reached without manual pulls, at most the newest pull of a side is pending and the
      pulls of a side were enqueued at least 60 seconds apart. */
  lemma {:induction false} PullsAreSerialized(ws: seq<World>, acts: seq<Action>, k: nat)
    requires Run(ws, acts) && Init(ws[0]) && k < |ws|
    requires forall n :: 0 <= n < k ==> !acts[n].ManualPull?
    ensures Serialized(ws[k].server)
  {
    if k == 0 {
    } else {
      PullsAreSerialized(ws, acts, k - 1);
      StepSerialized(ws[k - 1], acts[k - 1]);
    }
  }
}

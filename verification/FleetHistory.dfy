/** What no action ever undoes: identities, first results, stored rows, watermarks; and which visits move a status back. */
module FleetHistory {
  import opened Options
  import opened FlightRecorder
  import opened FleetModel
  import opened Text
  import opened FleetAgent
  import opened FleetProtocol

  ghost predicate IncidentEvolves(a: Incident, b: Incident) {
    && b.src == a.src && b.dst == a.dst && b.pivot == a.pivot && b.port == a.port
    && b.createdAt == a.createdAt && a.findings <= b.findings && a.followOns <= b.followOns
    && a.hosts <= b.hosts && a.pivots <= b.pivots
  }

  ghost predicate IncidentsEvolve(a: seq<Incident>, b: seq<Incident>) {
    |a| <= |b| && forall i :: 0 <= i < |a| ==> IncidentEvolves(a[i], b[i])
  }

  ghost predicate QueryEvolves(a: Query, b: Query) {
    b == a.(result := b.result) && (a.result.Some? ==> b.result == a.result)
  }

  ghost predicate QueriesEvolve(a: seq<Query>, b: seq<Query>) {
    |a| <= |b| && forall i :: 0 <= i < |a| ==> QueryEvolves(a[i], b[i])
  }

  ghost predicate LogsEvolve(a: map<LogKey, Log>, b: map<LogKey, Log>) {
    forall k :: k in a ==> k in b && b[k] == a[k]
  }

  ghost predicate WatermarksEvolve(a: map<PullKey, PullState>, b: map<PullKey, PullState>) {
    forall k :: PullStateOf(a, k).lastRecordTs <= PullStateOf(b, k).lastRecordTs
  }

  ghost predicate Evolves(s: Server, t: Server) {
    && IncidentsEvolve(s.incidents, t.incidents) && QueriesEvolve(s.queries, t.queries)
    && LogsEvolve(s.logs, t.logs) && WatermarksEvolve(s.pulls, t.pulls)
  }

  lemma IncidentsEvolveTrans(a: seq<Incident>, b: seq<Incident>, c: seq<Incident>)
    requires IncidentsEvolve(a, b) && IncidentsEvolve(b, c)
    ensures IncidentsEvolve(a, c)
  {
    forall i | 0 <= i < |a| ensures IncidentEvolves(a[i], c[i]) {
      assert IncidentEvolves(a[i], b[i]) && IncidentEvolves(b[i], c[i]);
    }
  }

  lemma QueriesEvolveTrans(a: seq<Query>, b: seq<Query>, c: seq<Query>)
    requires QueriesEvolve(a, b) && QueriesEvolve(b, c)
    ensures QueriesEvolve(a, c)
  {
    forall i | 0 <= i < |a| ensures QueryEvolves(a[i], c[i]) {
      assert QueryEvolves(a[i], b[i]) && QueryEvolves(b[i], c[i]);
    }
  }

  lemma EvolvesTrans(s: Server, t: Server, u: Server)
    requires Evolves(s, t) && Evolves(t, u)
    ensures Evolves(s, u)
  {
    IncidentsEvolveTrans(s.incidents, t.incidents, u.incidents);
    QueriesEvolveTrans(s.queries, t.queries, u.queries);
    forall k ensures PullStateOf(s.pulls, k).lastRecordTs <= PullStateOf(u.pulls, k).lastRecordTs {
      assert PullStateOf(s.pulls, k).lastRecordTs <= PullStateOf(t.pulls, k).lastRecordTs;
    }
  }

  lemma EvolvesRefl(s: Server)
    ensures Evolves(s, s)
  {
  }

  lemma IncidentsRefl(incs: seq<Incident>)
    ensures forall i :: 0 <= i < |incs| ==> IncidentEvolves(incs[i], incs[i])
  {
  }

  // ---- findings ----

  lemma GroupMatchEvolves(incs: seq<Incident>, f: Finding, m: Match, now: real)
    ensures IncidentsEvolve(incs, GroupMatch(incs, f, m, now))
  {
  }

  lemma {:induction false} GroupMatchesEvolve(incs: seq<Incident>, f: Finding, n: nat, now: real)
    requires n <= |f.matches|
    ensures IncidentsEvolve(incs, GroupMatches(incs, f, n, now))
  {
    hide GroupMatch, IncidentEvolves;
    assert forall i :: 0 <= i < |incs| ==> IncidentEvolves(incs[i], incs[i]) by {
      IncidentsRefl(incs);
    }
    if n == 0 {
    } else {
      var mid := GroupMatches(incs, f, n - 1, now);
      GroupMatchesEvolve(incs, f, n - 1, now);
      GroupMatchEvolves(mid, f, f.matches[n - 1], now);
      IncidentsEvolveTrans(incs, mid, GroupMatches(incs, f, n, now));
    }
  }

  lemma AcceptFindingEvolves(incs: seq<Incident>, f: Finding, now: real)
    ensures IncidentsEvolve(incs, AcceptFinding(incs, f, now))
  {
    var tagged := FollowOn(incs, f.agent, f.id, f.severity, now);
    assert IncidentsEvolve(incs, tagged);
    GroupMatchesEvolve(tagged, f, |f.matches|, now);
    IncidentsEvolveTrans(incs, tagged, AcceptFinding(incs, f, now));
  }

  // ---- results ----

  lemma {:induction false} UpsertEvolves(logs: map<LogKey, Log>, inc: nat, agent: AgentId, side: Side, rows: seq<Row>)
    ensures LogsEvolve(logs, UpsertLogs(logs, inc, agent, side, rows))
  {
    if rows == [] {
    } else {
      UpsertEvolves(logs, inc, agent, side, rows[..|rows| - 1]);
    }
  }

  lemma ReceiveResultEvolves(s: Server, r: QueryResult)
    ensures Evolves(s, ReceiveResult(s, r))
  {
    if r.id < |s.queries| && s.queries[r.id].result.None? {
      var q := s.queries[r.id];
      if q.kind == PullSurveillance && q.key.Surv? && r.payload.Records? {
        UpsertEvolves(s.logs, q.key.inc, q.agent, q.key.side, r.payload.rows);
      }
    }
  }

  lemma {:induction false} ReceiveResultsEvolve(s: Server, rs: seq<QueryResult>)
    ensures Evolves(s, ReceiveResults(s, rs))
  {
    if rs == [] {
    } else {
      var mid := ReceiveResults(s, rs[..|rs| - 1]);
      ReceiveResultsEvolve(s, rs[..|rs| - 1]);
      ReceiveResultEvolves(mid, rs[|rs| - 1]);
      EvolvesTrans(s, mid, ReceiveResults(s, rs));
    }
  }

  // ---- orchestrator ----

  lemma DetectedVisitQueries(s: Server, i: nat, ips: seq<string>, port: Option<int>, now: real)
    requires i < |s.incidents|
    ensures s.queries <= DetectedVisit(s, i, ips, port, now).queries
  {
  }

  lemma DetectedVisitEvolves(s: Server, i: nat, ips: seq<string>, port: Option<int>, now: real)
    requires i < |s.incidents|
    ensures Evolves(s, DetectedVisit(s, i, ips, port, now))
  {
    DetectedVisitQueries(s, i, ips, port, now);
  }

  lemma SweepingVisitEvolves(s: Server, i: nat, now: real)
    requires i < |s.incidents|
    ensures Evolves(s, SweepingVisit(s, i, now))
  {
    hide TracesDone;
  }

  lemma PullSideEvolves(s: Server, i: nat, side: Side, c: Chains, now: real)
    requires i < |s.incidents|
    ensures Evolves(s, PullSide(s, i, side, c, now)) && PullSide(s, i, side, c, now).incidents == s.incidents
  {
  }

  lemma ActiveVisitEvolves(s: Server, i: nat, updatedAt: int, c: Chains, now: real)
    requires i < |s.incidents|
    ensures Evolves(s, ActiveVisit(s, i, updatedAt, c, now))
  {
    var mid := PullSide(s, i, Dst, c, now);
    PullSideEvolves(s, i, Dst, c, now);
    PullSideEvolves(mid, i, Src, c, now);
    EvolvesTrans(s, mid, PullSide(mid, i, Src, c, now));
  }

  // ---- every action ----

  lemma StepEvolves(w: World, a: Action)
    requires Enabled(w, a)
    ensures Evolves(w.server, After(w, a).server)
  {
    hide AcceptFinding, ReceiveResults, DetectedVisit, SweepingVisit, ActiveVisit;
    var s := w.server;
    match a
    case Report(f) => AcceptFindingEvolves(s.incidents, f, w.clock);
    case VisitDetected(i, ips, port) => DetectedVisitEvolves(s, i, ips, port, w.clock);
    case VisitSweeping(i) => SweepingVisitEvolves(s, i, w.clock);
    case VisitActive(i, updatedAt, c) => ActiveVisitEvolves(s, i, updatedAt, c, w.clock);
    case Serve(m) => ReceiveResultsEvolve(s, m.results);
    case _ =>
  }

  /** Along every run: no incident changes its identity or forgets a finding; a completed query keeps its first
      result and an unfinished one stays in the table as it was asked; no stored row changes or disappears; no
      watermark regresses. */
  lemma {:induction false} RunEvolves(ws: seq<World>, acts: seq<Action>, i: nat, j: nat)
    requires Run(ws, acts) && i <= j < |ws|
    ensures Evolves(ws[i].server, ws[j].server)
    decreases j - i
  {
    hide After, Enabled, Evolves;
    EvolvesRefl(ws[j].server);
    if i == j {
    } else {
      RunEvolves(ws, acts, i, j - 1);
      StepEvolves(ws[j - 1], acts[j - 1]);
      EvolvesTrans(ws[i].server, ws[j - 1].server, ws[j].server);
    }
  }

  // ---- status order ----

  ghost predicate StatusKept(a: seq<Incident>, b: seq<Incident>) {
    |a| <= |b| && forall i :: 0 <= i < |a| ==> a[i].status.Rank() <= b[i].status.Rank()
  }

  /** Whether a sweeping visit activates its incident. */
  ghost predicate SweepEnds(w: World, i: nat)
    requires i < |w.server.incidents|
  {
    TracesDone(w.server.queries, i) || w.clock - w.server.incidents[i].createdAt as real > QUERY_TIMEOUT
  }

  /** A visit whose incident moved on since the batch was read, so far that the visit's write is a step back. */
  ghost predicate Backward(w: World, a: Action)
    requires Enabled(w, a)
  {
    match a
    case VisitDetected(i, _, _) => StatusAt(w.server, i) in {Active, Closed}
    case VisitSweeping(i) => StatusAt(w.server, i) == Closed && SweepEnds(w, i)
    case _ => false
  }

  lemma MatchStatus(incs: seq<Incident>, f: Finding, m: Match, now: real, i: nat)
    requires i < |GroupMatch(incs, f, m, now)|
    ensures if i < |incs| then GroupMatch(incs, f, m, now)[i].status == incs[i].status
            else GroupMatch(incs, f, m, now)[i].status == Detected
  {
    hide FindCampaign, HasIncidentFor;
  }

  lemma {:induction false} MatchesStatus(incs: seq<Incident>, f: Finding, n: nat, now: real, i: nat)
    requires n <= |f.matches| && i < |GroupMatches(incs, f, n, now)|
    ensures if i < |incs| then GroupMatches(incs, f, n, now)[i].status == incs[i].status
            else GroupMatches(incs, f, n, now)[i].status == Detected
  {
    hide GroupMatch;
    if n == 0 {
    } else {
      var before := GroupMatches(incs, f, n - 1, now);
      GroupMatchesEvolve(incs, f, n - 1, now);
      MatchStatus(before, f, f.matches[n - 1], now, i);
      if i < |before| { MatchesStatus(incs, f, n - 1, now, i); }
    }
  }

  /** A finding changes no status, and what it opens is detected. */
  lemma FindingStatus(incs: seq<Incident>, f: Finding, now: real, i: nat)
    requires i < |AcceptFinding(incs, f, now)|
    ensures if i < |incs| then AcceptFinding(incs, f, now)[i].status == incs[i].status
            else AcceptFinding(incs, f, now)[i].status == Detected
  {
    var tagged := FollowOn(incs, f.agent, f.id, f.severity, now);
    if i < |GroupMatches(tagged, f, |f.matches|, now)| { MatchesStatus(tagged, f, |f.matches|, now, i); }
  }

  lemma {:induction false} ReceiveKeepsIncidents(s: Server, rs: seq<QueryResult>)
    ensures ReceiveResults(s, rs).incidents == s.incidents
  {
    if rs == [] {
    } else {
      ReceiveKeepsIncidents(s, rs[..|rs| - 1]);
    }
  }

  /** The status of every old incident after an action: only visits and closings change one. */
  lemma StatusAfter(w: World, a: Action, i: nat)
    requires Enabled(w, a) && i < |w.server.incidents|
    ensures i < |After(w, a).server.incidents|
    ensures After(w, a).server.incidents[i].status ==
            match a
            case VisitDetected(j, _, _) => if i == j then Sweeping else StatusAt(w.server, i)
            case VisitSweeping(j) => if i == j && SweepEnds(w, j) then Active else StatusAt(w.server, i)
            case VisitActive(j, at, _) => if i == j && w.clock - at as real > AUTO_CLOSE then Closed else StatusAt(w.server, i)
            case Close(j) => if i == j then Closed else StatusAt(w.server, i)
            case _ => StatusAt(w.server, i)
  {
    hide AcceptFinding, ReceiveResults, PullSide;
    StepEvolves(w, a);
    match a
    case Report(f) => FindingStatus(w.server.incidents, f, w.clock, i);
    case Serve(m) => ReceiveKeepsIncidents(w.server, m.results);
    case VisitActive(j, _, c) =>
      PullSideEvolves(w.server, j, Dst, c, w.clock);
      PullSideEvolves(PullSide(w.server, j, Dst, c, w.clock), j, Src, c, w.clock);
    case _ =>
  }

  /** Exactly the backward visits move a status back. */
  lemma StepStatusExact(w: World, a: Action)
    requires Enabled(w, a)
    ensures StatusKept(w.server.incidents, After(w, a).server.incidents) <==> !Backward(w, a)
  {
    hide After;
    var s, t := w.server.incidents, After(w, a).server.incidents;
    forall i | 0 <= i < |s|
      ensures i < |t| && (t[i].status.Rank() < s[i].status.Rank() <==>
                Backward(w, a) && ((a.VisitDetected? && a.inc == i) || (a.VisitSweeping? && a.inc == i))) {
      StatusAfter(w, a, i);
    }
    StepEvolves(w, a);
    if Backward(w, a) { assert t[a.inc].status.Rank() < s[a.inc].status.Rank(); }
  }

  /** It happens: an incident that an administrator closes after the batch was read is swept again by its visit. */
  lemma BackwardVisitHappens(f: Finding) returns (ws: seq<World>, acts: seq<Action>)
    requires Lower(f.severity) in INCIDENT_SEVERITIES && f.matches == [] && f.vertical
    ensures Run(ws, acts) && Init(ws[0]) && |acts| == 3 && Backward(ws[2], acts[2])
    ensures StatusAt(ws[2].server, 0) == Closed && StatusAt(ws[3].server, 0) == Sweeping
  {
    var w0 := World(0.0, Server([], [], map[], map[]), map[], {});
    var w1 := After(w0, Report(f));
    assert FindCampaign([], {f.agent}, {}, w0.clock.Floor - CAMPAIGN_WINDOW) == None;
    assert FollowOn([], f.agent, f.id, f.severity, w0.clock) == [];
    var w2 := After(w1, Close(0));
    acts := [Report(f), Close(0), VisitDetected(0, [], None)];
    ws := [w0, w1, w2, After(w2, acts[2])];
  }

  /** A run without backward visits moves no status back. */
  lemma {:induction false} RunStatus(ws: seq<World>, acts: seq<Action>, i: nat, j: nat)
    requires Run(ws, acts) && i <= j < |ws|
    requires forall k :: i <= k < j ==> !Backward(ws[k], acts[k])
    ensures StatusKept(ws[i].server.incidents, ws[j].server.incidents)
    decreases j - i
  {
    hide After, Enabled, Backward;
    if i == j {
    } else {
      RunStatus(ws, acts, i, j - 1);
      StepStatusExact(ws[j - 1], acts[j - 1]);
    }
  }

  // ---- delivery ----

  lemma {:induction false} ReceivedAreComplete(s: Server, rs: seq<QueryResult>, r: QueryResult)
    requires r in rs && r.id < |s.queries|
    ensures |ReceiveResults(s, rs).queries| == |s.queries| && ReceiveResults(s, rs).queries[r.id].result.Some?
  {
    var init, last := rs[..|rs| - 1], rs[|rs| - 1];
    var mid := ReceiveResults(s, init);
    ReceiveResultsEvolve(s, init);
    ReceiveKeepsCount(s, init);
    if r == last {
    } else {
      assert rs == init + [last];
      ReceivedAreComplete(s, init, r);
    }
    ReceiveResultEvolves(mid, last);
    assert QueryEvolves(mid.queries[r.id], ReceiveResult(mid, last).queries[r.id]);
  }

  lemma {:induction false} ReceiveKeepsCount(s: Server, rs: seq<QueryResult>)
    ensures |ReceiveResults(s, rs).queries| == |s.queries|
  {
    if rs == [] {
    } else {
      ReceiveKeepsCount(s, rs[..|rs| - 1]);
    }
  }

  /** While an agent does not send, its buffer of results only grows. */
  lemma {:induction false} BufferGrows(ws: seq<World>, acts: seq<Action>, b: AgentId, i: nat, j: nat)
    requires Run(ws, acts) && i <= j < |ws|
    requires forall k :: i <= k < j ==> acts[k] != Send(b)
    ensures AgentAt(ws[i].agents, b).results <= AgentAt(ws[j].agents, b).results
    decreases j - i
  {
    if i == j {
    } else {
      BufferGrows(ws, acts, b, i, j - 1);
      AgentsAfter(ws[j - 1], acts[j - 1], b);
    }
  }

  /**
   * A heartbeat of `b` within a run: the server serves its request at `served`, the agent applies the response at
   * `applied`, and the query `id` executes if it is among those handed out. Others may raise, and anything may happen in
   * between.
   */
  ghost predicate Delivered(ws: seq<World>, acts: seq<Action>, b: AgentId, served: nat, applied: nat, id: nat)
    requires Run(ws, acts)
  {
    && served < applied < |acts|
    && acts[served].Serve? && acts[served].m.agent == b
    && var response := Response(b, Handout(ws[served + 1].server.queries, b));
      && acts[applied].Apply? && acts[applied].m == response
      && ((exists d :: d in response.queries && d.id == id) ==> id in acts[applied].outcomes)
  }

  /** After a delivered heartbeat a query the server had for the agent is complete or its result is buffered. */
  lemma DeliveredBuffers(ws: seq<World>, acts: seq<Action>, b: AgentId, served: nat, applied: nat, id: nat)
    requires Run(ws, acts) && Delivered(ws, acts, b, served, applied, id)
    requires id < |ws[served].server.queries| && ws[served].server.queries[id].agent == b
    ensures id < |ws[applied + 1].server.queries|
    ensures ws[applied + 1].server.queries[id].result.None? ==>
              exists r :: r in AgentAt(ws[applied + 1].agents, b).results && r.id == id
  {
    hide Executed, Handout, ReceiveResults, ServerAfter, Evolves, Enabled;
    var qs := ws[served + 1].server.queries;
    KeptQuery(ws, acts, served, served + 1, id);
    KeptQuery(ws, acts, served + 1, applied + 1, id);
    if qs[id].result.None? {
      HandoutExact(qs, b);
      var ds, outcomes := Handout(qs, b), acts[applied].outcomes;
      assert Delivery(id, qs[id].kind, qs[id].params) in ds;
      ExecutedExact(ds, outcomes);
      assert QueryResult(id, outcomes[id]) in Executed(ds, outcomes);
      AgentsAfter(ws[applied], acts[applied], b);
    }
  }

  lemma KeptQuery(ws: seq<World>, acts: seq<Action>, i: nat, j: nat, id: nat)
    requires Run(ws, acts) && i <= j < |ws| && id < |ws[i].server.queries|
    ensures id < |ws[j].server.queries| && QueryEvolves(ws[i].server.queries[id], ws[j].server.queries[id])
  {
    hide Run, QueryEvolves;
    RunEvolves(ws, acts, i, j);
  }

  /**
   * Redelivery repairs loss. Let one heartbeat of an agent be delivered, and let its next one be sent and served; other
   * agents, findings, the orchestrator and lost or repeated messages may act anywhere in between. Then a query that the
   * server had for the agent when it served the first, and that did not raise if it was handed out, is complete.
   */
  lemma TwoHeartbeatsComplete(ws: seq<World>, acts: seq<Action>, b: AgentId, served: nat, applied: nat, sent: nat,
                              arrived: nat, id: nat)
    requires Run(ws, acts) && Delivered(ws, acts, b, served, applied, id)
    requires applied < sent < arrived < |acts|
    requires acts[sent] == Send(b) && forall k :: applied < k < sent ==> acts[k] != Send(b)
    requires acts[arrived] == Serve(Request(b, AgentAt(ws[sent].agents, b).results))
    requires id < |ws[served].server.queries| && ws[served].server.queries[id].agent == b
    ensures id < |ws[arrived + 1].server.queries| && ws[arrived + 1].server.queries[id].result.Some?
  {
    hide Evolves, AgentAt, Enabled;
    DeliveredBuffers(ws, acts, b, served, applied, id);
    KeptQuery(ws, acts, applied + 1, arrived, id);
    KeptQuery(ws, acts, arrived, arrived + 1, id);
    if ws[applied + 1].server.queries[id].result.None? {
      BufferGrows(ws, acts, b, applied + 1, sent);
      var r :| r in AgentAt(ws[applied + 1].agents, b).results && r.id == id;
      var rs := AgentAt(ws[sent].agents, b).results;
      assert r in rs;
      ReceivedAreComplete(ws[arrived].server, rs, r);
    }
  }

  /** A lost request costs one round, never the query: it is still pending and handed out again. */
  lemma UnfinishedIsHandedOut(w: World, m: Message, id: nat)
    requires Enabled(w, Serve(m)) && id < |w.server.queries| && w.server.queries[id].agent == m.agent
    ensures var w' := After(w, Serve(m));
            && id < |w'.server.queries|
            && (w'.server.queries[id].result.Some? || exists ds: seq<Delivery>, d :: Response(m.agent, ds) in w'.net && d in ds && d.id == id)
  {
    var w' := After(w, Serve(m));
    StepEvolves(w, Serve(m));
    assert QueryEvolves(w.server.queries[id], w'.server.queries[id]);
    HandoutExact(w'.server.queries, m.agent);
    if w'.server.queries[id].result.None? {
      var ds := Handout(w'.server.queries, m.agent);
      var d := Delivery(id, w'.server.queries[id].kind, w'.server.queries[id].params);
      assert Response(m.agent, ds) in w'.net && d in ds && d.id == id;
    }
  }
}

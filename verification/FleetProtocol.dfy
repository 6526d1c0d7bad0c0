/** The whole fleet as a step system: one server, its agents, and a network that may lose, delay,
    reorder or repeat heartbeat requests and responses. */
module FleetProtocol {
  import opened Options
  import opened FlightRecorder
  import opened FleetModel
  import opened FleetAgent

  /** `history` is every row ever written, at its id; `table` is what the retention pruning left. */
  datatype Agent = Agent(table: seq<Row>, history: seq<Row>, results: seq<QueryResult>)

  datatype Message = Request(agent: AgentId, results: seq<QueryResult>)
                   | Response(agent: AgentId, queries: seq<Delivery>)

  /** Nothing leaves `net`: a message that is never received is lost, one received twice is repeated. */
  datatype World = World(clock: real, server: Server, agents: map<AgentId, Agent>, net: set<Message>)

  datatype Action =
    | Tick(now: real)
    | Report(finding: Finding)
    | VisitDetected(inc: nat, ips: seq<string>, port: Option<int>)
    | VisitSweeping(inc: nat)
    | VisitActive(inc: nat, updatedAt: int, chains: Chains)
    | Close(inc: nat)
    | TraceFinding(agent: AgentId, name: string, kind: Kind, params: Params)
    | ManualPull(inc: nat, side: Side, chains: Chains)
    | Append(agent: AgentId, event: Event)
    | Prune(agent: AgentId, cutoff: real)
    | Send(agent: AgentId)
    | Serve(m: Message)
    | Apply(m: Message, outcomes: map<nat, Payload>, resolved: map<nat, set<int>>)

  function AgentAt(agents: map<AgentId, Agent>, a: AgentId): Agent {
    if a in agents then agents[a] else Agent([], [], [])
  }

  ghost predicate Init(w: World) {
    w.clock >= 0.0 && w.server == Server([], [], map[], map[]) && w.agents == map[] && w.net == {}
  }

  function Deliveries(qs: seq<Query>, ids: seq<nat>): seq<Delivery>
    requires forall i :: i in ids ==> i < |qs|
  {
    seq(|ids|, k requires 0 <= k < |ids| => assert ids[k] in ids; Delivery(ids[k], qs[ids[k]].kind, qs[ids[k]].params))
  }

  lemma {:induction false} PendingExact(qs: seq<Query>, agent: AgentId)
    ensures forall i: nat :: i in PendingFor(qs, agent) <==> i < |qs| && qs[i].agent == agent && qs[i].result.None?
  {
    if qs == [] {
    } else {
      var init := qs[..|qs| - 1];
      PendingExact(init, agent);
      assert forall i: nat :: i < |init| ==> init[i] == qs[i];
    }
  }

  function Handout(qs: seq<Query>, agent: AgentId): seq<Delivery> {
    PendingExact(qs, agent);
    Deliveries(qs, PendingFor(qs, agent))
  }

  /** A response hands out exactly the agent's unfinished queries. */
  lemma HandoutExact(qs: seq<Query>, agent: AgentId)
    ensures forall d :: d in Handout(qs, agent) ==>
              d.id < |qs| && qs[d.id].agent == agent && qs[d.id].result.None?
              && d.kind == qs[d.id].kind && d.params == qs[d.id].params
    ensures forall i :: 0 <= i < |qs| && qs[i].agent == agent && qs[i].result.None? ==>
              Delivery(i, qs[i].kind, qs[i].params) in Handout(qs, agent)
  {
    PendingExact(qs, agent);
    var ids := PendingFor(qs, agent);
    forall d | d in Handout(qs, agent)
      ensures d.id in ids && d.kind == qs[d.id].kind && d.params == qs[d.id].params {
      var k :| 0 <= k < |ids| && Handout(qs, agent)[k] == d;
      assert ids[k] in ids;
    }
    forall i | 0 <= i < |qs| && qs[i].agent == agent && qs[i].result.None?
      ensures Delivery(i, qs[i].kind, qs[i].params) in Handout(qs, agent) {
      assert i in ids;
      var k :| 0 <= k < |ids| && ids[k] == i;
      assert Handout(qs, agent)[k] == Delivery(i, qs[i].kind, qs[i].params);
    }
  }

  /** A surveillance pull, when it succeeds, returns what the agent's table holds at that moment for the filter's
      addresses and users and for the PIDs that its anchors resolve to at that moment. */
  ghost predicate TruthfulOutcomes(agent: Agent, ds: seq<Delivery>, outcomes: map<nat, Payload>, resolved: map<nat, set<int>>) {
    forall d :: d in ds && d.kind == PullSurveillance && d.params.Pull? && d.id in outcomes ==>
      && d.id in resolved && Resolution(d.params.filter, resolved[d.id])
      && outcomes[d.id] == Records(Pulled(agent.table, d.params.filter.(pids := resolved[d.id]), d.params.since, d.params.limit))
  }

  function StatusAt(s: Server, i: nat): Status
    requires i < |s.incidents|
  {
    s.incidents[i].status
  }

  /** When an action can happen. A visit writes without looking at the status again: the orchestrator tested it when it
      read its batch of rows, and by the time of the visit the incident may have moved on. */
  ghost predicate Enabled(w: World, a: Action) {
    var s := w.server;
    match a
    case Tick(now) => now >= w.clock
    case Report(_) => true
    case VisitDetected(i, _, _) => i < |s.incidents|
    case VisitSweeping(i) => i < |s.incidents|
    case VisitActive(i, _, _) => i < |s.incidents|
    case Close(i) => i < |s.incidents|
    case TraceFinding(_, _, kind, _) => kind in {VictimTrace, SourceTrace}
    case ManualPull(i, side, c) => i < |s.incidents| && StatusAt(s, i) != Active && s.incidents[i].Agent(side) != ""
                                   && !s.incidents[i].Watched(side, c).Empty()
    case Append(b, e) =>
      var h := AgentAt(w.agents, b).history;
      h == [] || e.ts >= h[|h| - 1].Ts()
    case Prune(_, _) => true
    case Send(_) => true
    case Serve(m) => m in w.net && m.Request?
    case Apply(m, outcomes, resolved) =>
      m in w.net && m.Response? && TruthfulOutcomes(AgentAt(w.agents, m.agent), m.queries, outcomes, resolved)
  }

  ghost function ManualPulled(s: Server, i: nat, side: Side, c: Chains, now: real): Server
    requires i < |s.incidents|
  {
    var params := Pull(s.incidents[i].Watched(side, c), None, PULL_LIMIT);
    s.(queries := Enqueue(s.queries, s.incidents[i].Agent(side), Surv(i, side), PullSurveillance, params, now))
  }

  /** The server's tables after an action. */
  ghost function ServerAfter(w: World, a: Action): Server
    requires Enabled(w, a)
  {
    var s := w.server;
    match a
    case Report(f) => s.(incidents := AcceptFinding(s.incidents, f, w.clock))
    case VisitDetected(i, ips, port) => DetectedVisit(s, i, ips, port, w.clock)
    case VisitSweeping(i) => SweepingVisit(s, i, w.clock)
    case VisitActive(i, updatedAt, c) => ActiveVisit(s, i, updatedAt, c, w.clock)
    case Close(i) => SetStatus(s, i, Closed, w.clock)
    case TraceFinding(agent, name, kind, params) =>
      s.(queries := Enqueue(s.queries, agent, OfFinding(name), kind, params, w.clock))
    case ManualPull(i, side, c) => ManualPulled(s, i, side, c, w.clock)
    case Serve(m) => ReceiveResults(s, m.results)
    case _ => s
  }

  /** An agent after an action. */
  ghost function AgentAfter(w: World, a: Action, b: AgentId): Agent
    requires Enabled(w, a)
  {
    var g := AgentAt(w.agents, b);
    match a
    case Append(c, e) =>
      if b == c then g.(table := g.table + [Row(|g.history|, e)], history := g.history + [Row(|g.history|, e)]) else g
    case Prune(c, cutoff) => if b == c then g.(table := Recent(g.table, cutoff)) else g
    case Send(c) => if b == c then g.(results := []) else g
    case Apply(m, outcomes, _) => if b == m.agent then g.(results := g.results + Executed(m.queries, outcomes)) else g
    case _ => g
  }

  ghost function Actor(a: Action): set<AgentId> {
    match a
    case Append(c, _) => {c}
    case Prune(c, _) => {c}
    case Send(c) => {c}
    case Apply(m, _, _) => {m.agent}
    case _ => {}
  }

  ghost function Sent(w: World, a: Action): set<Message>
    requires Enabled(w, a)
  {
    match a
    case Send(c) => {Request(c, AgentAt(w.agents, c).results)}
    case Serve(m) => {Response(m.agent, Handout(ServerAfter(w, a).queries, m.agent))}
    case _ => {}
  }

  ghost function After(w: World, a: Action): World
    requires Enabled(w, a)
  {
    World(if a.Tick? then a.now else w.clock,
          ServerAfter(w, a),
          map b | b in w.agents.Keys + Actor(a) :: AgentAfter(w, a, b),
          w.net + Sent(w, a))
  }

  lemma AgentsAfter(w: World, a: Action, b: AgentId)
    requires Enabled(w, a)
    ensures AgentAt(After(w, a).agents, b) == AgentAfter(w, a, b)
  {
  }

  /** `ws[0]`, then one world per action. */
  ghost predicate Run(ws: seq<World>, acts: seq<Action>) {
    && |ws| == |acts| + 1
    && forall i :: 0 <= i < |acts| ==> Enabled(ws[i], acts[i]) && ws[i + 1] == After(ws[i], acts[i])
  }
}

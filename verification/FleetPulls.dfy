/** Surveillance pulls over every run: nothing below a watermark is missing from the log store,
    the watermark is the greatest stored timestamp, and pulls of a side are serialized. */
module FleetPulls {
  import opened Options
  import opened FlightRecorder
  import opened FleetModel
  import opened FleetAgent
  import opened FleetProtocol
  import opened FleetHistory

  ghost function Watermark(s: Server, i: nat, side: Side): real {
    PullStateOf(s.pulls, PullKey(i, side)).lastRecordTs
  }

  // ---- agents ----

  ghost predicate RowsKnown(g: Agent, rows: seq<Row>) {
    forall x :: x in rows ==> x.id < |g.history| && g.history[x.id] == x
  }

  /** The table holds rows of the history, and rows are written in timestamp order. */
  ghost predicate AgentOk(g: Agent) {
    && UniqueIds(g.table) && RowsKnown(g, g.table)
    && (forall i :: 0 <= i < |g.history| ==> g.history[i].id == i)
    && (forall i, j :: 0 <= i < j < |g.history| ==> g.history[i].Ts() <= g.history[j].Ts())
  }

  /** `g'` has more history, and any row its table gained is at least as new as all older history. */
  ghost predicate AgentEvolves(g: Agent, g': Agent) {
    && g.history <= g'.history
    && forall r :: r in g'.table ==> r in g.table || forall x :: x in g.history ==> x.Ts() <= r.Ts()
  }

  ghost predicate AgentsEvolve(a: map<AgentId, Agent>, b: map<AgentId, Agent>) {
    forall c :: AgentEvolves(AgentAt(a, c), AgentAt(b, c))
  }

  ghost predicate AgentsOk(a: map<AgentId, Agent>) {
    forall c :: AgentOk(AgentAt(a, c))
  }

  lemma AppendOk(g: Agent, e: Event)
    requires AgentOk(g) && (g.history == [] || e.ts >= g.history[|g.history| - 1].Ts())
    ensures var r := Row(|g.history|, e);
            var g' := g.(table := g.table + [r], history := g.history + [r]);
            AgentOk(g') && AgentEvolves(g, g')
  {
    var r := Row(|g.history|, e);
    forall i | 0 <= i < |g.table| ensures g.table[i].id != r.id { assert g.table[i] in g.table; }
  }

  lemma PruneOk(g: Agent, cutoff: real)
    requires AgentOk(g)
    ensures var g' := g.(table := Recent(g.table, cutoff)); AgentOk(g') && AgentEvolves(g, g')
  {
    RecentMembers(g.table, cutoff);
    RecentUnique(g.table, cutoff);
  }

  lemma StepAgents(w: World, a: Action)
    requires Enabled(w, a) && AgentsOk(w.agents)
    ensures AgentsOk(After(w, a).agents) && AgentsEvolve(w.agents, After(w, a).agents)
  {
    hide After, ServerAfter;
    forall c ensures AgentOk(AgentAt(After(w, a).agents, c))
                  && AgentEvolves(AgentAt(w.agents, c), AgentAt(After(w, a).agents, c)) {
      AgentsAfter(w, a, c);
      assert AgentOk(AgentAt(w.agents, c));
      match a
      case Append(b, e) => if b == c { AppendOk(AgentAt(w.agents, c), e); }
      case Prune(b, cutoff) => if b == c { PruneOk(AgentAt(w.agents, c), cutoff); }
      case _ =>
    }
  }

  // ---- results on their way ----

  /** Every wanted row still on the agent is in `rows` or at least as new as all of them. */
  ghost predicate CompleteUpTo(g: Agent, rows: seq<Row>, f: Filter, since: Option<real>) {
    forall r :: r in g.table && f.Wants(since, r.event) && r !in rows ==> forall x :: x in rows ==> x.Ts() <= r.Ts()
  }

  /**
   * None promises nothing. Some(wanted) says that no pull of the run hits its row limit and that every pull of a side
   * asks for at least what `wanted` asks for on that side.
   */
  type Scope = Option<PullKey -> Filter>

  ghost predicate Includes(f: Filter, wanted: Filter) {
    && wanted.pids <= f.pids
    && (forall ip :: ip in wanted.ips ==> ip in f.ips)
    && (forall user :: user in wanted.users ==> user in f.users)
  }

  lemma IncludedClause(f: Filter, wanted: Filter, c: Clause, e: Event)
    requires Includes(f, wanted) && c in wanted.Clauses() && Hits(c, e)
    ensures exists d :: d in f.Clauses() && Hits(d, e)
  {
    match c
    case ByPids(_) =>
      assert f.Clauses()[0] == ByPids(f.pids);
      assert Hits(ByPids(f.pids), e);
    case ByIp(ip) =>
      assert ip in wanted.ips && ip in f.ips;
      var i :| 0 <= i < |f.ips| && f.ips[i] == ip;
      assert f.Clauses()[(if f.pids == {} then 0 else 1) + i] == c;
    case ByUser(user) =>
      assert user in wanted.users && user in f.users;
      var i :| 0 <= i < |f.users| && f.users[i] == user;
      assert f.Clauses()[(if f.pids == {} then 0 else 1) + |f.ips| + i] == c;
  }

  /** A filter that includes another wants every row that the other wants. */
  lemma WantsGrows(f: Filter, wanted: Filter, since: Option<real>, e: Event)
    requires Includes(f, wanted) && wanted.Wants(since, e)
    ensures f.Wants(since, e)
  {
    var c :| c in wanted.Clauses() && Hits(c, e);
    IncludedClause(f, wanted, c, e);
  }

  ghost predicate PullResultOk(g: Agent, q: Query, p: Payload, scope: Scope) {
    q.kind == PullSurveillance && q.params.Pull? ==>
      p.Records? && RowsKnown(g, p.rows) && (scope.Some? && q.key.Surv? ==>
        CompleteUpTo(g, p.rows, scope.value(PullKey(q.key.inc, q.key.side)), q.params.since))
  }

  ghost predicate ResultOk(s: Server, agents: map<AgentId, Agent>, b: AgentId, r: QueryResult, scope: Scope) {
    r.id < |s.queries| && s.queries[r.id].agent == b && PullResultOk(AgentAt(agents, b), s.queries[r.id], r.payload, scope)
  }

  ghost predicate ResultsOk(s: Server, agents: map<AgentId, Agent>, b: AgentId, rs: seq<QueryResult>, scope: Scope) {
    forall r :: r in rs ==> ResultOk(s, agents, b, r, scope)
  }

  ghost predicate DeliveryOk(s: Server, b: AgentId, d: Delivery) {
    d.id < |s.queries| && s.queries[d.id].agent == b && d.kind == s.queries[d.id].kind && d.params == s.queries[d.id].params
  }

  ghost predicate MessageOk(s: Server, agents: map<AgentId, Agent>, m: Message, scope: Scope) {
    match m
    case Request(b, rs) => ResultsOk(s, agents, b, rs, scope)
    case Response(b, ds) => forall d :: d in ds ==> DeliveryOk(s, b, d)
  }

  lemma PullResultKept(g: Agent, g': Agent, q: Query, p: Payload, scope: Scope)
    requires PullResultOk(g, q, p, scope) && AgentEvolves(g, g')
    ensures PullResultOk(g', q, p, scope)
  {
    if q.kind == PullSurveillance && q.params.Pull? {
      forall x | x in p.rows ensures x.id < |g'.history| && g'.history[x.id] == x { assert g.history[x.id] == x; }
      if scope.Some? && q.key.Surv? {
        var f := scope.value(PullKey(q.key.inc, q.key.side));
        forall r, x | r in g'.table && f.Wants(q.params.since, r.event) && r !in p.rows && x in p.rows
          ensures x.Ts() <= r.Ts() {
          assert x in g.history;
        }
      }
    }
  }

  lemma ResultKept(s: Server, t: Server, a: map<AgentId, Agent>, a': map<AgentId, Agent>, b: AgentId, r: QueryResult, scope: Scope)
    requires ResultOk(s, a, b, r, scope) && QueriesEvolve(s.queries, t.queries) && AgentsEvolve(a, a')
    ensures ResultOk(t, a', b, r, scope)
  {
    assert QueryEvolves(s.queries[r.id], t.queries[r.id]);
    assert AgentEvolves(AgentAt(a, b), AgentAt(a', b));
    PullResultKept(AgentAt(a, b), AgentAt(a', b), s.queries[r.id], r.payload, scope);
  }

  lemma ResultsKept(s: Server, t: Server, a: map<AgentId, Agent>, a': map<AgentId, Agent>, b: AgentId, rs: seq<QueryResult>, scope: Scope)
    requires ResultsOk(s, a, b, rs, scope) && QueriesEvolve(s.queries, t.queries) && AgentsEvolve(a, a')
    ensures ResultsOk(t, a', b, rs, scope)
  {
    forall r | r in rs ensures ResultOk(t, a', b, r, scope) { ResultKept(s, t, a, a', b, r, scope); }
  }

  lemma MessageKept(s: Server, t: Server, a: map<AgentId, Agent>, a': map<AgentId, Agent>, m: Message, scope: Scope)
    requires MessageOk(s, a, m, scope) && QueriesEvolve(s.queries, t.queries) && AgentsEvolve(a, a')
    ensures MessageOk(t, a', m, scope)
  {
    match m
    case Request(b, rs) => ResultsKept(s, t, a, a', b, rs, scope);
    case Response(b, ds) =>
      forall d | d in ds ensures DeliveryOk(t, b, d) { assert QueryEvolves(s.queries[d.id], t.queries[d.id]); }
  }

  // ---- the server's side ----

  /** A pull asks the right agent, from no later than the watermark. */
  ghost predicate PullQueryOk(s: Server, q: Query) {
    q.kind == PullSurveillance ==>
      && q.key.Surv? && q.key.inc < |s.incidents| && q.params.Pull?
      && q.agent == s.incidents[q.key.inc].Agent(q.key.side)
      && q.params.limit == PULL_LIMIT
      && (q.params.since.Some? ==> 0.0 < q.params.since.value <= Watermark(s, q.key.inc, q.key.side))
  }

  ghost predicate PullQueriesOk(s: Server) {
    && (forall k :: k in s.pulls ==> k.inc < |s.incidents| && s.pulls[k].lastRecordTs >= 0.0)
    && (forall n :: 0 <= n < |s.queries| ==> PullQueryOk(s, s.queries[n]))
  }

  ghost predicate LogsKnown(s: Server, agents: map<AgentId, Agent>) {
    forall k :: k in s.logs ==>
      && k.inc < |s.incidents| && s.logs[k].row.id == k.logId
      && RowsKnown(AgentAt(agents, k.agent), [s.logs[k].row])
  }

  /** A watermark is the timestamp of something already written. */
  ghost predicate Bounded(s: Server, agents: map<AgentId, Agent>, i: nat, side: Side)
    requires i < |s.incidents|
  {
    var h := AgentAt(agents, s.incidents[i].Agent(side)).history;
    Watermark(s, i, side) > 0.0 ==> h != [] && Watermark(s, i, side) <= h[|h| - 1].Ts()
  }

  /** Every row of the side's agent below the watermark that is wanted is stored. */
  ghost predicate NoGap(s: Server, agents: map<AgentId, Agent>, i: nat, side: Side, wanted: Filter)
    requires i < |s.incidents|
  {
    var b := s.incidents[i].Agent(side);
    Watermark(s, i, side) > 0.0 ==>
      forall r :: r in AgentAt(agents, b).table && wanted.Wants(None, r.event) ==>
        r.Ts() < Watermark(s, i, side) ==> LogKey(i, b, r.id) in s.logs
  }

  ghost predicate StoredFor(s: Server, i: nat, side: Side, k: LogKey)
    requires i < |s.incidents|
  {
    k in s.logs && k.inc == i && k.agent == s.incidents[i].Agent(side)
  }

  /** With two different agents, the watermark is the greatest timestamp stored for the side. */
  ghost predicate WatermarkExact(s: Server, i: nat, side: Side)
    requires i < |s.incidents|
  {
    s.incidents[i].src != s.incidents[i].dst ==>
      && (forall k :: StoredFor(s, i, side, k) ==> s.logs[k].side == side && s.logs[k].row.Ts() <= Watermark(s, i, side))
      && (Watermark(s, i, side) > 0.0 ==> exists k :: StoredFor(s, i, side, k) && s.logs[k].row.Ts() == Watermark(s, i, side))
  }

  ghost predicate SideOk(s: Server, agents: map<AgentId, Agent>, i: nat, side: Side, scope: Scope)
    requires i < |s.incidents|
  {
    Bounded(s, agents, i, side) && (scope.Some? ==> NoGap(s, agents, i, side, scope.value(PullKey(i, side)))) && WatermarkExact(s, i, side)
  }

  ghost predicate StoreOk(s: Server, agents: map<AgentId, Agent>, scope: Scope) {
    && PullQueriesOk(s) && LogsKnown(s, agents)
    && forall i, side :: 0 <= i < |s.incidents| ==> SideOk(s, agents, i, side, scope)
  }

  // ---- when only agents move ----

  lemma SideKept(s: Server, a: map<AgentId, Agent>, a': map<AgentId, Agent>, i: nat, side: Side, scope: Scope)
    requires i < |s.incidents| && SideOk(s, a, i, side, scope) && AgentsOk(a) && AgentsOk(a') && AgentsEvolve(a, a')
    ensures SideOk(s, a', i, side, scope)
  {
    var b := s.incidents[i].Agent(side);
    var g, g' := AgentAt(a, b), AgentAt(a', b);
    assert AgentEvolves(g, g') && AgentOk(g) && AgentOk(g');
    if Watermark(s, i, side) > 0.0 {
      var n := |g.history| - 1;
      assert g'.history[n] == g.history[n];
      assert n < |g'.history| - 1 ==> g'.history[n].Ts() <= g'.history[|g'.history| - 1].Ts();
      forall r | r in g'.table && r !in g.table ensures r.Ts() >= Watermark(s, i, side) {
        assert g.history[n] in g.history;
      }
    }
  }

  lemma StoreKept(s: Server, a: map<AgentId, Agent>, a': map<AgentId, Agent>, scope: Scope)
    requires StoreOk(s, a, scope) && AgentsOk(a) && AgentsOk(a') && AgentsEvolve(a, a')
    ensures StoreOk(s, a', scope)
  {
    forall k | k in s.logs ensures RowsKnown(AgentAt(a', k.agent), [s.logs[k].row]) {
      assert AgentEvolves(AgentAt(a, k.agent), AgentAt(a', k.agent));
      assert s.logs[k].row in [s.logs[k].row];
    }
    forall i, side | 0 <= i < |s.incidents| ensures SideOk(s, a', i, side, scope) { SideKept(s, a, a', i, side, scope); }
  }

  // ---- when incidents and queries move but no log arrives ----

  lemma QueryOkKept(s: Server, t: Server, q: Query)
    requires PullQueryOk(s, q) && Evolves(s, t)
    ensures PullQueryOk(t, q)
  {
    if q.kind == PullSurveillance {
      assert IncidentEvolves(s.incidents[q.key.inc], t.incidents[q.key.inc]);
      assert PullStateOf(s.pulls, PullKey(q.key.inc, q.key.side)).lastRecordTs
          <= PullStateOf(t.pulls, PullKey(q.key.inc, q.key.side)).lastRecordTs;
    }
  }

  /** Same logs and watermarks; old queries kept, new ones well formed. */
  ghost predicate Rearranged(s: Server, t: Server) {
    && Evolves(s, t) && t.logs == s.logs
    && (forall k :: k in t.pulls ==> k.inc < |t.incidents|)
    && (forall k :: PullStateOf(t.pulls, k).lastRecordTs == PullStateOf(s.pulls, k).lastRecordTs)
    && (forall n :: |s.queries| <= n < |t.queries| ==> PullQueryOk(t, t.queries[n]))
  }

  lemma RearrangedSide(s: Server, t: Server, agents: map<AgentId, Agent>, i: nat, side: Side, scope: Scope)
    requires i < |s.incidents| && SideOk(s, agents, i, side, scope) && Rearranged(s, t)
    ensures i < |t.incidents| && SideOk(t, agents, i, side, scope)
  {
    assert IncidentEvolves(s.incidents[i], t.incidents[i]);
    assert PullStateOf(t.pulls, PullKey(i, side)).lastRecordTs == PullStateOf(s.pulls, PullKey(i, side)).lastRecordTs;
    assert forall k :: StoredFor(t, i, side, k) <==> StoredFor(s, i, side, k);
    if Watermark(s, i, side) > 0.0 && s.incidents[i].src != s.incidents[i].dst {
      var k :| StoredFor(s, i, side, k) && s.logs[k].row.Ts() == Watermark(s, i, side);
      assert StoredFor(t, i, side, k);
    }
  }

  lemma FreshSide(s: Server, t: Server, agents: map<AgentId, Agent>, i: nat, side: Side, scope: Scope)
    requires PullQueriesOk(s) && LogsKnown(s, agents) && Rearranged(s, t) && |s.incidents| <= i < |t.incidents|
    ensures SideOk(t, agents, i, side, scope)
  {
    assert PullStateOf(t.pulls, PullKey(i, side)).lastRecordTs == PullStateOf(s.pulls, PullKey(i, side)).lastRecordTs;
    assert PullKey(i, side) !in s.pulls;
    assert forall k :: !StoredFor(t, i, side, k);
  }

  lemma RearrangedStore(s: Server, t: Server, agents: map<AgentId, Agent>, scope: Scope)
    requires StoreOk(s, agents, scope) && Rearranged(s, t)
    ensures StoreOk(t, agents, scope)
  {
    forall i, side | 0 <= i < |t.incidents| ensures SideOk(t, agents, i, side, scope) {
      if i < |s.incidents| { RearrangedSide(s, t, agents, i, side, scope); }
      else { FreshSide(s, t, agents, i, side, scope); }
    }
    forall n | 0 <= n < |t.queries| ensures PullQueryOk(t, t.queries[n]) {
      if n < |s.queries| {
        assert QueryEvolves(s.queries[n], t.queries[n]) && PullQueryOk(s, s.queries[n]);
        QueryOkKept(s, t, s.queries[n]);
      }
    }
    forall k | k in t.pulls ensures t.pulls[k].lastRecordTs >= 0.0 {
      assert PullStateOf(t.pulls, k).lastRecordTs == PullStateOf(s.pulls, k).lastRecordTs;
    }
  }
}

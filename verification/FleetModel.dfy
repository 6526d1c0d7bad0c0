/** The fleet server's tables and what each server operation does to them.
    A row's position stands for its fresh uuid: rows are only ever appended, so no identifier repeats. */
module FleetModel {
  import opened Options
  import opened FlightRecorder
  import opened Text

  type AgentId = string
  type FindingId = string

  datatype Status = Detected | Sweeping | Active | Closed {
    function Rank(): nat {
      match this
      case Detected => 0
      case Sweeping => 1
      case Active => 2
      case Closed => 3
    }
  }

  datatype Side = Src | Dst

  datatype IncidentSort = LateralMovement | VerticalMovement | Campaign

  /** What the graph says about an incident when asked: its chains' PIDs and users, and its source's addresses. */
  datatype Chains = Chains(srcPids: set<int>, dstPids: set<int>, srcUsers: seq<string>, dstUsers: seq<string>,
                           srcIps: seq<string>)

  function Addresses(ip: string): seq<string> { if ip == "" then [] else [ip] }

  datatype Incident = Incident(status: Status, src: AgentId, dst: AgentId, pivot: string, port: Option<int>,
                               createdAt: int, updatedAt: int, findings: seq<FindingId>, followOns: set<FindingId>,
                               sort: IncidentSort, hosts: set<AgentId>, pivots: set<string>)
  {
    function Agent(side: Side): AgentId { if side == Src then src else dst }

    /** What surveillance of a side looks for: the source is watched for the pivot, the target for the source. */
    function Watched(side: Side, c: Chains): Filter {
      if side == Src then Filter(c.srcPids, Addresses(pivot), c.srcUsers) else Filter(c.dstPids, c.srcIps, c.dstUsers)
    }
  }

  datatype Kind = VictimTrace | SourceTrace | PullSurveillance | PullOcsf

  /** The `finding_id` column: what a query was asked for. */
  datatype Key = Victim(inc: nat) | Source(inc: nat) | OcsfDst(inc: nat) | OcsfSrc(inc: nat)
               | Surv(inc: nat, side: Side) | OfFinding(name: string)

  datatype Params = Trace(ips: seq<string>, port: Option<int>)
                  | Pull(filter: Filter, since: Option<real>, limit: nat)

  datatype Payload = Records(rows: seq<Row>) | Other(text: string)

  /** A query is pending exactly until it has a result. */
  datatype Query = Query(agent: AgentId, key: Key, kind: Kind, params: Params, createdAt: int, result: Option<Payload>)

  datatype LogKey = LogKey(inc: nat, agent: AgentId, logId: nat)
  datatype Log = Log(side: Side, row: Row)
  datatype PullKey = PullKey(inc: nat, side: Side)
  datatype PullState = PullState(lastEnqueueAt: int, lastRecordTs: real)

  datatype Server = Server(incidents: seq<Incident>, queries: seq<Query>,
                           logs: map<LogKey, Log>, pulls: map<PullKey, PullState>)

  const PULL_INTERVAL: int := 60
  const PULL_LIMIT: nat := 200
  const OCSF_LIMIT: nat := 300
  const CAMPAIGN_WINDOW: int := 12 * 3600
  const QUERY_TIMEOUT: real := 300.0
  const AUTO_CLOSE: real := (48 * 3600) as real

  // ---- settings_db.py ----

  function Enqueue(qs: seq<Query>, agent: AgentId, key: Key, kind: Kind, params: Params, now: real): seq<Query> {
    qs + [Query(agent, key, kind, params, now.Floor, None)]
  }

  /** Row numbers of the queries waiting for `agent`, oldest first. */
  function PendingFor(qs: seq<Query>, agent: AgentId): seq<nat> {
    if qs == [] then []
    else
      var last := |qs| - 1;
      PendingFor(qs[..last], agent) + if qs[last].agent == agent && qs[last].result.None? then [last] else []
  }

  function Complete(qs: seq<Query>, id: nat, result: Payload): seq<Query> {
    if id < |qs| && qs[id].result.None? then qs[id := qs[id].(result := Some(result))] else qs
  }

  predicate HasPending(qs: seq<Query>, key: Key, kind: Kind) {
    exists i :: 0 <= i < |qs| && qs[i].key == key && qs[i].kind == kind && qs[i].result.None?
  }

  /** Result of the newest query for `key`; None when there is no such query or it is unfinished. */
  function LatestResult(qs: seq<Query>, key: Key, kind: Kind): Option<Payload> {
    if qs == [] then None
    else
      var last := qs[|qs| - 1];
      if last.key == key && last.kind == kind then last.result else LatestResult(qs[..|qs| - 1], key, kind)
  }

  function InsertLog(logs: map<LogKey, Log>, k: LogKey, log: Log): map<LogKey, Log> {
    if k in logs then logs else logs[k := log]
  }

  function UpsertLogs(logs: map<LogKey, Log>, inc: nat, agent: AgentId, side: Side, rows: seq<Row>): map<LogKey, Log> {
    if rows == [] then logs
    else
      var last := rows[|rows| - 1];
      InsertLog(UpsertLogs(logs, inc, agent, side, rows[..|rows| - 1]), LogKey(inc, agent, last.id), Log(side, last))
  }

  function PullStateOf(pulls: map<PullKey, PullState>, k: PullKey): PullState {
    if k in pulls then pulls[k] else PullState(0, 0.0)
  }

  function SetPullState(pulls: map<PullKey, PullState>, k: PullKey, at: Option<int>, ts: Option<real>): map<PullKey, PullState> {
    if k in pulls then
      var was := pulls[k];
      pulls[k := PullState(if at.Some? then at.value else was.lastEnqueueAt,
                           if ts.Some? && ts.value > was.lastRecordTs then ts.value else was.lastRecordTs)]
    else
      pulls[k := PullState(if at.Some? then at.value else 0, if ts.Some? then ts.value else 0.0)]
  }

  // ---- neo4j_client.py: incidents ----

  predicate Eligible(inc: Incident, agents: set<AgentId>, ips: set<string>, cutoff: int) {
    inc.status != Closed && inc.createdAt > cutoff
    && (inc.src in agents || inc.dst in agents || inc.pivot in ips)
  }

  /** The newest open incident inside the window that shares an agent or an address. */
  function FindCampaign(incs: seq<Incident>, agents: set<AgentId>, ips: set<string>, cutoff: int): (r: Option<nat>)
    ensures r.Some? ==> r.value < |incs| && Eligible(incs[r.value], agents, ips, cutoff)
    ensures r.None? ==> forall i :: 0 <= i < |incs| ==> !Eligible(incs[i], agents, ips, cutoff)
  {
    if incs == [] then None
    else if Eligible(incs[|incs| - 1], agents, ips, cutoff) then Some(|incs| - 1)
    else FindCampaign(incs[..|incs| - 1], agents, ips, cutoff)
  }

  function NewIncident(src: AgentId, dst: AgentId, pivot: string, port: Option<int>, fid: FindingId, now: real): Incident {
    Incident(Detected, src, dst, pivot, port, now.Floor, now.Floor, [fid], {}, LateralMovement, {src, dst}, {pivot})
  }

  /** The finding joins with its hosts and its address; more than two hosts make the incident a campaign. */
  function WithFinding(inc: Incident, fid: FindingId, src: AgentId, dst: AgentId, pivot: string, now: real): Incident {
    var hosts := inc.hosts + if dst == "" then {src} else {src, dst};
    inc.(findings := if fid in inc.findings then inc.findings else inc.findings + [fid], updatedAt := now.Floor,
         hosts := hosts, pivots := inc.pivots + if pivot == "" then {} else {pivot},
         sort := if |hosts| > 2 then Campaign else inc.sort)
  }

  function WithStatus(inc: Incident, status: Status, now: real): Incident {
    inc.(status := status, updatedAt := now.Floor)
  }

  predicate HasIncidentFor(incs: seq<Incident>, fid: FindingId, pivot: string) {
    exists i :: 0 <= i < |incs| && fid in incs[i].findings && incs[i].pivot == pivot
  }

  const INCIDENT_SEVERITIES: set<string> := {"medium", "high", "critical"}

  /** Every active incident whose target reports a serious finding is tagged with it. */
  function FollowOn(incs: seq<Incident>, agent: AgentId, fid: FindingId, severity: string, now: real): (r: seq<Incident>)
    ensures |r| == |incs|
  {
    seq(|incs|, i requires 0 <= i < |incs| =>
      if incs[i].dst == agent && incs[i].status == Active && severity in INCIDENT_SEVERITIES
      then incs[i].(followOns := incs[i].followOns + {fid}, updatedAt := now.Floor)
      else incs[i])
  }

  // ---- grpc_service.py: SendFindings for one finding ----

  /** A host of the fleet that owns an address mentioned by the finding. */
  datatype Match = Match(dst: AgentId, pivot: string)

  /** A finding with what the graph says about it: other hosts it reaches, and whether it escalates a user. */
  datatype Finding = Finding(agent: AgentId, id: FindingId, severity: string, port: Option<int>,
                             matches: seq<Match>, vertical: bool)

  function GroupMatch(incs: seq<Incident>, f: Finding, m: Match, now: real): seq<Incident> {
    var existing := FindCampaign(incs, {f.agent, m.dst}, {m.pivot}, now.Floor - CAMPAIGN_WINDOW);
    if existing.Some? then
      incs[existing.value := WithFinding(incs[existing.value], f.id, f.agent, m.dst, m.pivot, now)]
    else if !HasIncidentFor(incs, f.id, m.pivot) then
      incs + [NewIncident(f.agent, m.dst, m.pivot, f.port, f.id, now)]
    else incs
  }

  function GroupMatches(incs: seq<Incident>, f: Finding, n: nat, now: real): seq<Incident>
    requires n <= |f.matches|
  {
    if n == 0 then incs else GroupMatch(GroupMatches(incs, f, n - 1, now), f, f.matches[n - 1], now)
  }

  function GroupVertical(incs: seq<Incident>, f: Finding, now: real): seq<Incident> {
    var existing := FindCampaign(incs, {f.agent}, {}, now.Floor - CAMPAIGN_WINDOW);
    if existing.Some? then
      incs[existing.value := WithFinding(incs[existing.value], f.id, f.agent, f.agent, "", now)]
    else
      incs + [NewIncident(f.agent, f.agent, "", None, f.id, now).(sort := VerticalMovement)]
  }

  function AcceptFinding(incs: seq<Incident>, f: Finding, now: real): seq<Incident> {
    var tagged := FollowOn(incs, f.agent, f.id, f.severity, now);
    if Lower(f.severity) !in INCIDENT_SEVERITIES then tagged
    else if f.matches != [] then GroupMatches(tagged, f, |f.matches|, now)
    else if f.vertical then GroupVertical(tagged, f, now)
    else tagged
  }

  // ---- grpc_service.py: Heartbeat ----

  function MaxTs(rows: seq<Row>): real
    requires rows != []
  {
    var last := rows[|rows| - 1].Ts();
    if |rows| == 1 then last
    else
      var m := MaxTs(rows[..|rows| - 1]);
      if last > m then last else m
  }

  function Ingest(s: Server, inc: nat, side: Side, agent: AgentId, rows: seq<Row>): Server {
    if rows == [] then s
    else s.(logs := UpsertLogs(s.logs, inc, agent, side, rows),
            pulls := if MaxTs(rows) > 0.0
                     then SetPullState(s.pulls, PullKey(inc, side), None, Some(MaxTs(rows))) else s.pulls)
  }

  datatype QueryResult = QueryResult(id: nat, payload: Payload)

  function ReceiveResult(s: Server, r: QueryResult): Server {
    if r.id < |s.queries| && s.queries[r.id].result.None? then
      var q := s.queries[r.id];
      var done := s.(queries := Complete(s.queries, r.id, r.payload));
      if q.kind == PullSurveillance && q.key.Surv? && r.payload.Records?
      then Ingest(done, q.key.inc, q.key.side, q.agent, r.payload.rows)
      else done
    else s
  }

  function ReceiveResults(s: Server, rs: seq<QueryResult>): Server {
    if rs == [] then s else ReceiveResult(ReceiveResults(s, rs[..|rs| - 1]), rs[|rs| - 1])
  }

  // ---- xdr_orchestrator.py ----

  function SetStatus(s: Server, i: nat, status: Status, now: real): Server
    requires i < |s.incidents|
  {
    s.(incidents := s.incidents[i := WithStatus(s.incidents[i], status, now)])
  }

  /** detected -> sweeping for one row: the two traces and the two evidence pulls. */
  function DetectedVisit(s: Server, i: nat, srcIps: seq<string>, port: Option<int>, now: real): Server
    requires i < |s.incidents|
  {
    var inc := s.incidents[i];
    var q1 := Enqueue(s.queries, inc.dst, Victim(i), VictimTrace, Trace(srcIps, port), now);
    var q2 := Enqueue(q1, inc.src, Source(i), SourceTrace, Trace([inc.pivot], port), now);
    var q3 := Enqueue(q2, inc.dst, OcsfDst(i), PullOcsf, Pull(Filter({}, srcIps, []), None, OCSF_LIMIT), now);
    var q4 := Enqueue(q3, inc.src, OcsfSrc(i), PullOcsf, Pull(Filter({}, Addresses(inc.pivot), []), None, OCSF_LIMIT), now);
    SetStatus(s.(queries := q4), i, Sweeping, now)
  }

  predicate TracesDone(qs: seq<Query>, i: nat) {
    LatestResult(qs, Victim(i), VictimTrace).Some? && LatestResult(qs, Source(i), SourceTrace).Some?
  }

  /** sweeping -> active for one row, when both traces are in or the sweep took too long. */
  function SweepingVisit(s: Server, i: nat, now: real): Server
    requires i < |s.incidents|
  {
    if TracesDone(s.queries, i) || now - s.incidents[i].createdAt as real > QUERY_TIMEOUT
    then SetStatus(s, i, Active, now) else s
  }

  predicate Due(s: Server, i: nat, side: Side, now: real) {
    now.Floor - PullStateOf(s.pulls, PullKey(i, side)).lastEnqueueAt >= PULL_INTERVAL
  }

  /** Whether this side of the incident gets a new surveillance pull. */
  predicate WantsPull(s: Server, i: nat, side: Side, c: Chains, now: real)
    requires i < |s.incidents|
  {
    s.incidents[i].Agent(side) != "" && Due(s, i, side, now)
    && !HasPending(s.queries, Surv(i, side), PullSurveillance)
    && !s.incidents[i].Watched(side, c).Empty()
  }

  function EnqueuePull(s: Server, i: nat, side: Side, c: Chains, now: real): Server
    requires i < |s.incidents|
  {
    var ts := PullStateOf(s.pulls, PullKey(i, side)).lastRecordTs;
    var params := Pull(s.incidents[i].Watched(side, c), if ts > 0.0 then Some(ts) else None, PULL_LIMIT);
    s.(queries := Enqueue(s.queries, s.incidents[i].Agent(side), Surv(i, side), PullSurveillance, params, now),
       pulls := SetPullState(s.pulls, PullKey(i, side), Some(now.Floor), None))
  }

  function PullSide(s: Server, i: nat, side: Side, c: Chains, now: real): Server
    requires i < |s.incidents|
  {
    if WantsPull(s, i, side, c, now) then EnqueuePull(s, i, side, c, now) else s
  }

  /** active for one row: close when stale, otherwise surveil both sides for what the chains now name.
      `updatedAt` is the row's value when the list of rows was read. */
  function ActiveVisit(s: Server, i: nat, updatedAt: int, c: Chains, now: real): Server
    requires i < |s.incidents|
  {
    if now - updatedAt as real > AUTO_CLOSE then SetStatus(s, i, Closed, now)
    else PullSide(PullSide(s, i, Dst, c, now), i, Src, c, now)
  }
}

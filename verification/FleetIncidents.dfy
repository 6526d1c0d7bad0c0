/** Invariants of the incident table over every run: campaigns stay apart, sweeps are traced. */
module FleetIncidents {
  import opened Options
  import opened Text
  import opened FleetModel
  import opened FleetProtocol
  import opened FleetHistory

  ghost function Hosts(inc: Incident): set<AgentId> { {inc.src, inc.dst} }

  /** Two open incidents of the same 12 hours have no host in common and enter through different addresses. */
  ghost predicate Apart(a: Incident, b: Incident) {
    a.status != Closed && b.status != Closed && -CAMPAIGN_WINDOW < b.createdAt - a.createdAt < CAMPAIGN_WINDOW ==>
      Hosts(a) !! Hosts(b) && (a.pivot != b.pivot || a.pivot == "")
  }

  ghost predicate CreatedInOrder(incs: seq<Incident>, clock: real) {
    && (forall i :: 0 <= i < |incs| ==> incs[i].createdAt <= clock.Floor)
    && (forall i, j :: 0 <= i < j < |incs| ==> incs[i].createdAt <= incs[j].createdAt)
  }

  ghost predicate Grouped(incs: seq<Incident>) {
    forall i, j :: 0 <= i < j < |incs| ==> Apart(incs[i], incs[j])
  }

  ghost predicate GroupingInv(incs: seq<Incident>, clock: real) {
    CreatedInOrder(incs, clock) && Grouped(incs)
  }

  ghost predicate ClosedKept(a: seq<Incident>, b: seq<Incident>) {
    |a| <= |b| && forall i :: 0 <= i < |a| && a[i].status == Closed ==> b[i].status == Closed
  }

  /** Changes that keep every identity and never reopen an incident keep the incidents apart. */
  lemma SameIncidentsGrouped(a: seq<Incident>, b: seq<Incident>, clock: real)
    requires GroupingInv(a, clock) && |a| == |b| && IncidentsEvolve(a, b) && ClosedKept(a, b)
    ensures GroupingInv(b, clock)
  {
    forall i | 0 <= i < |a| ensures b[i].createdAt == a[i].createdAt { assert IncidentEvolves(a[i], b[i]); }
    forall i, j | 0 <= i < j < |b| ensures Apart(b[i], b[j]) {
      assert IncidentEvolves(a[i], b[i]) && IncidentEvolves(a[j], b[j]);
      assert Apart(a[i], a[j]);
    }
  }

  lemma NewIncidentGrouped(incs: seq<Incident>, inc: Incident, agents: set<AgentId>, ips: set<string>, clock: real)
    requires GroupingInv(incs, clock) && inc.createdAt == clock.Floor
    requires Hosts(inc) <= agents && (inc.pivot in ips || inc.pivot == "")
    requires FindCampaign(incs, agents, ips, clock.Floor - CAMPAIGN_WINDOW).None?
    ensures GroupingInv(incs + [inc], clock)
  {
    forall i | 0 <= i < |incs| ensures Apart(incs[i], inc) {
      assert !Eligible(incs[i], agents, ips, clock.Floor - CAMPAIGN_WINDOW);
    }
  }

  lemma GroupMatchGrouped(incs: seq<Incident>, f: Finding, m: Match, clock: real)
    requires GroupingInv(incs, clock)
    ensures GroupingInv(GroupMatch(incs, f, m, clock), clock)
  {
    var next := GroupMatch(incs, f, m, clock);
    if |next| == |incs| {
      GroupMatchEvolves(incs, f, m, clock);
      forall i | 0 <= i < |incs| ensures next[i].status == incs[i].status { MatchStatus(incs, f, m, clock, i); }
      SameIncidentsGrouped(incs, next, clock);
    } else {
      NewIncidentGrouped(incs, next[|incs|], {f.agent, m.dst}, {m.pivot}, clock);
    }
  }

  lemma {:induction false} GroupMatchesGrouped(incs: seq<Incident>, f: Finding, n: nat, clock: real)
    requires n <= |f.matches| && GroupingInv(incs, clock)
    ensures GroupingInv(GroupMatches(incs, f, n, clock), clock)
  {
    hide GroupMatch, GroupingInv;
    if n == 0 {
    } else {
      GroupMatchesGrouped(incs, f, n - 1, clock);
      GroupMatchGrouped(GroupMatches(incs, f, n - 1, clock), f, f.matches[n - 1], clock);
    }
  }

  lemma GroupVerticalGrouped(incs: seq<Incident>, f: Finding, clock: real)
    requires GroupingInv(incs, clock)
    ensures GroupingInv(GroupVertical(incs, f, clock), clock)
  {
    var next := GroupVertical(incs, f, clock);
    if |next| == |incs| {
      SameIncidentsGrouped(incs, next, clock);
    } else {
      NewIncidentGrouped(incs, next[|incs|], {f.agent}, {}, clock);
    }
  }

  lemma AcceptFindingGrouped(incs: seq<Incident>, f: Finding, clock: real)
    requires GroupingInv(incs, clock)
    ensures GroupingInv(AcceptFinding(incs, f, clock), clock)
  {
    var tagged := FollowOn(incs, f.agent, f.id, f.severity, clock);
    SameIncidentsGrouped(incs, tagged, clock);
    GroupMatchesGrouped(tagged, f, |f.matches|, clock);
    GroupVerticalGrouped(tagged, f, clock);
  }

  lemma IncidentCount(w: World, a: Action)
    requires Enabled(w, a) && !a.Report?
    ensures |After(w, a).server.incidents| == |w.server.incidents|
  {
    match a
    case Serve(m) => ReceiveKeepsIncidents(w.server, m.results);
    case _ =>
  }

  /** A visit that finds its incident closed since the batch was read, and opens it again. */
  ghost predicate Reopens(w: World, a: Action)
    requires Enabled(w, a)
  {
    Backward(w, a) && StatusAt(w.server, a.inc) == Closed
  }

  /** Exactly those visits reopen an incident. */
  lemma StepClosedExact(w: World, a: Action)
    requires Enabled(w, a)
    ensures ClosedKept(w.server.incidents, After(w, a).server.incidents) <==> !Reopens(w, a)
  {
    hide After;
    var s, t := w.server.incidents, After(w, a).server.incidents;
    forall i | 0 <= i < |s|
      ensures i < |t| && (s[i].status == Closed && t[i].status != Closed <==>
                Reopens(w, a) && ((a.VisitDetected? && a.inc == i) || (a.VisitSweeping? && a.inc == i))) {
      StatusAfter(w, a, i);
    }
    StepEvolves(w, a);
    if Reopens(w, a) { assert t[a.inc].status != Closed; }
  }

  lemma StepGrouped(w: World, a: Action)
    requires Enabled(w, a) && GroupingInv(w.server.incidents, w.clock) && !Reopens(w, a)
    ensures GroupingInv(After(w, a).server.incidents, After(w, a).clock)
  {
    if a.Report? {
      AcceptFindingGrouped(w.server.incidents, a.finding, w.clock);
    } else {
      IncidentCount(w, a);
      StepEvolves(w, a);
      StepClosedExact(w, a);
      SameIncidentsGrouped(w.server.incidents, After(w, a).server.incidents, w.clock);
    }
  }

  /** In every state reached without reopening an incident, open incidents of the same 12 hours are apart. */
  lemma {:induction false} CampaignsStayApart(ws: seq<World>, acts: seq<Action>, k: nat)
    requires Run(ws, acts) && Init(ws[0]) && k < |ws|
    requires forall n :: 0 <= n < k ==> !Reopens(ws[n], acts[n])
    ensures GroupingInv(ws[k].server.incidents, ws[k].clock)
  {
    if k == 0 {
    } else {
      CampaignsStayApart(ws, acts, k - 1);
      StepGrouped(ws[k - 1], acts[k - 1]);
    }
  }

  // ---- no serious finding is lost ----

  /** Some incident holds the finding and links both hosts and the address of the match, or was opened for that address. */
  ghost predicate Filed(incs: seq<Incident>, f: Finding, m: Match) {
    exists i :: 0 <= i < |incs| && FiledIn(incs[i], f, m)
  }

  ghost predicate Links(inc: Incident, src: AgentId, dst: AgentId, pivot: string) {
    src in inc.hosts && (dst == "" || dst in inc.hosts) && (pivot == "" || pivot in inc.pivots)
  }

  ghost predicate FiledIn(inc: Incident, f: Finding, m: Match) {
    f.id in inc.findings && (inc.pivot == m.pivot || Links(inc, f.agent, m.dst, m.pivot))
  }

  lemma FiledStays(a: seq<Incident>, b: seq<Incident>, f: Finding, m: Match)
    requires IncidentsEvolve(a, b) && Filed(a, f, m)
    ensures Filed(b, f, m)
  {
    var i :| 0 <= i < |a| && FiledIn(a[i], f, m);
    assert IncidentEvolves(a[i], b[i]);
  }

  lemma MatchFiles(incs: seq<Incident>, f: Finding, m: Match, now: real)
    ensures Filed(GroupMatch(incs, f, m, now), f, m)
  {
    var existing, next := FindCampaign(incs, {f.agent, m.dst}, {m.pivot}, now.Floor - CAMPAIGN_WINDOW),
                          GroupMatch(incs, f, m, now);
    if existing.Some? {
      assert FiledIn(next[existing.value], f, m);
    } else if HasIncidentFor(incs, f.id, m.pivot) {
      var i :| 0 <= i < |incs| && f.id in incs[i].findings && incs[i].pivot == m.pivot;
      assert FiledIn(next[i], f, m);
    } else {
      assert FiledIn(next[|incs|], f, m);
    }
  }

  lemma {:induction false} MatchesFile(incs: seq<Incident>, f: Finding, n: nat, now: real, k: nat)
    requires k < n <= |f.matches|
    ensures Filed(GroupMatches(incs, f, n, now), f, f.matches[k])
  {
    hide GroupMatch, Filed;
    var before := GroupMatches(incs, f, n - 1, now);
    MatchFiles(before, f, f.matches[n - 1], now);
    if k == n - 1 {
    } else {
      MatchesFile(incs, f, n - 1, now, k);
      GroupMatchEvolves(before, f, f.matches[n - 1], now);
      FiledStays(before, GroupMatch(before, f, f.matches[n - 1], now), f, f.matches[k]);
    }
  }

  /** A serious finding ends up in an incident that concerns each of its matches. */
  lemma SeriousFindingIsFiled(incs: seq<Incident>, f: Finding, now: real, k: nat)
    requires Lower(f.severity) in INCIDENT_SEVERITIES && k < |f.matches|
    ensures Filed(AcceptFinding(incs, f, now), f, f.matches[k])
  {
    MatchesFile(FollowOn(incs, f.agent, f.id, f.severity, now), f, |f.matches|, now, k);
  }

  ghost predicate FiledAlone(inc: Incident, f: Finding) {
    f.id in inc.findings && f.agent in inc.hosts && f.agent in Hosts(inc)
  }

  /** A serious finding that reaches no other host but escalates a user ends up in an incident of its own host. */
  lemma VerticalFindingIsFiled(incs: seq<Incident>, f: Finding, now: real)
    requires Lower(f.severity) in INCIDENT_SEVERITIES && f.matches == [] && f.vertical
    ensures var next := AcceptFinding(incs, f, now); exists i :: 0 <= i < |next| && FiledAlone(next[i], f)
  {
    var tagged, next := FollowOn(incs, f.agent, f.id, f.severity, now), AcceptFinding(incs, f, now);
    var existing := FindCampaign(tagged, {f.agent}, {}, now.Floor - CAMPAIGN_WINDOW);
    if existing.Some? {
      assert FiledAlone(next[existing.value], f);
    } else {
      assert FiledAlone(next[|tagged|], f);
    }
  }

  // ---- campaigns ----

  /** An incident involves its own hosts, and is a campaign exactly when it involves more than two. */
  ghost predicate Sorted(inc: Incident) { Hosts(inc) <= inc.hosts && (inc.sort == Campaign <==> |inc.hosts| > 2) }

  ghost predicate AllSorted(incs: seq<Incident>) { forall i :: 0 <= i < |incs| ==> Sorted(incs[i]) }

  lemma NewSorted(src: AgentId, dst: AgentId, pivot: string, port: Option<int>, fid: FindingId, now: real)
    ensures var inc := NewIncident(src, dst, pivot, port, fid, now); Sorted(inc) && Sorted(inc.(sort := VerticalMovement))
  {
    assert |{src, dst}| <= 2;
  }

  lemma FindingSorted(inc: Incident, fid: FindingId, src: AgentId, dst: AgentId, pivot: string, now: real)
    requires Sorted(inc)
    ensures Sorted(WithFinding(inc, fid, src, dst, pivot, now))
  {
    var next := WithFinding(inc, fid, src, dst, pivot, now);
    assert next.hosts == inc.hosts + (next.hosts - inc.hosts);
  }

  lemma GroupMatchSorted(incs: seq<Incident>, f: Finding, m: Match, now: real)
    requires AllSorted(incs)
    ensures AllSorted(GroupMatch(incs, f, m, now))
  {
    hide FindCampaign, HasIncidentFor, WithFinding, NewIncident;
    var existing := FindCampaign(incs, {f.agent, m.dst}, {m.pivot}, now.Floor - CAMPAIGN_WINDOW);
    if existing.Some? { FindingSorted(incs[existing.value], f.id, f.agent, m.dst, m.pivot, now); }
    NewSorted(f.agent, m.dst, m.pivot, f.port, f.id, now);
  }

  lemma {:induction false} GroupMatchesSorted(incs: seq<Incident>, f: Finding, n: nat, now: real)
    requires n <= |f.matches| && AllSorted(incs)
    ensures AllSorted(GroupMatches(incs, f, n, now))
  {
    hide GroupMatch, AllSorted;
    if n == 0 {
    } else {
      GroupMatchesSorted(incs, f, n - 1, now);
      GroupMatchSorted(GroupMatches(incs, f, n - 1, now), f, f.matches[n - 1], now);
    }
  }

  lemma AcceptFindingSorted(incs: seq<Incident>, f: Finding, now: real)
    requires AllSorted(incs)
    ensures AllSorted(AcceptFinding(incs, f, now))
  {
    hide FindCampaign, WithFinding, NewIncident, GroupMatches;
    var tagged := FollowOn(incs, f.agent, f.id, f.severity, now);
    assert AllSorted(tagged);
    GroupMatchesSorted(tagged, f, |f.matches|, now);
    var existing := FindCampaign(tagged, {f.agent}, {}, now.Floor - CAMPAIGN_WINDOW);
    if existing.Some? { FindingSorted(tagged[existing.value], f.id, f.agent, f.agent, "", now); }
    NewSorted(f.agent, f.agent, "", None, f.id, now);
  }

  /** Every action keeps this. */
  lemma StepSorted(w: World, a: Action)
    requires Enabled(w, a) && AllSorted(w.server.incidents)
    ensures AllSorted(After(w, a).server.incidents)
  {
    hide AcceptFinding, ReceiveResults, PullSide;
    match a
    case Report(f) => AcceptFindingSorted(w.server.incidents, f, w.clock);
    case Serve(m) => ReceiveKeepsIncidents(w.server, m.results);
    case VisitActive(i, _, c) =>
      PullSideEvolves(w.server, i, Dst, c, w.clock);
      PullSideEvolves(PullSide(w.server, i, Dst, c, w.clock), i, Src, c, w.clock);
    case _ =>
  }

  /** In every reachable state an incident involves its own hosts and is a campaign exactly when it involves a third. */
  lemma {:induction false} CampaignsAreWide(ws: seq<World>, acts: seq<Action>, k: nat)
    requires Run(ws, acts) && Init(ws[0]) && k < |ws|
    ensures AllSorted(ws[k].server.incidents)
  {
    hide AllSorted;
    if k == 0 {
      assert AllSorted([]) by { NothingSorted(); }
    } else {
      CampaignsAreWide(ws, acts, k - 1);
      StepSorted(ws[k - 1], acts[k - 1]);
    }
  }

  lemma NothingSorted()
    ensures AllSorted([])
  {
  }

  // ---- every sweep has its traces ----

  ghost predicate Asks(q: Query, agent: AgentId, key: Key, kind: Kind) {
    q.agent == agent && q.key == key && q.kind == kind
  }

  ghost predicate Asked(qs: seq<Query>, agent: AgentId, key: Key, kind: Kind) {
    exists i :: 0 <= i < |qs| && Asks(qs[i], agent, key, kind)
  }

  /** A trace at the source asks about the address it entered through. */
  ghost predicate AskedAbout(qs: seq<Query>, agent: AgentId, key: Key, ip: string) {
    exists i :: 0 <= i < |qs| && Asks(qs[i], agent, key, SourceTrace) && qs[i].params.Trace? && qs[i].params.ips == [ip]
  }

  ghost predicate HasTraces(s: Server, i: nat)
    requires i < |s.incidents|
  {
    && Asked(s.queries, s.incidents[i].dst, Victim(i), VictimTrace)
    && AskedAbout(s.queries, s.incidents[i].src, Source(i), s.incidents[i].pivot)
    && Asked(s.queries, s.incidents[i].dst, OcsfDst(i), PullOcsf)
    && Asked(s.queries, s.incidents[i].src, OcsfSrc(i), PullOcsf)
  }

  ghost predicate Traced(s: Server, i: nat)
    requires i < |s.incidents|
  {
    s.incidents[i].status in {Sweeping, Active} ==> HasTraces(s, i)
  }

  ghost predicate AllTraced(s: Server) {
    forall i :: 0 <= i < |s.incidents| ==> Traced(s, i)
  }

  lemma AskedEvolves(a: seq<Query>, b: seq<Query>, agent: AgentId, key: Key, kind: Kind)
    requires QueriesEvolve(a, b) && Asked(a, agent, key, kind)
    ensures Asked(b, agent, key, kind)
  {
    var i :| 0 <= i < |a| && Asks(a[i], agent, key, kind);
    assert QueryEvolves(a[i], b[i]);
  }

  lemma AskedAboutEvolves(a: seq<Query>, b: seq<Query>, agent: AgentId, key: Key, ip: string)
    requires QueriesEvolve(a, b) && AskedAbout(a, agent, key, ip)
    ensures AskedAbout(b, agent, key, ip)
  {
    var i :| 0 <= i < |a| && Asks(a[i], agent, key, SourceTrace) && a[i].params.Trace? && a[i].params.ips == [ip];
    assert QueryEvolves(a[i], b[i]);
  }

  lemma DetectedVisitTraces(s: Server, i: nat, ips: seq<string>, port: Option<int>, now: real)
    requires i < |s.incidents|
    ensures HasTraces(DetectedVisit(s, i, ips, port, now), i)
  {
    var n, qs := |s.queries|, DetectedVisit(s, i, ips, port, now).queries;
    var inc := s.incidents[i];
    assert Asks(qs[n], inc.dst, Victim(i), VictimTrace) && Asks(qs[n + 1], inc.src, Source(i), SourceTrace);
    assert Asks(qs[n + 2], inc.dst, OcsfDst(i), PullOcsf) && Asks(qs[n + 3], inc.src, OcsfSrc(i), PullOcsf);
  }

  /** A sweeping visit that activates an incident which was never swept. */
  ghost predicate Skips(w: World, a: Action)
    requires Enabled(w, a)
  {
    a.VisitSweeping? && !HasTraces(w.server, a.inc) && SweepEnds(w, a.inc)
  }

  /** An incident gets into a sweep, or beyond, only by a detected visit or by a sweeping visit that ends it. */
  lemma StatusChange(w: World, a: Action, i: nat)
    requires Enabled(w, a) && i < |After(w, a).server.incidents|
    requires After(w, a).server.incidents[i].status in {Sweeping, Active}
    requires !(a.VisitDetected? && a.inc == i)
    ensures i < |w.server.incidents|
    ensures w.server.incidents[i].status in {Sweeping, Active} || (a.VisitSweeping? && a.inc == i && SweepEnds(w, i))
  {
    if a.Report? {
      FindingStatus(w.server.incidents, a.finding, w.clock, i);
    } else {
      IncidentCount(w, a);
      StatusAfter(w, a, i);
    }
  }

  lemma TracesKept(s: Server, t: Server, i: nat)
    requires Evolves(s, t) && i < |s.incidents| && HasTraces(s, i)
    ensures i < |t.incidents| && HasTraces(t, i)
  {
    assert IncidentEvolves(s.incidents[i], t.incidents[i]);
    AskedEvolves(s.queries, t.queries, s.incidents[i].dst, Victim(i), VictimTrace);
    AskedAboutEvolves(s.queries, t.queries, s.incidents[i].src, Source(i), s.incidents[i].pivot);
    AskedEvolves(s.queries, t.queries, s.incidents[i].dst, OcsfDst(i), PullOcsf);
    AskedEvolves(s.queries, t.queries, s.incidents[i].src, OcsfSrc(i), PullOcsf);
  }

  /** An action leaves a sweep without its traces exactly when it skips one. */
  lemma StepTracedExact(w: World, a: Action)
    requires Enabled(w, a) && AllTraced(w.server)
    ensures AllTraced(After(w, a).server) <==> !Skips(w, a)
  {
    hide HasTraces;
    var s, t := w.server, After(w, a).server;
    StepEvolves(w, a);
    if Skips(w, a) {
      StatusAfter(w, a, a.inc);
      SweepingVisitQueries(w, a);
      assert !Traced(t, a.inc);
    } else {
      forall i | 0 <= i < |t.incidents| && t.incidents[i].status in {Sweeping, Active} ensures HasTraces(t, i) {
        if a.VisitDetected? && a.inc == i {
          DetectedVisitTraces(s, i, a.ips, a.port, w.clock);
        } else {
          StatusChange(w, a, i);
          assert Traced(s, i);
          TracesKept(s, t, i);
        }
      }
    }
  }

  lemma SweepingVisitQueries(w: World, a: Action)
    requires Enabled(w, a) && a.VisitSweeping? && !HasTraces(w.server, a.inc)
    ensures a.inc < |After(w, a).server.incidents| && !HasTraces(After(w, a).server, a.inc)
  {
  }

  /** Once a detected visit has swept an incident, its traces stay in the table, whatever happens to it. */
  lemma SweptHasTraces(ws: seq<World>, acts: seq<Action>, m: nat, n: nat)
    requires Run(ws, acts) && m < n < |ws| && acts[m].VisitDetected?
    ensures acts[m].inc < |ws[n].server.incidents| && HasTraces(ws[n].server, acts[m].inc)
  {
    hide HasTraces, Evolves;
    DetectedVisitTraces(ws[m].server, acts[m].inc, acts[m].ips, acts[m].port, ws[m].clock);
    RunEvolves(ws, acts, m + 1, n);
    TracesKept(ws[m + 1].server, ws[n].server, acts[m].inc);
  }

  /** In every state reached without such a skip, a sweeping or active incident has a trace query and an evidence pull at
      its target and at its source, the source's trace asking about the address it entered through. */
  lemma {:induction false} SweepsAreTraced(ws: seq<World>, acts: seq<Action>, k: nat)
    requires Run(ws, acts) && Init(ws[0]) && k < |ws|
    requires forall n :: 0 <= n < k ==> !Skips(ws[n], acts[n])
    ensures AllTraced(ws[k].server)
  {
    hide Skips, HasTraces;
    if k == 0 {
    } else {
      SweepsAreTraced(ws, acts, k - 1);
      StepTracedExact(ws[k - 1], acts[k - 1]);
    }
  }
}

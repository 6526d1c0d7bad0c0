/** The server objects: the SQLite store, the incident graph and the gRPC service over them. */
module FleetServer {
  import opened Options
  import opened FlightRecorder
  import opened Text
  import opened FleetModel

  class SettingsDb {
    var queries: seq<Query>
    var logs: map<LogKey, Log>
    var pulls: map<PullKey, PullState>

    constructor ()
      ensures queries == [] && logs == map[] && pulls == map[]
    {
      queries, logs, pulls := [], map[], map[];
    }

    method EnqueueXdrQuery(agent: AgentId, key: Key, kind: Kind, params: Params, now: real)
      modifies this`queries
      ensures queries == Enqueue(old(queries), agent, key, kind, params, now)
    {
      queries := queries + [Query(agent, key, kind, params, now.Floor, None)];
    }

    method GetPendingQueriesForAgent(agent: AgentId) returns (ids: seq<nat>)
      ensures ids == PendingFor(queries, agent)
    {
      ids := [];
      var i := 0;
      while i < |queries|
        invariant 0 <= i <= |queries| && ids == PendingFor(queries[..i], agent)
      {
        assert queries[..i + 1][..i] == queries[..i];
        if queries[i].agent == agent && queries[i].result.None? {
          ids := ids + [i];
        }
        i := i + 1;
      }
      assert queries[..i] == queries;
    }

    /** None when the query is unknown or already has a result; the first result is never replaced. */
    method CompleteXdrQuery(id: nat, result: Payload) returns (meta: Option<Query>)
      modifies this`queries
      ensures queries == Complete(old(queries), id, result)
      ensures meta.Some? <==> id < |old(queries)| && old(queries)[id].result.None?
      ensures meta.Some? ==> meta.value == old(queries)[id]
    {
      meta := None;
      if id < |queries| && queries[id].result.None? {
        meta := Some(queries[id]);
        queries := queries[id := queries[id].(result := Some(result))];
      }
    }

    /** Inserts the rows that are new for this incident and agent; returns how many were. */
    method UpsertSurveillanceLogs(inc: nat, agent: AgentId, side: Side, rows: seq<Row>) returns (inserted: int)
      modifies this`logs
      ensures logs == UpsertLogs(old(logs), inc, agent, side, rows)
      ensures inserted == |logs| - |old(logs)|
    {
      var before := |logs|;
      var i := 0;
      while i < |rows|
        invariant 0 <= i <= |rows| && logs == UpsertLogs(old(logs), inc, agent, side, rows[..i])
      {
        assert rows[..i + 1][..i] == rows[..i];
        var k := LogKey(inc, agent, rows[i].id);
        if k !in logs {
          logs := logs[k := Log(side, rows[i])];
        }
        i := i + 1;
      }
      assert rows[..i] == rows;
      inserted := |logs| - before;
    }

    method SetSurveillancePullState(k: PullKey, at: Option<int>, ts: Option<real>)
      modifies this`pulls
      ensures pulls == SetPullState(old(pulls), k, at, ts)
    {
      if k in pulls {
        var row := pulls[k];
        if at.Some? { row := row.(lastEnqueueAt := at.value); }
        if ts.Some? && ts.value > row.lastRecordTs { row := row.(lastRecordTs := ts.value); }
        pulls := pulls[k := row];
      } else {
        pulls := pulls[k := PullState(if at.Some? then at.value else 0, if ts.Some? then ts.value else 0.0)];
      }
    }
  }

  /** The links as the statements make them, one after the other. */
  lemma SameLinks(was: Incident, fid: FindingId, src: AgentId, dst: AgentId, pivot: string, now: real, inc: Incident)
    requires var hosts := was.hosts + {src} + if dst != "" && dst != src then {dst} else {};
      inc == was.(findings := if fid in was.findings then was.findings else was.findings + [fid], updatedAt := now.Floor,
                  hosts := hosts, pivots := if pivot != "" then was.pivots + {pivot} else was.pivots,
                  sort := if was.sort != Campaign && |hosts| > 2 then Campaign else was.sort)
    ensures inc == WithFinding(was, fid, src, dst, pivot, now)
  {
    assert inc.hosts == was.hosts + if dst == "" then {src} else {src, dst};
    assert inc.pivots == was.pivots + if pivot == "" then {} else {pivot};
  }

  class IncidentStore {
    var incidents: seq<Incident>

    constructor ()
      ensures incidents == []
    {
      incidents := [];
    }

    /** Scans newest first, so the first hit is the newest. */
    method FindActiveCampaign(agents: set<AgentId>, ips: set<string>, now: real) returns (found: Option<nat>)
      ensures found == FindCampaign(incidents, agents, ips, now.Floor - CAMPAIGN_WINDOW)
    {
      var cutoff := now.Floor - CAMPAIGN_WINDOW;
      var i := |incidents|;
      assert incidents[..i] == incidents;
      while i > 0
        invariant 0 <= i <= |incidents|
        invariant FindCampaign(incidents, agents, ips, cutoff) == FindCampaign(incidents[..i], agents, ips, cutoff)
      {
        assert incidents[..i][..i - 1] == incidents[..i - 1];
        if Eligible(incidents[i - 1], agents, ips, cutoff) {
          return Some(i - 1);
        }
        i := i - 1;
      }
      return None;
    }

    method AppendFindingToIncident(i: nat, fid: FindingId, src: AgentId, dst: AgentId, pivot: string, now: real)
      requires i < |incidents|
      modifies this
      ensures incidents == old(incidents)[i := WithFinding(old(incidents)[i], fid, src, dst, pivot, now)]
    {
      var inc := incidents[i];
      if fid !in inc.findings {
        inc := inc.(findings := inc.findings + [fid]);
      }
      inc := inc.(updatedAt := now.Floor, hosts := inc.hosts + {src});
      if dst != "" && dst != src {
        inc := inc.(hosts := inc.hosts + {dst});
      }
      if pivot != "" {
        inc := inc.(pivots := inc.pivots + {pivot});
      }
      if inc.sort != Campaign && |inc.hosts| > 2 {
        inc := inc.(sort := Campaign);
      }
      incidents := incidents[i := inc];
      SameLinks(old(incidents)[i], fid, src, dst, pivot, now, inc);
    }

    method CreateIncident(src: AgentId, dst: AgentId, pivot: string, port: Option<int>, fid: FindingId, now: real)
      modifies this
      ensures incidents == old(incidents) + [NewIncident(src, dst, pivot, port, fid, now)]
    {
      incidents := incidents + [NewIncident(src, dst, pivot, port, fid, now)];
    }

    method SetSort(i: nat, sort: IncidentSort)
      requires i < |incidents|
      modifies this
      ensures incidents == old(incidents)[i := old(incidents)[i].(sort := sort)]
    {
      incidents := incidents[i := incidents[i].(sort := sort)];
    }

    method UpdateIncidentStatus(i: nat, status: Status, now: real)
      requires i < |incidents|
      modifies this
      ensures incidents == old(incidents)[i := WithStatus(old(incidents)[i], status, now)]
    {
      incidents := incidents[i := incidents[i].(status := status, updatedAt := now.Floor)];
    }

    method CheckFindingForFollowOn(agent: AgentId, fid: FindingId, severity: string, now: real)
      modifies this
      ensures incidents == FollowOn(old(incidents), agent, fid, severity, now)
    {
      var i := 0;
      while i < |incidents|
        invariant 0 <= i <= |incidents| == |old(incidents)|
        invariant incidents[..i] == FollowOn(old(incidents), agent, fid, severity, now)[..i]
        invariant incidents[i..] == old(incidents)[i..]
      {
        var inc := incidents[i];
        assert inc == old(incidents)[i..][0];
        if inc.dst == agent && inc.status == Active && severity in INCIDENT_SEVERITIES {
          incidents := incidents[i := inc.(followOns := inc.followOns + {fid}, updatedAt := now.Floor)];
        }
        i := i + 1;
      }
    }
  }

  /** The items before the first that cannot be read: it ends the loop with everything before it kept. */
  function Readable(items: seq<Option<QueryResult>>): seq<QueryResult> {
    if items == [] || items[0].None? then [] else [items[0].value] + Readable(items[1..])
  }

  lemma ReadOn(items: seq<Option<QueryResult>>, n: nat, read: seq<QueryResult>)
    requires n < |items| && items[n].Some? && Readable(items) == read + Readable(items[n..])
    ensures Readable(items) == (read + [items[n].value]) + Readable(items[n + 1..])
  {
    assert items[n..][0] == items[n] && items[n..][1..] == items[n + 1..];
  }

  lemma ReadAll(items: seq<Option<QueryResult>>, n: nat, read: seq<QueryResult>)
    requires n <= |items| && (n < |items| ==> items[n].None?) && Readable(items) == read + Readable(items[n..])
    ensures Readable(items) == read
  {
  }

  lemma OpenedDetected(incs: seq<Incident>, inc: Incident, now: real)
    requires inc.status == Detected && inc.updatedAt == now.Floor
    ensures (incs + [inc])[|incs| := WithStatus(inc, Detected, now)] == incs + [inc]
  {
  }

  class FleetServicer {
    const neo: IncidentStore
    const db: SettingsDb

    constructor (neo: IncidentStore, db: SettingsDb)
      ensures this.neo == neo && this.db == db
    {
      this.neo, this.db := neo, db;
    }

    ghost function State(): Server
      reads neo, db
    {
      Server(neo.incidents, db.queries, db.logs, db.pulls)
    }

    /** One finding: tag active incidents, then group it into a campaign or open an incident. */
    method SendFinding(f: Finding, now: real)
      modifies neo
      ensures neo.incidents == AcceptFinding(old(neo.incidents), f, now)
    {
      hide FindCampaign, Lower, HasIncidentFor, FollowOn, WithStatus, WithFinding;
      neo.CheckFindingForFollowOn(f.agent, f.id, f.severity, now);
      ghost var tagged := neo.incidents;
      if Lower(f.severity) !in INCIDENT_SEVERITIES {
        return;
      }
      var n := 0;
      while n < |f.matches|
        invariant 0 <= n <= |f.matches| && neo.incidents == GroupMatches(tagged, f, n, now)
      {
        var m := f.matches[n];
        var existing := neo.FindActiveCampaign({f.agent, m.dst}, {m.pivot}, now);
        if existing.Some? {
          neo.AppendFindingToIncident(existing.value, f.id, f.agent, m.dst, m.pivot, now);
        } else if !HasIncidentFor(neo.incidents, f.id, m.pivot) {
          neo.CreateIncident(f.agent, m.dst, m.pivot, f.port, f.id, now);
        }
        n := n + 1;
      }
      if f.matches == [] && f.vertical {
        var existing := neo.FindActiveCampaign({f.agent}, {}, now);
        if existing.Some? {
          neo.AppendFindingToIncident(existing.value, f.id, f.agent, f.agent, "", now);
        } else {
          neo.CreateIncident(f.agent, f.agent, "", None, f.id, now);
          OpenedDetected(tagged, NewIncident(f.agent, f.agent, "", None, f.id, now), now);
          neo.UpdateIncidentStatus(|neo.incidents| - 1, Detected, now);
          neo.SetSort(|neo.incidents| - 1, VerticalMovement);
        }
      }
    }

    method IngestSurveillanceLogs(inc: nat, side: Side, agent: AgentId, rows: seq<Row>)
      modifies db
      ensures State() == Ingest(old(State()), inc, side, agent, rows)
    {
      if rows == [] {
        return;
      }
      var inserted := db.UpsertSurveillanceLogs(inc, agent, side, rows);
      var maxTs := rows[0].Ts();
      var i := 1;
      while i < |rows|
        invariant 1 <= i <= |rows| && maxTs == MaxTs(rows[..i])
      {
        assert rows[..i + 1][..i] == rows[..i];
        if rows[i].Ts() > maxTs { maxTs := rows[i].Ts(); }
        i := i + 1;
      }
      assert rows[..i] == rows;
      if maxTs > 0.0 {
        db.SetSurveillancePullState(PullKey(inc, side), None, Some(maxTs));
      }
    }

    /** Takes the results an agent brought, up to one that cannot be read, and returns the queries still pending for it. */
    method Heartbeat(agent: AgentId, registered: bool, items: seq<Option<QueryResult>>)
      returns (acknowledged: bool, pending: seq<nat>)
      modifies db
      ensures acknowledged == registered
      ensures State() == if registered then ReceiveResults(old(State()), Readable(items)) else old(State())
      ensures pending == if registered then PendingFor(db.queries, agent) else []
    {
      if !registered {
        return false, [];
      }
      hide Readable, UpsertLogs, MaxTs, Complete;
      ghost var read: seq<QueryResult> := [];
      var n := 0;
      assert items[n..] == items;
      while n < |items| && items[n].Some?
        invariant 0 <= n <= |items| && Readable(items) == read + Readable(items[n..])
        invariant State() == ReceiveResults(old(State()), read)
      {
        var r := items[n].value;
        ReadOn(items, n, read);
        assert (read + [r])[..|read|] == read;
        var meta := db.CompleteXdrQuery(r.id, r.payload);
        if meta.Some? && meta.value.kind == PullSurveillance && meta.value.key.Surv? && r.payload.Records? {
          IngestSurveillanceLogs(meta.value.key.inc, meta.value.key.side, meta.value.agent, r.payload.rows);
        }
        read := read + [r];
        n := n + 1;
      }
      ReadAll(items, n, read);
      pending := db.GetPendingQueriesForAgent(agent);
      acknowledged := true;
    }
  }
}

/** Rebuilding an attack chain on the target host from raw audit events. */
module ChainBuilder {
  import opened Options
  import opened StableSort

  /** A decoded event. Missing text fields are empty; a PID that is not an integer is None. */
  datatype Event = Event(kind: string, ts: real, srcIp: string, user: string, pid: Option<int>, ppid: Option<int>,
                         name: string, cmdLine: string, actor: string)
  {
    predicate IsAuthentication() { kind in {"Authentication", "authentication"} }
    predicate IsNetwork() { kind in {"NetworkActivity", "network_activity"} }
    predicate IsProcess() { kind in {"ProcessActivity", "process_activity"} }
    predicate HasPid() { pid.Some? && pid.value > 0 }
  }

  /** An evidence row; `event` is None when its JSON or its fields cannot be read. */
  datatype Row = Row(agent: string, event: Option<Event>)

  /** `pids` keeps the last anchor time of each PID; `ts` is the floor for children. */
  datatype Anchors = Anchors(pids: map<int, real>, users: map<int, string>, user: string, ip: string, ts: real)

  datatype Proc = Proc(pid: int, name: string, cmdLine: string, ts: real, user: string)

  /** `procs` is the process table in insertion order; `known` maps every PID in it to its time. */
  datatype Walk = Walk(known: map<int, real>, procs: seq<Proc>, user: string)

  datatype Entity = Ip(address: string) | Process(proc: Proc) | User(name: string)
  datatype Step = Step(entity: Entity, index: nat)

  function When(): Event -> real { (e: Event) => e.ts }
  function Started(): Proc -> real { (p: Proc) => p.ts }

  function TargetEvents(rows: seq<Row>, agent: string): seq<Event> {
    if rows == [] then []
    else
      var last := rows[|rows| - 1];
      TargetEvents(rows[..|rows| - 1], agent)
        + if last.agent == agent && last.event.Some? then [last.event.value] else []
  }

  function AnchorStep(a: Anchors, e: Event, pivots: set<string>): Anchors {
    if e.srcIp !in pivots then a
    else
      var auth := if e.IsAuthentication() then e.user else "";
      var b := a.(ip := if a.ip == "" then e.srcIp else a.ip,
                  user := if a.user == "" then auth else a.user);
      if (e.IsAuthentication() || e.IsNetwork()) && e.HasPid() then
        b.(pids := b.pids[e.pid.value := e.ts],
           users := if auth != "" then b.users[e.pid.value := auth] else b.users,
           ts := if b.ts == 0.0 || e.ts < b.ts then e.ts else b.ts)
      else b
  }

  function FindAnchors(es: seq<Event>, pivots: set<string>): Anchors {
    if es == [] then Anchors(map[], map[], "", "", 0.0)
    else AnchorStep(FindAnchors(es[..|es| - 1], pivots), es[|es| - 1], pivots)
  }

  predicate Listed(procs: seq<Proc>, pid: int) {
    exists i :: 0 <= i < |procs| && procs[i].pid == pid
  }

  function SeedStep(procs: seq<Proc>, e: Event, a: Anchors): seq<Proc> {
    if e.pid.Some? && e.pid.value in a.pids && !Listed(procs, e.pid.value) then
      var pid := e.pid.value;
      procs + [Proc(pid, e.name, e.cmdLine, a.pids[pid], if pid in a.users then a.users[pid] else "")]
    else procs
  }

  function Seeds(es: seq<Event>, a: Anchors): seq<Proc> {
    if es == [] then [] else SeedStep(Seeds(es[..|es| - 1], a), es[|es| - 1], a)
  }

  /** Whether an event adds its process: a new PID whose parent is known, not before its parent or the anchors. */
  predicate Extends(known: map<int, real>, e: Event, floor: real) {
    e.IsProcess() && e.HasPid() && e.ppid.Some? && e.ppid.value in known && e.pid.value !in known
    && e.ts >= floor && e.ts >= known[e.ppid.value]
  }

  function WalkStep(w: Walk, e: Event, floor: real): Walk {
    if Extends(w.known, e, floor) then
      Walk(w.known[e.pid.value := e.ts],
           w.procs + [Proc(e.pid.value, e.name, e.cmdLine, e.ts, e.actor)],
           if w.user == "" then e.actor else w.user)
    else w
  }

  function WalkFrom(es: seq<Event>, seeds: seq<Proc>, a: Anchors): Walk {
    if es == [] then Walk(a.pids, seeds, a.user)
    else WalkStep(WalkFrom(es[..|es| - 1], seeds, a), es[|es| - 1], a.ts)
  }

  function Processes(procs: seq<Proc>): (r: seq<Entity>)
    ensures |r| == |procs|
    ensures forall i :: 0 <= i < |procs| ==> r[i] == Process(procs[i])
  {
    seq(|procs|, i requires 0 <= i < |procs| => Process(procs[i]))
  }

  /** How many processes come before the user: up to the first one that runs as that user, else all. */
  function UserSlot(procs: seq<Proc>, user: string): (n: nat)
    ensures n <= |procs|
  {
    if procs == [] then 0
    else if procs[0].user == user then 1
    else 1 + UserSlot(procs[1..], user)
  }

  function Entities(ip: string, procs: seq<Proc>, user: string): seq<Entity> {
    var head := if ip == "" then [] else [Ip(ip)];
    if user == "" then head + Processes(procs)
    else
      var n := UserSlot(procs, user);
      head + Processes(procs[..n]) + [User(user)] + Processes(procs[n..])
  }

  function Numbered(entities: seq<Entity>): (r: seq<Step>)
    ensures |r| == |entities|
    ensures forall i :: 0 <= i < |r| ==> r[i] == Step(entities[i], i)
  {
    seq(|entities|, i requires 0 <= i < |entities| => Step(entities[i], i))
  }

  function Final(es: seq<Event>, pivots: seq<string>): Walk {
    var a := FindAnchors(es, set p | p in pivots);
    WalkFrom(es, Seeds(es, a), a)
  }

  /** The chain of a chronologically sorted list of events. */
  function ChainOf(es: seq<Event>, pivots: seq<string>): Option<seq<Step>> {
    var a := FindAnchors(es, set p | p in pivots);
    if es == [] || pivots == [] || (a.pids == map[] && a.user == "") then None
    else
      var w := Final(es, pivots);
      var ip := if a.ip != "" then a.ip else pivots[0];
      var entities := Entities(ip, Sort(w.procs, Started()), w.user);
      if |entities| <= 1 then None else Some(Numbered(entities))
  }

  function Sorted(rows: seq<Row>, agent: string): seq<Event> {
    Sort(TargetEvents(rows, agent), When())
  }

  function Chain(rows: seq<Row>, agent: string, pivots: seq<string>): Option<seq<Step>> {
    ChainOf(Sorted(rows, agent), pivots)
  }

  // ---- the loops ----

  method CollectAnchors(es: seq<Event>, pivots: set<string>) returns (a: Anchors)
    ensures a == FindAnchors(es, pivots)
  {
    var pids: map<int, real>, users: map<int, string> := map[], map[];
    var user, ip, ts := "", "", 0.0;
    var n := 0;
    while n < |es|
      invariant 0 <= n <= |es|
      invariant Anchors(pids, users, user, ip, ts) == FindAnchors(es[..n], pivots)
    {
      assert es[..n + 1][..n] == es[..n];
      var e := es[n];
      n := n + 1;
      if e.srcIp !in pivots {
        continue;
      }
      if ip == "" { ip := e.srcIp; }
      var auth := "";
      if e.IsAuthentication() {
        auth := e.user;
        if auth != "" && user == "" { user := auth; }
      }
      if (e.IsAuthentication() || e.IsNetwork()) && e.HasPid() {
        pids := pids[e.pid.value := e.ts];
        if auth != "" { users := users[e.pid.value := auth]; }
        if ts == 0.0 || e.ts < ts { ts := e.ts; }
      }
    }
    assert es[..n] == es;
    a := Anchors(pids, users, user, ip, ts);
  }

  method SeedProcesses(es: seq<Event>, a: Anchors) returns (procs: seq<Proc>)
    ensures procs == Seeds(es, a)
  {
    procs := [];
    var n := 0;
    while n < |es|
      invariant 0 <= n <= |es| && procs == Seeds(es[..n], a)
    {
      assert es[..n + 1][..n] == es[..n];
      procs := SeedStep(procs, es[n], a);
      n := n + 1;
    }
    assert es[..n] == es;
  }

  method WalkChildren(es: seq<Event>, seeds: seq<Proc>, a: Anchors) returns (w: Walk)
    ensures w == WalkFrom(es, seeds, a)
  {
    var known, procs, user := a.pids, seeds, a.user;
    var n := 0;
    while n < |es|
      invariant 0 <= n <= |es| && Walk(known, procs, user) == WalkFrom(es[..n], seeds, a)
    {
      assert es[..n + 1][..n] == es[..n];
      var e := es[n];
      n := n + 1;
      if !e.IsProcess() || !e.HasPid() || e.ppid.None? || e.ppid.value !in known || e.pid.value in known {
        continue;
      }
      if e.ts < a.ts || e.ts < known[e.ppid.value] {
        continue;
      }
      known := known[e.pid.value := e.ts];
      procs := procs + [Proc(e.pid.value, e.name, e.cmdLine, e.ts, e.actor)];
      if e.actor != "" && user == "" { user := e.actor; }
    }
    assert es[..n] == es;
    w := Walk(known, procs, user);
  }

  lemma {:induction false} UserSlotIsFirst(procs: seq<Proc>, user: string)
    ensures forall i :: 0 <= i < UserSlot(procs, user) - 1 ==> procs[i].user != user
    ensures (exists i :: 0 <= i < |procs| && procs[i].user == user) ==>
              UserSlot(procs, user) > 0 && procs[UserSlot(procs, user) - 1].user == user
    ensures (forall i :: 0 <= i < |procs| ==> procs[i].user != user) ==> UserSlot(procs, user) == |procs|
  {
    if procs == [] || procs[0].user == user {
    } else {
      UserSlotIsFirst(procs[1..], user);
      if i :| 0 <= i < |procs| && procs[i].user == user { assert procs[1..][i - 1].user == user; }
    }
  }

  /** The steps after `n` processes, with the user entered behind the first `k` of them or not yet entered. */
  ghost function Assembled(head: seq<Entity>, procs: seq<Proc>, user: string, k: nat, n: nat, inserted: bool): seq<Entity>
    requires n <= |procs| && (inserted ==> k <= n)
  {
    if inserted then head + Processes(procs[..k]) + [User(user)] + Processes(procs[k..n])
    else head + Processes(procs[..n])
  }

  lemma AssembledStep(head: seq<Entity>, procs: seq<Proc>, user: string, k: nat, n: nat, inserted: bool)
    requires n < |procs| && (inserted ==> k <= n)
    ensures Assembled(head, procs, user, k, n + 1, inserted)
         == Assembled(head, procs, user, k, n, inserted) + [Process(procs[n])]
  {
    if inserted {
      assert Processes(procs[k..n + 1]) == Processes(procs[k..n]) + [Process(procs[n])];
    } else {
      assert Processes(procs[..n + 1]) == Processes(procs[..n]) + [Process(procs[n])];
    }
  }

  lemma UserEntered(head: seq<Entity>, procs: seq<Proc>, user: string, k: nat)
    requires k <= |procs|
    ensures Assembled(head, procs, user, k, k, false) + [User(user)] == Assembled(head, procs, user, k, k, true)
  {
    assert Processes(procs[k..k]) == [];
  }

  lemma AllAssembled(ip: string, procs: seq<Proc>, user: string)
    ensures var head := if ip == "" then [] else [Ip(ip)];
      Entities(ip, procs, user) == Assembled(head, procs, user, UserSlot(procs, user), |procs|, user != "")
  {
    assert procs[..|procs|] == procs;
    var k := UserSlot(procs, user);
    assert procs[k..|procs|] == procs[k..];
  }

  method Assemble(ip: string, procs: seq<Proc>, user: string) returns (steps: seq<Entity>)
    ensures steps == Entities(ip, procs, user)
  {
    hide Entities, Assembled, Processes, UserSlot;
    var head := if ip == "" then [] else [Ip(ip)];
    ghost var k := UserSlot(procs, user);
    UserSlotIsFirst(procs, user);
    NoneAssembled(head, procs, user, k);
    steps := head;
    var inserted := false;
    var n := 0;
    while n < |procs|
      invariant 0 <= n <= |procs|
      invariant inserted ==> user != "" && k <= n
      invariant !inserted && user != "" ==> forall i :: 0 <= i < n ==> procs[i].user != user
      invariant steps == Assembled(head, procs, user, k, n, inserted)
    {
      AssembledStep(head, procs, user, k, n, inserted);
      steps := steps + [Process(procs[n])];
      if !inserted && user != "" && procs[n].user == user {
        assert k == n + 1;
        UserEntered(head, procs, user, k);
        steps := steps + [User(user)];
        inserted := true;
      }
      n := n + 1;
    }
    AllAssembled(ip, procs, user);
    if !inserted && user != "" {
      assert k == |procs|;
      UserEntered(head, procs, user, k);
      steps := steps + [User(user)];
    }
  }

  lemma NoneAssembled(head: seq<Entity>, procs: seq<Proc>, user: string, k: nat)
    ensures Assembled(head, procs, user, k, 0, false) == head
  {
    assert head + Processes(procs[..0]) == head;
  }

  method LoadEvents(rows: seq<Row>, agent: string) returns (events: seq<Event>)
    ensures events == TargetEvents(rows, agent)
  {
    events := [];
    var n := 0;
    while n < |rows|
      invariant 0 <= n <= |rows| && events == TargetEvents(rows[..n], agent)
    {
      assert rows[..n + 1][..n] == rows[..n];
      if rows[n].agent == agent && rows[n].event.Some? {
        events := events + [rows[n].event.value];
      }
      n := n + 1;
    }
    assert rows[..n] == rows;
  }

  method Number(entities: seq<Entity>) returns (steps: seq<Step>)
    ensures steps == Numbered(entities)
  {
    steps := [];
    var i := 0;
    while i < |entities|
      invariant 0 <= i <= |entities| && steps == Numbered(entities)[..i]
    {
      steps := steps + [Step(entities[i], i)];
      i := i + 1;
    }
  }

  method BuildChainFromOcsfEvidence(rows: seq<Row>, agent: string, pivots: seq<string>) returns (chain: Option<seq<Step>>)
    ensures chain == Chain(rows, agent, pivots)
  {
    var events := LoadEvents(rows, agent);
    events := Sort(events, When());
    if pivots == [] || events == [] {
      return None;
    }
    var a := CollectAnchors(events, set p | p in pivots);
    if a.pids == map[] && a.user == "" {
      return None;
    }
    var seeds := SeedProcesses(events, a);
    var w := WalkChildren(events, seeds, a);
    var entities := Assemble(if a.ip != "" then a.ip else pivots[0], Sort(w.procs, Started()), w.user);
    if |entities| <= 1 {
      return None;
    }
    var steps := Number(entities);
    return Some(steps);
  }
}

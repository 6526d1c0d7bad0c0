/** Building a chain from the records that a federated trace returned. */
module XdrChain {
  import opened StableSort
  import opened ChainBuilder
  import opened ChainProofs

  /** A trace record. Missing text is empty, a missing PID is 0, an unreadable timestamp is 0.0. */
  datatype Record = Record(username: string, name: string, pid: int, cmdLine: string, ts: real, fromIp: string)
  {
    predicate HasUser() { username != "" && username != "None" }
    predicate Usable() { name != "" && pid != 0 }
    function AsProc(): Proc { Proc(pid, name, cmdLine, ts, username) }
  }

  function Username(rs: seq<Record>): string {
    if rs == [] then "" else if rs[0].HasUser() then rs[0].username else Username(rs[1..])
  }

  function RemoteIp(rs: seq<Record>): string {
    if rs == [] then "" else if rs[0].fromIp != "" then rs[0].fromIp else RemoteIp(rs[1..])
  }

  /** The first usable record of each PID. */
  function FirstPerPid(rs: seq<Record>): seq<Proc> {
    if rs == [] then []
    else
      var init, last := FirstPerPid(rs[..|rs| - 1]), rs[|rs| - 1];
      if last.Usable() && !Listed(init, last.pid) then init + [last.AsProc()] else init
  }

  function Shown(username: string): Entity { User(if username == "" then "unknown" else username) }

  /** How many processes stand before the user: up to the first that runs as that user, else all. */
  function Slot(procs: seq<Proc>, username: string): (k: nat)
    ensures k <= |procs|
  {
    if username == "" then |procs| else UserSlot(procs, username)
  }

  function Line(rs: seq<Record>): seq<Proc> { Sort(FirstPerPid(rs), Started()) }

  function Ips(ip: string): seq<Entity> { if ip == "" then [] else [Ip(ip)] }

  function Assembly(procs: seq<Proc>, username: string, ip: string, reversed: bool): seq<Entity> {
    var k := Slot(procs, username);
    if reversed then Ips(ip) + Processes(procs[..k]) + [Shown(username)] + Processes(procs[k..])
    else [Shown(username)] + Processes(procs) + Ips(ip)
  }

  function Chain(rs: seq<Record>, reversed: bool): seq<Step> {
    Numbered(Assembly(Line(rs), Username(rs), RemoteIp(rs), reversed))
  }

  // ---- the loops ----

  method FindUsername(rs: seq<Record>) returns (username: string)
    ensures username == Username(rs)
  {
    username := "";
    for i := 0 to |rs|
      invariant Username(rs) == Username(rs[i..])
    {
      assert rs[i..][1..] == rs[i + 1..];
      if rs[i].HasUser() {
        return rs[i].username;
      }
    }
  }

  method FindRemoteIp(rs: seq<Record>) returns (ip: string)
    ensures ip == RemoteIp(rs)
  {
    ip := "";
    for i := 0 to |rs|
      invariant RemoteIp(rs) == RemoteIp(rs[i..])
    {
      assert rs[i..][1..] == rs[i + 1..];
      if rs[i].fromIp != "" {
        return rs[i].fromIp;
      }
    }
  }

  method CollectProcesses(rs: seq<Record>) returns (procs: seq<Proc>)
    ensures procs == FirstPerPid(rs)
  {
    var seen: set<int> := {};
    procs := [];
    for i := 0 to |rs|
      invariant procs == FirstPerPid(rs[..i])
      invariant forall pid :: pid in seen <==> Listed(procs, pid)
    {
      assert rs[..i + 1][..i] == rs[..i];
      var r := rs[i];
      if r.Usable() && r.pid !in seen {
        ListedMore(procs, r.AsProc());
        seen := seen + {r.pid};
        procs := procs + [r.AsProc()];
      }
    }
    assert rs[..|rs|] == rs;
  }

  lemma ListedMore(procs: seq<Proc>, p: Proc)
    ensures forall pid :: Listed(procs + [p], pid) <==> Listed(procs, pid) || p.pid == pid
  {
    var more := procs + [p];
    assert more[|procs|] == p;
    forall pid | Listed(procs, pid) ensures Listed(more, pid) {
      var i :| 0 <= i < |procs| && procs[i].pid == pid;
      assert more[i].pid == pid;
    }
    forall pid | Listed(more, pid) && p.pid != pid ensures Listed(procs, pid) {
      var i :| 0 <= i < |more| && more[i].pid == pid;
      assert procs[i].pid == pid;
    }
  }

  /** The target order: the user goes behind the first process that runs as that user. */
  method AssembleReversed(procs: seq<Proc>, username: string, ip: string) returns (entities: seq<Entity>)
    ensures entities == Assembly(procs, username, ip, true)
  {
    hide Processes, Assembled, UserSlot;
    ghost var head, k, user := Ips(ip), Slot(procs, username), Shown(username).name;
    if username != "" { UserSlotIsFirst(procs, username); }
    NoneAssembled(head, procs, user, k);
    entities := Ips(ip);
    var inserted := false;
    for n := 0 to |procs|
      invariant inserted ==> username != "" && k <= n
      invariant !inserted && username != "" ==> forall i :: 0 <= i < n ==> procs[i].user != username
      invariant entities == Assembled(head, procs, user, k, n, inserted)
    {
      AssembledStep(head, procs, user, k, n, inserted);
      entities := entities + [Process(procs[n])];
      if !inserted && procs[n].user == username && username != "" {
        assert k == n + 1;
        UserEntered(head, procs, user, k);
        entities := entities + [Shown(username)];
        inserted := true;
      }
    }
    if !inserted {
      assert k == |procs|;
      UserEntered(head, procs, user, k);
      entities := entities + [Shown(username)];
    }
    AssembledIsAssembly(procs, username, ip);
  }

  lemma AssembledIsAssembly(procs: seq<Proc>, username: string, ip: string)
    ensures Assembly(procs, username, ip, true)
         == Assembled(Ips(ip), procs, Shown(username).name, Slot(procs, username), |procs|, true)
  {
    var k := Slot(procs, username);
    assert procs[k..|procs|] == procs[k..];
  }

  method BuildChainFromXdrRecords(rs: seq<Record>, reversed: bool) returns (steps: seq<Step>)
    ensures steps == Chain(rs, reversed)
  {
    hide Assembly, Username, RemoteIp, FirstPerPid;
    var username := FindUsername(rs);
    var procs := CollectProcesses(rs);
    procs := Sort(procs, Started());
    var ip := FindRemoteIp(rs);
    var entities: seq<Entity>;
    if reversed {
      entities := AssembleReversed(procs, username, ip);
    } else {
      entities := [Shown(username)] + Processes(procs) + Ips(ip);
      assert entities == Assembly(procs, username, ip, false) by { ForwardAssembly(procs, username, ip); }
    }
    steps := Number(entities);
  }

  lemma ForwardAssembly(procs: seq<Proc>, username: string, ip: string)
    ensures Assembly(procs, username, ip, false) == [Shown(username)] + Processes(procs) + Ips(ip)
  {
  }

  // ---- what the chain shows ----

  predicate IsFirst(rs: seq<Record>, i: nat)
    requires i < |rs|
  {
    rs[i].Usable() && forall j :: 0 <= j < i ==> !(rs[j].Usable() && rs[j].pid == rs[i].pid)
  }

  /** Exactly the first usable record of each PID becomes a process, each PID once. */
  lemma {:induction false} FirstPerPidExact(rs: seq<Record>)
    ensures UniquePids(FirstPerPid(rs))
    ensures forall pid :: Listed(FirstPerPid(rs), pid) <==> exists i :: 0 <= i < |rs| && rs[i].Usable() && rs[i].pid == pid
    ensures forall p :: p in FirstPerPid(rs) <==> exists i :: 0 <= i < |rs| && IsFirst(rs, i) && p == rs[i].AsProc()
    decreases |rs|
  {
    hide IsFirst, Listed;
    if rs == [] {
      NoneListed();
    } else {
      var n := |rs| - 1;
      var init, last := rs[..n], rs[n];
      var before := FirstPerPid(init);
      FirstPerPidExact(init);
      ListedMore(before, last.AsProc());
      UniqueMore(before, last.AsProc());
      LastIsFirst(rs);
      forall pid ensures Listed(FirstPerPid(rs), pid) <==> exists i :: 0 <= i < |rs| && rs[i].Usable() && rs[i].pid == pid {
        UsableGrows(rs, pid);
      }
      forall p ensures p in FirstPerPid(rs) <==> exists i :: 0 <= i < |rs| && IsFirst(rs, i) && p == rs[i].AsProc() {
        FirstGrows(rs, p);
      }
    }
  }

  lemma NoneListed()
    ensures forall pid :: !Listed([], pid)
  {
  }

  lemma UniqueMore(procs: seq<Proc>, p: Proc)
    requires UniquePids(procs)
    ensures !Listed(procs, p.pid) ==> UniquePids(procs + [p])
  {
  }

  lemma LastIsFirst(rs: seq<Record>)
    requires rs != []
    ensures var n := |rs| - 1;
      IsFirst(rs, n) <==> rs[n].Usable() && !exists i :: 0 <= i < n && rs[..n][i].Usable() && rs[..n][i].pid == rs[n].pid
  {
    assert forall i :: 0 <= i < |rs| - 1 ==> rs[..|rs| - 1][i] == rs[i];
  }

  lemma UsableGrows(rs: seq<Record>, pid: int)
    requires rs != []
    ensures var n := |rs| - 1;
      (exists i :: 0 <= i < |rs| && rs[i].Usable() && rs[i].pid == pid)
      <==> (exists i :: 0 <= i < n && rs[..n][i].Usable() && rs[..n][i].pid == pid) || (rs[n].Usable() && rs[n].pid == pid)
  {
    var n := |rs| - 1;
    assert forall i :: 0 <= i < n ==> rs[..n][i] == rs[i];
    if i :| 0 <= i < n && rs[..n][i].Usable() && rs[..n][i].pid == pid { assert rs[i].pid == pid; }
    if i :| 0 <= i < |rs| && rs[i].Usable() && rs[i].pid == pid { assert i < n ==> rs[..n][i].pid == pid; }
  }

  lemma PrefixFirst(rs: seq<Record>, i: nat)
    requires i < |rs| - 1
    ensures IsFirst(rs[..|rs| - 1], i) == IsFirst(rs, i)
  {
    assert forall j :: 0 <= j < |rs| - 1 ==> rs[..|rs| - 1][j] == rs[j];
  }

  lemma FirstGrows(rs: seq<Record>, p: Proc)
    requires rs != []
    ensures var n := |rs| - 1;
      (exists i :: 0 <= i < |rs| && IsFirst(rs, i) && p == rs[i].AsProc())
      <==> (exists i :: 0 <= i < n && IsFirst(rs[..n], i) && p == rs[..n][i].AsProc())
           || (IsFirst(rs, n) && p == rs[n].AsProc())
  {
    hide IsFirst;
    var n := |rs| - 1;
    var init := rs[..n];
    forall i | 0 <= i < n ensures init[i] == rs[i] && IsFirst(init, i) == IsFirst(rs, i) { PrefixFirst(rs, i); }
    if i :| 0 <= i < n && IsFirst(init, i) && p == init[i].AsProc() { assert IsFirst(rs, i); }
    if i :| 0 <= i < |rs| && IsFirst(rs, i) && p == rs[i].AsProc() { assert i < n ==> IsFirst(init, i); }
  }

  /** The processes among the entities, in order. */
  function ProcessesIn(entities: seq<Entity>): seq<Proc> {
    if entities == [] then []
    else (if entities[0].Process? then [entities[0].proc] else []) + ProcessesIn(entities[1..])
  }

  function UsersIn(entities: seq<Entity>): seq<Entity> {
    if entities == [] then [] else (if entities[0].User? then [entities[0]] else []) + UsersIn(entities[1..])
  }

  lemma PartsOfFirst(e: Entity, rest: seq<Entity>)
    ensures ProcessesIn([e] + rest) == (if e.Process? then [e.proc] else []) + ProcessesIn(rest)
    ensures UsersIn([e] + rest) == (if e.User? then [e] else []) + UsersIn(rest)
  {
    assert ([e] + rest)[1..] == rest;
  }

  lemma {:induction false} PartsJoin(a: seq<Entity>, b: seq<Entity>)
    ensures ProcessesIn(a + b) == ProcessesIn(a) + ProcessesIn(b) && UsersIn(a + b) == UsersIn(a) + UsersIn(b)
    decreases |a|
  {
    if a == [] {
      assert a + b == b;
    } else {
      PartsJoin(a[1..], b);
      PartsOfFirst(a[0], a[1..]);
      PartsOfFirst(a[0], a[1..] + b);
      assert a + b == [a[0]] + (a[1..] + b);
    }
  }

  lemma {:induction false} PartsOfProcesses(procs: seq<Proc>)
    ensures ProcessesIn(Processes(procs)) == procs && UsersIn(Processes(procs)) == []
    decreases |procs|
  {
    if procs == [] {
    } else {
      assert Processes(procs)[1..] == Processes(procs[1..]);
      PartsOfProcesses(procs[1..]);
      assert procs == [procs[0]] + procs[1..];
    }
  }

  lemma PartsOfIps(ip: string)
    ensures ProcessesIn(Ips(ip)) == [] && UsersIn(Ips(ip)) == []
  {
  }

  lemma AssemblyParts(procs: seq<Proc>, username: string, ip: string, reversed: bool)
    ensures ProcessesIn(Assembly(procs, username, ip, reversed)) == procs
    ensures UsersIn(Assembly(procs, username, ip, reversed)) == [Shown(username)]
  {
    hide Processes, Slot, ProcessesIn, UsersIn, Ips;
    var user := [Shown(username)];
    OneUser(username);
    PartsOfIps(ip);
    if reversed {
      var k := Slot(procs, username);
      var a, b, c := Ips(ip), Processes(procs[..k]), Processes(procs[k..]);
      PartsOfProcesses(procs[..k]);
      PartsOfProcesses(procs[k..]);
      PartsJoin(a, b);
      PartsJoin(a + b, user);
      PartsJoin(a + b + user, c);
      assert procs == procs[..k] + procs[k..];
    } else {
      PartsOfProcesses(procs);
      PartsJoin(user, Processes(procs));
      PartsJoin(user + Processes(procs), Ips(ip));
    }
  }

  lemma OneUser(username: string)
    ensures ProcessesIn([Shown(username)]) == [] && UsersIn([Shown(username)]) == [Shown(username)]
  {
    assert [Shown(username)][1..] == [];
  }

  function EntitiesOf(steps: seq<Step>): (r: seq<Entity>)
    ensures |r| == |steps| && forall i :: 0 <= i < |steps| ==> r[i] == steps[i].entity
  {
    seq(|steps|, i requires 0 <= i < |steps| => steps[i].entity)
  }

  /**
   * Either direction shows the same processes in the same order of time, each PID once and exactly the first usable
   * record of each, one user step, and step numbers that are positions.
   */
  lemma ChainFaithful(rs: seq<Record>, reversed: bool)
    ensures var steps := Chain(rs, reversed);
      var procs := ProcessesIn(EntitiesOf(steps));
      && (forall i :: 0 <= i < |steps| ==> steps[i].index == i)
      && UsersIn(EntitiesOf(steps)) == [Shown(Username(rs))]
      && procs == ProcessesIn(EntitiesOf(Chain(rs, !reversed)))
      && Ordered(procs, Started()) && UniquePids(procs)
      && forall p :: p in procs <==> exists i :: 0 <= i < |rs| && IsFirst(rs, i) && p == rs[i].AsProc()
  {
    hide Assembly, FirstPerPid, Username, RemoteIp, ProcessesIn, UsersIn, IsFirst;
    var line, username, ip := Line(rs), Username(rs), RemoteIp(rs);
    assert EntitiesOf(Chain(rs, reversed)) == Assembly(line, username, ip, reversed);
    assert EntitiesOf(Chain(rs, !reversed)) == Assembly(line, username, ip, !reversed);
    AssemblyParts(line, username, ip, reversed);
    AssemblyParts(line, username, ip, !reversed);
    FirstPerPidExact(rs);
    SortOrdered(FirstPerPid(rs), Started());
    SortMembers(FirstPerPid(rs), Started());
    SortedPidsUnique(FirstPerPid(rs));
  }

  /** In the target order a known user stands right behind the first process that runs under that name. */
  lemma UserFollowsItsProcess(rs: seq<Record>, k: nat)
    requires k < |Line(rs)| && Username(rs) != "" && Line(rs)[k].user == Username(rs)
    requires forall i :: 0 <= i < k ==> Line(rs)[i].user != Username(rs)
    ensures var steps, at := Chain(rs, true), (if RemoteIp(rs) == "" then 0 else 1) + k;
      at + 1 < |steps| && steps[at].entity == Process(Line(rs)[k]) && steps[at + 1].entity == User(Username(rs))
  {
    hide Line, Username, RemoteIp, UserSlot;
    UserSlotIsFirst(Line(rs), Username(rs));
    var slot := UserSlot(Line(rs), Username(rs));
    assert slot == k + 1;
  }
}

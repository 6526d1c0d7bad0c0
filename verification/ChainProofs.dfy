/** What a rebuilt chain guarantees: causal order, one user, no dependence on row order. */
module ChainProofs {
  import opened Options
  import opened StableSort
  import opened ChainBuilder

  // ---- the process table ----

  /** Process `k` is an anchor, or some event names it together with a process listed before it. */
  ghost predicate Backed(es: seq<Event>, a: Anchors, procs: seq<Proc>, k: nat)
    requires k < |procs|
  {
    procs[k].pid in a.pids
    || exists e, m :: e in es && 0 <= m < k && Introduces(e, procs[m], procs[k])
  }

  ghost predicate Introduces(e: Event, parent: Proc, child: Proc) {
    e.IsProcess() && e.pid == Some(child.pid) && e.ts == child.ts
    && e.ppid == Some(parent.pid) && parent.ts <= child.ts
  }

  ghost predicate UniquePids(procs: seq<Proc>) {
    forall i, j :: 0 <= i < j < |procs| ==> procs[i].pid != procs[j].pid
  }

  ghost predicate TableOf(known: map<int, real>, procs: seq<Proc>) {
    && UniquePids(procs)
    && (forall i :: 0 <= i < |procs| ==> procs[i].pid in known && known[procs[i].pid] == procs[i].ts)
    && (forall pid :: pid in known ==> Listed(procs, pid))
  }

  ghost predicate Mentioned(es: seq<Event>, pid: int) {
    exists i :: 0 <= i < |es| && es[i].pid == Some(pid)
  }

  lemma MentionedStep(es: seq<Event>, pid: int)
    requires es != []
    ensures Mentioned(es, pid) <==> Mentioned(es[..|es| - 1], pid) || es[|es| - 1].pid == Some(pid)
  {
    if Mentioned(es[..|es| - 1], pid) {
      var i :| 0 <= i < |es| - 1 && es[..|es| - 1][i].pid == Some(pid);
      assert es[i].pid == Some(pid);
    }
    if i :| 0 <= i < |es| && es[i].pid == Some(pid) {
      assert i < |es| - 1 ==> es[..|es| - 1][i] == es[i];
    }
  }

  lemma {:induction false} AnchorsAreMentioned(es: seq<Event>, pivots: set<string>)
    ensures forall pid :: pid in FindAnchors(es, pivots).pids ==> Mentioned(es, pid)
  {
    if es == [] {
    } else {
      AnchorsAreMentioned(es[..|es| - 1], pivots);
      forall pid | pid in FindAnchors(es, pivots).pids ensures Mentioned(es, pid) { MentionedStep(es, pid); }
    }
  }

  lemma {:induction false} SeedsExact(es: seq<Event>, a: Anchors)
    ensures UniquePids(Seeds(es, a))
    ensures forall i :: 0 <= i < |Seeds(es, a)| ==> Seeds(es, a)[i].pid in a.pids && Seeds(es, a)[i].ts == a.pids[Seeds(es, a)[i].pid]
    ensures forall pid :: pid in a.pids && Mentioned(es, pid) ==> Listed(Seeds(es, a), pid)
  {
    if es == [] {
    } else {
      var init, last := es[..|es| - 1], es[|es| - 1];
      SeedsExact(init, a);
      var before, after := Seeds(init, a), Seeds(es, a);
      forall pid | pid in a.pids && Mentioned(es, pid) ensures Listed(after, pid) {
        MentionedStep(es, pid);
        if Listed(before, pid) {
          var i :| 0 <= i < |before| && before[i].pid == pid;
          assert after[i].pid == pid;
        } else {
          assert after[|before|].pid == pid;
        }
      }
    }
  }

  lemma SeedsTable(es: seq<Event>, pivots: set<string>)
    ensures var a := FindAnchors(es, pivots); TableOf(a.pids, Seeds(es, a))
  {
    var a := FindAnchors(es, pivots);
    AnchorsAreMentioned(es, pivots);
    SeedsExact(es, a);
  }

  lemma BackedKept(es: seq<Event>, more: seq<Event>, a: Anchors, procs: seq<Proc>, extra: seq<Proc>, k: nat)
    requires k < |procs| && Backed(es, a, procs, k) && es <= more
    ensures Backed(more, a, procs + extra, k)
  {
    if procs[k].pid !in a.pids {
      var e, m :| e in es && 0 <= m < k && Introduces(e, procs[m], procs[k]);
      assert e in more && Introduces(e, (procs + extra)[m], (procs + extra)[k]);
    }
  }

  lemma {:induction false} WalkTable(es: seq<Event>, seeds: seq<Proc>, a: Anchors)
    requires TableOf(a.pids, seeds)
    ensures var w := WalkFrom(es, seeds, a);
            TableOf(w.known, w.procs) && forall k :: 0 <= k < |w.procs| ==> Backed(es, a, w.procs, k)
  {
    if es == [] {
    } else {
      var init, e := es[..|es| - 1], es[|es| - 1];
      WalkTable(init, seeds, a);
      var v, w := WalkFrom(init, seeds, a), WalkFrom(es, seeds, a);
      forall k | 0 <= k < |v.procs| ensures Backed(es, a, w.procs, k) {
        BackedKept(init, es, a, v.procs, w.procs[|v.procs|..], k);
        assert w.procs == v.procs + w.procs[|v.procs|..];
      }
      if Extends(v.known, e, a.ts) { WalkAdds(es, v, e, a); }
    }
  }

  lemma WalkAdds(es: seq<Event>, v: Walk, e: Event, a: Anchors)
    requires TableOf(v.known, v.procs) && Extends(v.known, e, a.ts) && e in es
    ensures var w := WalkStep(v, e, a.ts); TableOf(w.known, w.procs) && Backed(es, a, w.procs, |v.procs|)
  {
    var w := WalkStep(v, e, a.ts);
    assert Listed(v.procs, e.ppid.value);
    var m :| 0 <= m < |v.procs| && v.procs[m].pid == e.ppid.value;
    assert Introduces(e, w.procs[m], w.procs[|v.procs|]);
    forall pid | pid in w.known ensures Listed(w.procs, pid) {
      if pid in v.known {
        var i :| 0 <= i < |v.procs| && v.procs[i].pid == pid;
        assert w.procs[i].pid == pid;
      } else {
        assert w.procs[|v.procs|].pid == pid;
      }
    }
  }

  lemma FinalTable(es: seq<Event>, pivots: seq<string>)
    ensures var a, w := FindAnchors(es, set p | p in pivots), Final(es, pivots);
            TableOf(w.known, w.procs) && forall k :: 0 <= k < |w.procs| ==> Backed(es, a, w.procs, k)
  {
    var a := FindAnchors(es, set p | p in pivots);
    SeedsTable(es, set p | p in pivots);
    WalkTable(es, Seeds(es, a), a);
  }

  // ---- from the table to the chain ----

  /** The index of the `n`-th process among the steps. */
  ghost function Place(ip: string, procs: seq<Proc>, user: string, n: nat): nat {
    (if ip == "" then 0 else 1) + n + (if user != "" && n >= UserSlot(procs, user) then 1 else 0)
  }

  /** The entity at position `i` of the steps. */
  ghost function EntityAt(ip: string, procs: seq<Proc>, user: string, i: nat): Entity
    requires i < (if ip == "" then 0 else 1) + |procs| + (if user == "" then 0 else 1)
  {
    var h, slot := if ip == "" then 0 else 1, UserSlot(procs, user);
    if i < h then Ip(ip)
    else if user == "" || i - h < slot then Process(procs[i - h])
    else if i - h == slot then User(user)
    else Process(procs[i - h - 1])
  }

  lemma EntitiesAt(ip: string, procs: seq<Proc>, user: string)
    ensures |Entities(ip, procs, user)| == (if ip == "" then 0 else 1) + |procs| + (if user == "" then 0 else 1)
    ensures forall i :: 0 <= i < |Entities(ip, procs, user)| ==> Entities(ip, procs, user)[i] == EntityAt(ip, procs, user, i)
  {
    hide Processes, UserSlot;
    var head := if ip == "" then [] else [Ip(ip)];
    var all := Entities(ip, procs, user);
    var h, k := |head|, UserSlot(procs, user);
    if user == "" {
      assert forall i :: h <= i < |all| ==> all[i] == Processes(procs)[i - h];
    } else {
      var front, back := Processes(procs[..k]), Processes(procs[k..]);
      assert forall i :: h <= i < h + k ==> all[i] == front[i - h];
      assert all[h + k] == User(user);
      assert forall i :: h + k < i < |all| ==> all[i] == back[i - h - k - 1] == Process(procs[i - h - 1]);
    }
  }

  lemma PlaceHolds(ip: string, procs: seq<Proc>, user: string, n: nat)
    requires n < |procs|
    ensures Place(ip, procs, user, n) < |Entities(ip, procs, user)|
    ensures Entities(ip, procs, user)[Place(ip, procs, user, n)] == Process(procs[n])
  {
    hide Entities, UserSlot;
    EntitiesAt(ip, procs, user);
  }

  lemma ProcessIsPlaced(ip: string, procs: seq<Proc>, user: string, i: nat) returns (n: nat)
    requires i < |Entities(ip, procs, user)| && Entities(ip, procs, user)[i].Process?
    ensures n < |procs| && Place(ip, procs, user, n) == i && Entities(ip, procs, user)[i] == Process(procs[n])
  {
    hide Entities, UserSlot;
    EntitiesAt(ip, procs, user);
    var h := if ip == "" then 0 else 1;
    n := if user != "" && i - h > UserSlot(procs, user) then i - h - 1 else i - h;
  }

  lemma UserIsPlacedOnce(ip: string, procs: seq<Proc>, user: string, i: nat)
    requires i < |Entities(ip, procs, user)|
    ensures Entities(ip, procs, user)[i].User?
       <==> user != "" && i == (if ip == "" then 0 else 1) + UserSlot(procs, user)
    ensures Entities(ip, procs, user)[i].User? ==> Entities(ip, procs, user)[i] == User(user)
  {
    hide Entities, UserSlot;
    EntitiesAt(ip, procs, user);
  }

  ghost predicate ChainFor(es: seq<Event>, pivots: seq<string>, steps: seq<Step>) {
    ChainOf(es, pivots) == Some(steps)
  }

  ghost function ChainIp(es: seq<Event>, pivots: seq<string>): string
    requires pivots != []
  {
    var a := FindAnchors(es, set p | p in pivots);
    if a.ip != "" then a.ip else pivots[0]
  }

  ghost function Line(es: seq<Event>, pivots: seq<string>): seq<Proc> {
    Sort(Final(es, pivots).procs, Started())
  }

  lemma ChainShape(es: seq<Event>, pivots: seq<string>, steps: seq<Step>)
    requires ChainFor(es, pivots, steps)
    ensures pivots != [] && steps == Numbered(Entities(ChainIp(es, pivots), Line(es, pivots), Final(es, pivots).user))
  {
  }

  function PidKey(): Proc -> real { (p: Proc) => p.pid as real }

  lemma SortedPidsUnique(procs: seq<Proc>)
    requires UniquePids(procs)
    ensures UniquePids(Sort(procs, Started()))
  {
    var t := Sort(procs, Started());
    SortPermutes(procs, Started());
    DistinctKeysPermuted(procs, t, PidKey());
    assert forall i, j :: 0 <= i < j < |t| ==> PidKey()(t[i]) != PidKey()(t[j]);
  }

  /** Numbering is by position, time never runs backwards along the processes, no PID occurs twice. */
  lemma ChainIsOrdered(es: seq<Event>, pivots: seq<string>, steps: seq<Step>, i: nat, j: nat)
    requires ChainFor(es, pivots, steps) && i < j < |steps|
    ensures steps[i].index == i && steps[j].index == j
    ensures steps[i].entity.Process? && steps[j].entity.Process? ==>
              steps[i].entity.proc.ts <= steps[j].entity.proc.ts && steps[i].entity.proc.pid != steps[j].entity.proc.pid
  {
    ChainShape(es, pivots, steps);
    if steps[i].entity.Process? && steps[j].entity.Process? {
      var ip, line, user := ChainIp(es, pivots), Line(es, pivots), Final(es, pivots).user;
      var m := ProcessIsPlaced(ip, line, user, i);
      var n := ProcessIsPlaced(ip, line, user, j);
      FinalTable(es, pivots);
      SortOrdered(Final(es, pivots).procs, Started());
      SortedPidsUnique(Final(es, pivots).procs);
      assert m < n;
      assert Started()(line[m]) <= Started()(line[n]);
    }
  }

  lemma ParentPrecedes(es: seq<Event>, pivots: seq<string>, n: nat) returns (e: Event, m: nat)
    requires n < |Line(es, pivots)|
    requires Line(es, pivots)[n].pid !in FindAnchors(es, set p | p in pivots).pids
    ensures e in es && m < n && Introduces(e, Line(es, pivots)[m], Line(es, pivots)[n])
  {
    var a, procs, line := FindAnchors(es, set p | p in pivots), Final(es, pivots).procs, Line(es, pivots);
    FinalTable(es, pivots);
    SortMembers(procs, Started());
    SortedPidsUnique(procs);
    assert line[n] in line;
    var k :| 0 <= k < |procs| && procs[k] == line[n];
    assert Backed(es, a, procs, k);
    var c: nat;
    e, c :| e in es && 0 <= c < k && Introduces(e, procs[c], procs[k]);
    var p, q := SortStable(procs, Started(), c, k);
    assert q == n;
    m := p;
  }

  /** Causality: a process step that is not an anchor comes after the step of the parent its event names. */
  lemma ChainIsCausal(es: seq<Event>, pivots: seq<string>, steps: seq<Step>, i: nat)
    requires ChainFor(es, pivots, steps) && i < |steps| && steps[i].entity.Process?
    ensures steps[i].entity.proc.pid in FindAnchors(es, set p | p in pivots).pids
         || exists e, j :: e in es && 0 <= j < i && steps[j].entity.Process?
                           && Introduces(e, steps[j].entity.proc, steps[i].entity.proc)
  {
    ChainShape(es, pivots, steps);
    var ip, line, user := ChainIp(es, pivots), Line(es, pivots), Final(es, pivots).user;
    var n := ProcessIsPlaced(ip, line, user, i);
    if line[n].pid !in FindAnchors(es, set p | p in pivots).pids {
      var e, m := ParentPrecedes(es, pivots, n);
      PlaceHolds(ip, line, user, m);
      var j := Place(ip, line, user, m);
      assert steps[j].entity == Process(line[m]) && j < i;
    }
  }

  /** A known user appears exactly once, an unknown one never. */
  lemma UserAppearsOnce(es: seq<Event>, pivots: seq<string>, steps: seq<Step>)
    requires ChainFor(es, pivots, steps)
    ensures var user := Final(es, pivots).user;
            if user == "" then forall i :: 0 <= i < |steps| ==> !steps[i].entity.User?
            else exists u :: 0 <= u < |steps| && steps[u].entity == User(user)
                             && forall i :: 0 <= i < |steps| && i != u ==> !steps[i].entity.User?
  {
    ChainShape(es, pivots, steps);
    var ip, line, user := ChainIp(es, pivots), Line(es, pivots), Final(es, pivots).user;
    forall i | 0 <= i < |steps|
      ensures steps[i].entity.User? <==> user != "" && i == (if ip == "" then 0 else 1) + UserSlot(line, user)
      ensures steps[i].entity.User? ==> steps[i].entity == User(user) {
      UserIsPlacedOnce(ip, line, user, i);
    }
    if user != "" {
      var u := (if ip == "" then 0 else 1) + UserSlot(line, user);
      assert u < |steps| && steps[u].entity == User(user);
    }
  }

  // ---- input order ----

  lemma {:induction false} EventCount(rows: seq<Row>, agent: string, e: Event)
    ensures multiset(TargetEvents(rows, agent))[e] == multiset(rows)[Row(agent, Some(e))]
  {
    if rows == [] {
    } else {
      var init, last, row := rows[..|rows| - 1], rows[|rows| - 1], Row(agent, Some(e));
      EventCount(init, agent, e);
      assert rows == init + [last];
      assert multiset(rows)[row] == multiset(init)[row] + if last == row then 1 else 0;
      var events := TargetEvents(init, agent);
      if last.agent == agent && last.event.Some? {
        assert TargetEvents(rows, agent) == events + [last.event.value];
      } else {
        assert TargetEvents(rows, agent) == events;
      }
    }
  }

  /** With distinct timestamps the chain does not depend on the order in which the rows arrive. */
  lemma ChainIgnoresRowOrder(rows: seq<Row>, others: seq<Row>, agent: string, pivots: seq<string>)
    requires multiset(rows) == multiset(others) && DistinctKeys(TargetEvents(rows, agent), When())
    ensures Chain(rows, agent, pivots) == Chain(others, agent, pivots)
  {
    var a, b := TargetEvents(rows, agent), TargetEvents(others, agent);
    forall e ensures multiset(a)[e] == multiset(b)[e] {
      EventCount(rows, agent, e);
      EventCount(others, agent, e);
    }
    assert multiset(a) == multiset(b);
    SortIgnoresInputOrder(a, b, When());
  }
}

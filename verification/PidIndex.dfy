/** The in-memory PID index and the Process table it must agree with. */
module PidIndex {
  import opened Options
  import opened Sets

  type NodeId = string

  /** A Process node; the id of a node fixes its PID, since it contains it. */
  datatype ProcRow = ProcRow(pid: int, parent: int, name: string)
  type ProcTable = map<NodeId, ProcRow>

  /** The four dictionaries: node ids per PID, children per parent, parent and name per PID. */
  datatype Index = Index(ids: map<int, seq<NodeId>>, children: map<int, set<int>>,
                         parents: map<int, int>, names: map<int, string>)

  const EMPTY: Index := Index(map[], map[], map[], map[])

  function IdsOf(ids: map<int, seq<NodeId>>, pid: int): seq<NodeId> { if pid in ids then ids[pid] else [] }

  function Upserted(ix: Index, id: NodeId, pid: int, parent: int, name: string): Index {
    var was := IdsOf(ix.ids, pid);
    Index(ix.ids[pid := if id in was then was else was + [id]],
          if parent > 0 then ix.children[parent := (if parent in ix.children then ix.children[parent] else {}) + {pid}] else ix.children,
          if parent > 0 then ix.parents[pid := parent] else ix.parents,
          if name != "" then ix.names[pid := name] else ix.names)
  }

  /** The ids not in `gone`, in order. */
  function Kept(ids: seq<NodeId>, gone: set<NodeId>): (r: seq<NodeId>)
    ensures |r| <= |ids|
  {
    if ids == [] then []
    else Kept(ids[..|ids| - 1], gone) + if ids[|ids| - 1] in gone then [] else [ids[|ids| - 1]]
  }

  lemma {:induction false} KeptExact(ids: seq<NodeId>, gone: set<NodeId>)
    ensures forall x :: x in Kept(ids, gone) <==> x in ids && x !in gone
    ensures NoDuplicates(ids) ==> NoDuplicates(Kept(ids, gone))
  {
    if ids == [] {
    } else {
      KeptExact(ids[..|ids| - 1], gone);
      assert ids == ids[..|ids| - 1] + [ids[|ids| - 1]];
    }
  }

  ghost predicate IsChild(ch: map<int, set<int>>, parent: int, pid: int) {
    parent in ch && pid in ch[parent]
  }

  ghost predicate Dies(ix: Index, gone: set<NodeId>, pid: int) {
    pid in ix.ids && Kept(ix.ids[pid], gone) == []
  }

  /** What removing nodes leaves: emptied PIDs disappear from every dictionary, emptied families too. */
  ghost predicate Removed(ix: Index, gone: set<NodeId>, r: Index) {
    && (forall p :: p in r.ids <==> p in ix.ids && Kept(ix.ids[p], gone) != [])
    && (forall p :: p in r.ids ==> r.ids[p] == Kept(ix.ids[p], gone))
    && (forall p, c :: IsChild(r.children, p, c) <==> IsChild(ix.children, p, c) && !Dies(ix, gone, c))
    && (forall p :: p in r.children ==> r.children[p] != {})
    && (forall p :: p in r.parents <==> p in ix.parents && !Dies(ix, gone, p))
    && (forall p :: p in r.parents ==> r.parents[p] == ix.parents[p])
    && (forall p :: p in r.names <==> p in ix.names && !Dies(ix, gone, p))
    && (forall p :: p in r.names ==> r.names[p] == ix.names[p])
  }

  /** The entries, as PID and position, that hold a node to be removed. */
  ghost function Slots(ids: map<int, seq<NodeId>>, gone: set<NodeId>, pids: set<int>): set<(int, int)> {
    set p, i | p in pids && p in ids && 0 <= i < |ids[p]| && ids[p][i] in gone :: (p, i)
  }

  ghost function SlotsOf(pid: int, list: seq<NodeId>, gone: set<NodeId>): set<(int, int)> {
    set i | 0 <= i < |list| && list[i] in gone :: (pid, i)
  }

  lemma {:induction false} SlotsOfSize(pid: int, list: seq<NodeId>, gone: set<NodeId>)
    ensures |SlotsOf(pid, list, gone)| == |list| - |Kept(list, gone)|
    decreases |list|
  {
    if list == [] {
      assert SlotsOf(pid, list, gone) == {};
    } else {
      var n := |list| - 1;
      var init := list[..n];
      SlotsOfSize(pid, init, gone);
      assert SlotsOf(pid, list, gone) == SlotsOf(pid, init, gone) + if list[n] in gone then {(pid, n)} else {};
    }
  }

  lemma NoSlots(ids: map<int, seq<NodeId>>, gone: set<NodeId>)
    ensures |Slots(ids, gone, {})| == 0
  {
    assert Slots(ids, gone, {}) == {};
  }

  lemma NothingGone(ids: map<int, seq<NodeId>>)
    ensures |Slots(ids, (set n | n in []), ids.Keys)| == 0
  {
    assert Slots(ids, (set n | n in []), ids.Keys) == {};
  }

  lemma SlotsStep(ids: map<int, seq<NodeId>>, gone: set<NodeId>, pids: set<int>, pid: int)
    requires pid in ids && pid !in pids
    ensures |Slots(ids, gone, pids + {pid})| == |Slots(ids, gone, pids)| + |ids[pid]| - |Kept(ids[pid], gone)|
  {
    SlotsOfSize(pid, ids[pid], gone);
    var a, b := Slots(ids, gone, pids), SlotsOf(pid, ids[pid], gone);
    assert Slots(ids, gone, pids + {pid}) == a + b;
    assert a * b == {};
  }

  // ---- agreement with the table ----

  /** Every PID maps to exactly its live nodes, each once, and never to an empty list. */
  ghost predicate IdsAgree(ids: map<int, seq<NodeId>>, t: ProcTable) {
    && (forall id :: id in t ==> t[id].pid in ids && id in ids[t[id].pid])
    && (forall p :: p in ids ==> ids[p] != [] && NoDuplicates(ids[p]))
    && (forall p, id :: p in ids && id in ids[p] ==> id in t && t[id].pid == p)
  }

  /** A recorded parent lists the PID as a child, and only live PIDs are children, have parents or names. */
  ghost predicate FamiliesAgree(ix: Index) {
    && (forall p :: p in ix.parents ==> p in ix.ids && IsChild(ix.children, ix.parents[p], p))
    && (forall p, c :: IsChild(ix.children, p, c) ==> c in ix.ids)
    && (forall p :: p in ix.children ==> ix.children[p] != {})
    && (forall p :: p in ix.names ==> p in ix.ids)
  }

  ghost predicate Agrees(ix: Index, t: ProcTable) {
    IdsAgree(ix.ids, t) && FamiliesAgree(ix)
  }

  /** MERGE of a Process node: a known node keeps its PID and name, and its parent unless a new one is given. */
  function Merged(t: ProcTable, id: NodeId, pid: int, parent: int, name: string): ProcTable {
    if id in t then t[id := t[id].(parent := if parent != 0 then parent else t[id].parent)]
    else t[id := ProcRow(pid, parent, name)]
  }

  lemma UpsertIdsAgree(ids: map<int, seq<NodeId>>, t: ProcTable, id: NodeId, pid: int, parent: int, name: string)
    requires IdsAgree(ids, t) && (id in t ==> t[id].pid == pid)
    ensures var was := IdsOf(ids, pid);
            IdsAgree(ids[pid := if id in was then was else was + [id]], Merged(t, id, pid, parent, name))
  {
    hide Merged, NoDuplicates;
    var was := IdsOf(ids, pid);
    var now := if id in was then was else was + [id];
    OneMore(was, id);
    MergedPids(t, id, pid, parent, name);
    var after, table := ids[pid := now], Merged(t, id, pid, parent, name);
    forall x | x in table ensures table[x].pid in after && x in after[table[x].pid] {
      if x != id { assert x in t && t[x].pid in ids; }
    }
    forall p, x | p in after && x in after[p] ensures x in table && table[x].pid == p {
      if p != pid { assert p in ids && x in ids[p]; }
    }
  }

  lemma OneMore(was: seq<NodeId>, id: NodeId)
    ensures var now := if id in was then was else was + [id];
      NoDuplicates<NodeId>([]) && (NoDuplicates(was) ==> NoDuplicates(now)) && now != [] && forall x :: x in now <==> x in was || x == id
  {
  }

  lemma MergedPids(t: ProcTable, id: NodeId, pid: int, parent: int, name: string)
    requires id in t ==> t[id].pid == pid
    ensures var r := Merged(t, id, pid, parent, name);
      (forall x :: x in r <==> x in t || x == id) && (forall x :: x in t ==> r[x].pid == t[x].pid) && r[id].pid == pid
  {
  }

  lemma UpsertAgrees(ix: Index, t: ProcTable, id: NodeId, pid: int, parent: int, name: string)
    requires Agrees(ix, t) && (id in t ==> t[id].pid == pid)
    ensures Agrees(Upserted(ix, id, pid, parent, name), Merged(t, id, pid, parent, name))
  {
    hide Merged, IdsAgree;
    var r := Upserted(ix, id, pid, parent, name);
    UpsertIdsAgree(ix.ids, t, id, pid, parent, name);
    assert parent > 0 ==> IsChild(r.children, parent, pid);
    forall p, c | IsChild(r.children, p, c) ensures c in r.ids {
      assert c == pid || IsChild(ix.children, p, c);
    }
  }

  lemma RemoveAgrees(ix: Index, t: ProcTable, gone: set<NodeId>, r: Index)
    requires Agrees(ix, t) && Removed(ix, gone, r)
    ensures Agrees(r, t - gone)
  {
    hide Kept;
    forall p | p in ix.ids
      ensures forall x :: x in Kept(ix.ids[p], gone) <==> x in ix.ids[p] && x !in gone
      ensures NoDuplicates(Kept(ix.ids[p], gone)) {
      KeptExact(ix.ids[p], gone);
    }
    forall id | id in t - gone ensures t[id].pid in r.ids && id in r.ids[t[id].pid] {
      assert id in Kept(ix.ids[t[id].pid], gone);
    }
    assert forall c :: c in ix.ids && !Dies(ix, gone, c) ==> c in r.ids;
  }

  // ---- any sequence of operations ----

  /** An upsert of one node, or a deletion of nodes by the reaper or by a purge. */
  datatype Op = Upsert(id: NodeId, pid: int, parent: int, name: string) | Delete(gone: set<NodeId>)

  ghost predicate OpStep(ix: Index, t: ProcTable, op: Op, ix': Index, t': ProcTable) {
    match op
    case Upsert(id, pid, parent, name) =>
      (id in t ==> t[id].pid == pid) && ix' == Upserted(ix, id, pid, parent, name) && t' == Merged(t, id, pid, parent, name)
    case Delete(gone) => Removed(ix, gone, ix') && t' == t - gone
  }

  /** The index agrees with the table at the end of every operation of every run. */
  lemma {:induction false} IndexAlwaysAgrees(ixs: seq<Index>, ts: seq<ProcTable>, ops: seq<Op>, k: nat)
    requires |ixs| == |ts| == |ops| + 1 && ixs[0] == EMPTY && ts[0] == map[] && k < |ixs|
    requires forall i :: 0 <= i < |ops| ==> OpStep(ixs[i], ts[i], ops[i], ixs[i + 1], ts[i + 1])
    ensures Agrees(ixs[k], ts[k])
  {
    if k == 0 {
    } else {
      IndexAlwaysAgrees(ixs, ts, ops, k - 1);
      assert OpStep(ixs[k - 1], ts[k - 1], ops[k - 1], ixs[k], ts[k]);
      match ops[k - 1]
      case Upsert(id, pid, parent, name) => UpsertAgrees(ixs[k - 1], ts[k - 1], id, pid, parent, name);
      case Delete(gone) => RemoveAgrees(ixs[k - 1], ts[k - 1], gone, ixs[k]);
    }
  }

  /** Emptied PIDs leave their families, and families this empties go. */
  lemma FamiliesThin(was: map<int, set<int>>, thinned: map<int, set<int>>, now: map<int, set<int>>, emptied: set<int>)
    requires (forall p :: p in thinned <==> p in was) && forall p :: p in thinned ==> thinned[p] == was[p] - emptied
    requires (forall p :: p in now <==> p in thinned && thinned[p] != {}) && forall p :: p in now ==> now[p] == thinned[p]
    ensures forall p, c :: IsChild(now, p, c) <==> IsChild(was, p, c) && c !in emptied
  {
    forall p, c ensures IsChild(now, p, c) <==> IsChild(was, p, c) && c !in emptied {
      if p in was { assert c in thinned[p] <==> c in was[p] && c !in emptied; }
    }
  }

  /** What the evictions do to the dictionaries, put together. */
  lemma EvictionRemoves(was: Index, gone: set<NodeId>, emptied: set<int>, kept: map<int, seq<NodeId>>,
                        thinned: map<int, set<int>>, now: Index)
    requires forall p :: p in emptied <==> Dies(was, gone, p)
    requires (forall p :: p in kept <==> p in was.ids) && forall p :: p in kept ==> kept[p] == Kept(was.ids[p], gone)
    requires (forall p :: p in now.ids <==> p in kept && p !in emptied) && forall p :: p in now.ids ==> now.ids[p] == kept[p]
    requires (forall p :: p in thinned <==> p in was.children)
          && forall p :: p in thinned ==> thinned[p] == was.children[p] - emptied
    requires (forall p :: p in now.children <==> p in thinned && thinned[p] != {})
          && forall p :: p in now.children ==> now.children[p] == thinned[p]
    requires (forall p :: p in now.parents <==> p in was.parents && p !in emptied)
          && forall p :: p in now.parents ==> now.parents[p] == was.parents[p]
    requires (forall p :: p in now.names <==> p in was.names && p !in emptied)
          && forall p :: p in now.names ==> now.names[p] == was.names[p]
    ensures Removed(was, gone, now)
  {
    hide Kept, IsChild;
    FamiliesThin(was.children, thinned, now.children, emptied);
  }

  // ---- the object ----

  class PidIndex {
    var ids: map<int, seq<NodeId>>
    var children: map<int, set<int>>
    var parents: map<int, int>
    var names: map<int, string>

    ghost function State(): Index
      reads this
    {
      Index(ids, children, parents, names)
    }

    constructor ()
      ensures State() == EMPTY
    {
      ids, children, parents, names := map[], map[], map[], map[];
    }

    method OnUpsert(id: NodeId, pid: int, parent: int, name: string)
      modifies this
      ensures State() == Upserted(old(State()), id, pid, parent, name)
    {
      var was := IdsOf(ids, pid);
      ids := ids[pid := if id in was then was else was + [id]];
      if parent > 0 {
        children := children[parent := (if parent in children then children[parent] else {}) + {pid}];
        parents := parents[pid := parent];
      }
      if name != "" {
        names := names[pid := name];
      }
    }

    /** Evicts the nodes; a PID left without nodes is evicted everywhere. Returns how many ids went. */
    method RemoveNodes(nodeIds: seq<NodeId>) returns (evicted: int)
      modifies this
      ensures nodeIds != [] ==> Removed(old(State()), (set n | n in nodeIds), State())
      ensures nodeIds == [] ==> State() == old(State())
      ensures evicted == |Slots(old(ids), (set n | n in nodeIds), old(ids).Keys)|
    {
      hide Kept, IsChild, Slots, Dies, Removed;
      if nodeIds == [] {
        NothingGone(ids);
        return 0;
      }
      var gone := set n | n in nodeIds;
      var emptied: set<int>;
      evicted, emptied := EvictIds(gone);
      ghost var kept := ids;
      EvictPids(emptied);
      ghost var thinned := children;
      DropEmptyFamilies();
      EvictionRemoves(old(State()), gone, emptied, kept, thinned, State());
    }

    method EvictIds(gone: set<NodeId>) returns (evicted: int, emptied: set<int>)
      modifies this`ids
      ensures forall p :: p in emptied <==> Dies(old(State()), gone, p)
      ensures forall p :: p in ids <==> p in old(ids)
      ensures forall p :: p in ids ==> ids[p] == Kept(old(ids)[p], gone)
      ensures evicted == |Slots(old(ids), gone, old(ids).Keys)|
    {
      hide Kept, Slots;
      evicted, emptied := 0, {};
      var todo := ids.Keys;
      NoSlots(ids, gone);
      assert old(ids).Keys - todo == {};
      while todo != {}
        invariant todo <= old(ids).Keys == ids.Keys
        invariant forall p :: p in todo ==> ids[p] == old(ids)[p]
        invariant forall p :: p in ids && p !in todo ==> ids[p] == Kept(old(ids)[p], gone)
        invariant forall p :: p in emptied <==> p in ids && p !in todo && Kept(old(ids)[p], gone) == []
        invariant evicted == |Slots(old(ids), gone, old(ids).Keys - todo)|
        decreases |todo|
      {
        var pid := Pick(todo);
        SlotsStep(old(ids), gone, old(ids).Keys - todo, pid);
        assert old(ids).Keys - (todo - {pid}) == old(ids).Keys - todo + {pid};
        todo := todo - {pid};
        var rest := Kept(ids[pid], gone);
        evicted := evicted + |ids[pid]| - |rest|;
        ids := ids[pid := rest];
        if rest == [] { emptied := emptied + {pid}; }
      }
      assert old(ids).Keys - todo == old(ids).Keys;
    }

    method EvictPids(emptied: set<int>)
      modifies this
      ensures forall p :: p in ids <==> p in old(ids) && p !in emptied
      ensures forall p :: p in ids ==> ids[p] == old(ids)[p]
      ensures forall p :: p in children <==> p in old(children)
      ensures forall p :: p in children ==> children[p] == old(children)[p] - emptied
      ensures forall p :: p in parents <==> p in old(parents) && p !in emptied
      ensures forall p :: p in parents ==> parents[p] == old(parents)[p]
      ensures forall p :: p in names <==> p in old(names) && p !in emptied
      ensures forall p :: p in names ==> names[p] == old(names)[p]
    {
      var todo := emptied;
      while todo != {}
        invariant todo <= emptied
        invariant forall p :: p in ids <==> p in old(ids) && (p in emptied ==> p in todo)
        invariant forall p :: p in ids ==> ids[p] == old(ids)[p]
        invariant forall p :: p in children <==> p in old(children)
        invariant forall p :: p in children ==> children[p] == old(children)[p] - (emptied - todo)
        invariant forall p :: p in parents <==> p in old(parents) && (p in emptied ==> p in todo)
        invariant forall p :: p in parents ==> parents[p] == old(parents)[p]
        invariant forall p :: p in names <==> p in old(names) && (p in emptied ==> p in todo)
        invariant forall p :: p in names ==> names[p] == old(names)[p]
        decreases |todo|
      {
        var pid := Pick(todo);
        todo := todo - {pid};
        ids := ids - {pid};
        children := map p | p in children :: children[p] - {pid};
        parents := parents - {pid};
        names := names - {pid};
      }
    }

    method DropEmptyFamilies()
      modifies this`children
      ensures forall p :: p in children <==> p in old(children) && old(children)[p] != {}
      ensures forall p :: p in children ==> children[p] == old(children)[p]
    {
      children := map p | p in children && children[p] != {} :: children[p];
    }

    /** The incarnation of a PID at a moment: the latest one that had started by then. */
    method GetNodeIdAtTime(pid: int, at: real, epoch: NodeId -> real) returns (best: Option<NodeId>)
      ensures best.Some? ==> best.value in IdsOf(ids, pid) && 0.0 < epoch(best.value) <= at
      ensures best.Some? ==> forall id :: id in IdsOf(ids, pid) && epoch(id) <= at ==> epoch(id) <= epoch(best.value)
      ensures best.None? <==> forall id :: id in IdsOf(ids, pid) ==> epoch(id) > at || epoch(id) <= 0.0
    {
      best := None;
      var bestEpoch := 0.0;
      var list := IdsOf(ids, pid);
      var i := 0;
      while i < |list|
        invariant 0 <= i <= |list| && bestEpoch >= 0.0
        invariant best.None? ==> bestEpoch == 0.0
        invariant best.Some? ==> best.value in list && 0.0 < bestEpoch == epoch(best.value) <= at
        invariant forall j :: 0 <= j < i && epoch(list[j]) <= at ==> epoch(list[j]) <= bestEpoch
      {
        var e := epoch(list[i]);
        if e <= at && e > bestEpoch {
          best, bestEpoch := Some(list[i]), e;
        }
        i := i + 1;
      }
    }
  }
}

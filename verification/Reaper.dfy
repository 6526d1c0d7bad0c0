/** Pruning of old edges and paged removal of nodes that are left without edges. */
module Reaper {
  import opened Numbers
  import opened Options
  import opened PidIndex
  import opened Sets

  type Id = NodeId

  datatype Label = Ip | Domain | File | RegistryKey | Process | User

  datatype EdgeKind = Spawned | ConnectedTo | Resolved | ResolvesTo
                    | CreatedFile | ModifiedFile | ReadFile | DeletedFile
                    | CreatedReg | ModifiedReg | DeletedReg | ListeningOn
  {
    /** The node tables an edge table connects. */
    function From(): Label {
      match this
      case Spawned => User
      case ResolvesTo => Domain
      case _ => Process
    }

    function To(): Label {
      match this
      case Spawned => Process
      case ConnectedTo => Ip
      case ResolvesTo => Ip
      case ListeningOn => Ip
      case Resolved => Domain
      case CreatedFile => File
      case ModifiedFile => File
      case ReadFile => File
      case DeletedFile => File
      case _ => RegistryKey
    }
  }

  const EDGE_KINDS: seq<EdgeKind> := [Spawned, ConnectedTo, Resolved, ResolvesTo, CreatedFile, ModifiedFile, ReadFile,
                                      DeletedFile, CreatedReg, ModifiedReg, DeletedReg, ListeningOn]

  const LABELS: seq<Label> := [Ip, Domain, File, RegistryKey, Process, User]

  datatype Edge = Edge(kind: EdgeKind, src: Id, dst: Id, ts: real)

  datatype Check = In(kind: EdgeKind) | Out(kind: EdgeKind)

  /** The edge tables probed before a node of each label is called an orphan. */
  function Checks(lab: Label): seq<Check> {
    match lab
    case Ip => [In(ConnectedTo), In(ResolvesTo), In(ListeningOn)]
    case Domain => [In(Resolved), Out(ResolvesTo)]
    case File => [In(CreatedFile), In(ModifiedFile), In(ReadFile), In(DeletedFile)]
    case RegistryKey => [In(CreatedReg), In(ModifiedReg), In(DeletedReg)]
    case Process => [In(Spawned), Out(ConnectedTo), Out(Resolved), Out(CreatedFile), Out(ModifiedFile), Out(ReadFile),
                     Out(DeletedFile), Out(CreatedReg), Out(ModifiedReg), Out(DeletedReg), Out(ListeningOn)]
    case User => [Out(Spawned)]
  }

  predicate Hits(c: Check, id: Id, e: Edge) {
    e.kind == c.kind && (if c.In? then e.dst == id else e.src == id)
  }

  predicate HasEdges(edges: seq<Edge>, lab: Label, id: Id) {
    exists c, e :: c in Checks(lab) && e in edges && Hits(c, id, e)
  }

  predicate Touches(e: Edge, lab: Label, id: Id) {
    (e.kind.From() == lab && e.src == id) || (e.kind.To() == lab && e.dst == id)
  }

  /** The probes miss no edge table: a node they find nothing for has no edge of any kind. */
  lemma ChecksCoverSchema(edges: seq<Edge>, lab: Label, id: Id)
    ensures HasEdges(edges, lab, id) <==> exists e :: e in edges && Touches(e, lab, id)
  {
    forall e | e in edges && Touches(e, lab, id) ensures HasEdges(edges, lab, id) {
      CheckFor(e, lab, id);
      var c :| c in Checks(lab) && Hits(c, id, e);
    }
  }

  lemma CheckFor(e: Edge, lab: Label, id: Id)
    requires Touches(e, lab, id)
    ensures exists c :: c in Checks(lab) && Hits(c, id, e)
  {
    var c := if e.kind.From() == lab && e.src == id then Out(e.kind) else In(e.kind);
    assert c in Checks(lab);
  }

  /** What DETACH DELETE leaves of the edges. */
  function Detached(edges: seq<Edge>, lab: Label, id: Id): seq<Edge> {
    if edges == [] then []
    else
      var last := edges[|edges| - 1];
      Detached(edges[..|edges| - 1], lab, id) + if Touches(last, lab, id) then [] else [last]
  }

  lemma {:induction false} UntouchedStay(edges: seq<Edge>, lab: Label, id: Id)
    requires forall e :: e in edges ==> !Touches(e, lab, id)
    ensures Detached(edges, lab, id) == edges
  {
    hide Touches;
    if edges == [] {
    } else {
      UntouchedStay(edges[..|edges| - 1], lab, id);
      assert edges[|edges| - 1] in edges;
    }
  }

  lemma OrphanLosesNoEdge(edges: seq<Edge>, lab: Label, id: Id)
    requires !HasEdges(edges, lab, id)
    ensures Detached(edges, lab, id) == edges
  {
    hide HasEdges, Touches, Detached;
    ChecksCoverSchema(edges, lab, id);
    UntouchedStay(edges, lab, id);
  }

  // ---- edges ----

  function Fresh(edges: seq<Edge>, kinds: set<EdgeKind>, cutoff: real): seq<Edge> {
    if edges == [] then []
    else
      var last := edges[|edges| - 1];
      Fresh(edges[..|edges| - 1], kinds, cutoff) + if last.kind in kinds && last.ts < cutoff then [] else [last]
  }

  lemma {:induction false} FreshExact(edges: seq<Edge>, kinds: set<EdgeKind>, cutoff: real)
    ensures |Fresh(edges, kinds, cutoff)| <= |edges|
    ensures forall e :: e in Fresh(edges, kinds, cutoff) <==> e in edges && !(e.kind in kinds && e.ts < cutoff)
  {
    if edges == [] {
    } else {
      FreshExact(edges[..|edges| - 1], kinds, cutoff);
      assert edges == edges[..|edges| - 1] + [edges[|edges| - 1]];
    }
  }

  lemma {:induction false} FreshAgain(edges: seq<Edge>, ks: set<EdgeKind>, k: EdgeKind, cutoff: real)
    ensures Fresh(Fresh(edges, ks, cutoff), {k}, cutoff) == Fresh(edges, ks + {k}, cutoff)
  {
    if edges == [] {
    } else {
      var init, last := edges[..|edges| - 1], edges[|edges| - 1];
      FreshAgain(init, ks, k, cutoff);
      if last.kind in ks && last.ts < cutoff {
        assert Fresh(edges, ks, cutoff) == Fresh(init, ks, cutoff);
      } else {
        assert Fresh(edges, ks, cutoff)[..|Fresh(init, ks, cutoff)|] == Fresh(init, ks, cutoff);
      }
    }
  }

  lemma {:induction false} FreshNothing(edges: seq<Edge>, cutoff: real)
    ensures Fresh(edges, {}, cutoff) == edges
  {
    if edges == [] {
    } else {
      FreshNothing(edges[..|edges| - 1], cutoff);
    }
  }

  // ---- lists of nodes ----

  lemma {:induction false} KeptSplit(a: seq<Id>, b: seq<Id>, gone: set<Id>)
    ensures Kept(a + b, gone) == Kept(a, gone) + Kept(b, gone)
  {
    if b == [] {
      assert a + b == a;
    } else {
      var init := b[..|b| - 1];
      KeptSplit(a, init, gone);
      assert (a + b)[..|a + b| - 1] == a + init;
    }
  }

  lemma {:induction false} KeptSame(ids: seq<Id>, g: set<Id>, h: set<Id>)
    requires forall x :: x in ids ==> (x in g <==> x in h)
    ensures Kept(ids, g) == Kept(ids, h)
  {
    if ids == [] {
    } else {
      KeptSame(ids[..|ids| - 1], g, h);
    }
  }

  lemma {:induction false} KeptAll(ids: seq<Id>)
    ensures Kept(ids, {}) == ids
  {
    if ids == [] {
    } else {
      KeptAll(ids[..|ids| - 1]);
    }
  }

  lemma {:induction false} KeptTwice(ids: seq<Id>, g: set<Id>, h: set<Id>)
    ensures Kept(Kept(ids, g), h) == Kept(ids, g + h)
  {
    if ids == [] {
    } else {
      var init, last := ids[..|ids| - 1], ids[|ids| - 1];
      KeptTwice(init, g, h);
      if last in g {
        assert Kept(ids, g) == Kept(init, g);
      } else {
        assert Kept(ids, g)[..|Kept(init, g)|] == Kept(init, g);
      }
    }
  }

  predicate Removable(edges: seq<Edge>, lab: Label, id: Id, stuck: set<Id>) {
    !HasEdges(edges, lab, id) && id !in stuck
  }

  function Orphans(ids: seq<Id>, edges: seq<Edge>, lab: Label, stuck: set<Id>): set<Id> {
    set id | id in ids && Removable(edges, lab, id, stuck)
  }

  lemma OrphansStep(ids: seq<Id>, n: nat, edges: seq<Edge>, lab: Label, stuck: set<Id>)
    requires n < |ids|
    ensures Removable(edges, lab, ids[n], stuck) ==>
              Orphans(ids[..n + 1], edges, lab, stuck) == Orphans(ids[..n], edges, lab, stuck) + {ids[n]}
    ensures !Removable(edges, lab, ids[n], stuck) ==>
              Orphans(ids[..n + 1], edges, lab, stuck) == Orphans(ids[..n], edges, lab, stuck)
  {
    assert ids[..n + 1] == ids[..n] + [ids[n]];
  }

  lemma KeptNothing(gone: set<Id>)
    ensures Kept([], gone) == []
  {
  }

  lemma KeptNext(ids: seq<Id>, n: nat, gone: set<Id>)
    requires n < |ids|
    ensures Kept(ids[..n + 1], gone) == Kept(ids[..n], gone) + if ids[n] in gone then [] else [ids[n]]
  {
    assert ids[..n + 1][..n] == ids[..n];
  }

  /** Probes one page and deletes its orphans; `stuck` are the nodes whose queries raise. */
  method ExaminePage(lab: Label, list: seq<Id>, edges: seq<Edge>, page: seq<Id>, stuck: set<Id>)
    returns (rest: seq<Id>, left: seq<Edge>, deleted: seq<Id>)
    requires NoDuplicates(page)
    ensures left == edges
    ensures rest == Kept(list, Orphans(page, edges, lab, stuck))
    ensures forall x :: x in deleted <==> x in Orphans(page, edges, lab, stuck)
    ensures |deleted| + |Kept(page, Orphans(page, edges, lab, stuck))| == |page|
  {
    hide Kept, HasEdges, Detached;
    rest, left, deleted := list, edges, [];
    KeptAll(list);
    KeptNothing(Orphans(page, edges, lab, stuck));
    assert Orphans(page[..0], edges, lab, stuck) == {};
    var n := 0;
    while n < |page|
      invariant 0 <= n <= |page| && left == edges
      invariant rest == Kept(list, Orphans(page[..n], edges, lab, stuck))
      invariant forall x :: x in deleted <==> x in Orphans(page[..n], edges, lab, stuck)
      invariant |deleted| + |Kept(page[..n], Orphans(page, edges, lab, stuck))| == n
    {
      OrphansStep(page, n, edges, lab, stuck);
      KeptNext(page, n, Orphans(page, edges, lab, stuck));
      assert page[n] in page;
      if !HasEdges(left, lab, page[n]) && page[n] !in stuck {
        OrphanLosesNoEdge(left, lab, page[n]);
        KeptTwice(list, Orphans(page[..n], edges, lab, stuck), {page[n]});
        rest, left, deleted := Kept(rest, {page[n]}), Detached(left, lab, page[n]), deleted + [page[n]];
      }
      n := n + 1;
    }
    assert page[..n] == page;
  }

  /** `SKIP offset LIMIT limit` over a scan order in which deletions close gaps. */
  function Page(list: seq<Id>, offset: nat, limit: nat): seq<Id> {
    if offset >= |list| then [] else if |list| - offset <= limit then list[offset..] else list[offset..offset + limit]
  }

  function Next(list: seq<Id>, offset: nat, batch: nat, orphans: set<Id>, counted: bool): (seq<Id>, nat)
    requires |Page(list, offset, batch)| == batch
  {
    var page := Page(list, offset, batch);
    (Kept(list, orphans * Members(page)), offset + if counted then |Kept(page, orphans)| else batch)
  }

  /** The list after sweeping page by page from `offset`; `counted` tells whether the cursor allows for
      deletions of its own page. */
  function Swept(list: seq<Id>, offset: nat, batch: nat, orphans: set<Id>, counted: bool): seq<Id>
    requires NoDuplicates(list)
    decreases |list| - offset
  {
    var page := Page(list, offset, batch);
    if page == [] then list
    else if |page| < batch then Kept(list, orphans * Members(page))
    else
      var (rest, next) := Next(list, offset, batch, orphans, counted);
      NextShrinks(list, offset, batch, orphans, counted);
      Swept(rest, next, batch, orphans, counted)
  }

  /** The nodes probed, in order. */
  ghost function Examined(list: seq<Id>, offset: nat, batch: nat, orphans: set<Id>, counted: bool): seq<Id>
    requires NoDuplicates(list)
    decreases |list| - offset
  {
    var page := Page(list, offset, batch);
    if |page| < batch || page == [] then page
    else
      var (rest, next) := Next(list, offset, batch, orphans, counted);
      NextShrinks(list, offset, batch, orphans, counted);
      page + Examined(rest, next, batch, orphans, counted)
  }

  /** What is left of the list beyond the cursor shrinks by a whole page each time. */
  lemma NextShrinks(list: seq<Id>, offset: nat, batch: nat, orphans: set<Id>, counted: bool)
    requires NoDuplicates(list) && |Page(list, offset, batch)| == batch > 0
    ensures var (rest, next) := Next(list, offset, batch, orphans, counted);
            NoDuplicates(rest) && |rest| - next < |list| - offset
  {
    var page := Page(list, offset, batch);
    var hit := orphans * Members(page);
    KeptExact(list, hit);
    var a, b := list[..offset], list[offset + batch..];
    assert list == a + page + b;
    KeptSplit(a + page, b, hit);
    KeptSplit(a, page, hit);
    KeptSame(page, hit, orphans);
  }

  /** After the first `k` nodes: those kept of them, then the rest untouched. */
  ghost function Progress(nodes: seq<Id>, k: nat, orphans: set<Id>): seq<Id>
    requires k <= |nodes|
  {
    Kept(nodes[..k], orphans) + nodes[k..]
  }

  lemma KeptElsewhere(ids: seq<Id>, gone: set<Id>)
    requires forall x :: x in ids ==> x !in gone
    ensures Kept(ids, gone) == ids
  {
    KeptSame(ids, gone, {});
    KeptAll(ids);
  }

  lemma KeptCount(nodes: seq<Id>, k: nat, m: nat, orphans: set<Id>)
    requires k + m <= |nodes|
    ensures Kept(nodes[..k + m], orphans) == Kept(nodes[..k], orphans) + Kept(nodes[k..k + m], orphans)
  {
    assert nodes[..k + m] == nodes[..k] + nodes[k..k + m];
    KeptSplit(nodes[..k], nodes[k..k + m], orphans);
  }

  lemma FrontStays(nodes: seq<Id>, k: nat, m: nat, orphans: set<Id>)
    requires NoDuplicates(nodes) && k + m <= |nodes|
    ensures var front := Kept(nodes[..k], orphans); Kept(front, orphans * Members(nodes[k..k + m])) == front
  {
    var front, page := Kept(nodes[..k], orphans), nodes[k..k + m];
    KeptExact(nodes[..k], orphans);
    forall x | x in front ensures x !in page {
      var i :| 0 <= i < k && nodes[..k][i] == x;
      assert forall j :: 0 <= j < m ==> page[j] == nodes[k + j];
    }
    KeptElsewhere(front, orphans * Members(page));
  }

  lemma BackStays(nodes: seq<Id>, k: nat, m: nat, orphans: set<Id>)
    requires NoDuplicates(nodes) && k + m <= |nodes|
    ensures Kept(nodes[k..], orphans * Members(nodes[k..k + m])) == Kept(nodes[k..k + m], orphans) + nodes[k + m..]
  {
    var page, back := nodes[k..k + m], nodes[k + m..];
    var hit := orphans * Members(page);
    assert nodes[k..] == page + back;
    KeptSplit(page, back, hit);
    KeptSame(page, hit, orphans);
    forall x | x in back ensures x !in page {
      var i :| 0 <= i < |back| && back[i] == x;
      assert forall j :: 0 <= j < m ==> page[j] == nodes[k + j];
    }
    KeptElsewhere(back, hit);
  }

  lemma ProgressStep(nodes: seq<Id>, k: nat, m: nat, orphans: set<Id>)
    requires NoDuplicates(nodes) && k + m <= |nodes|
    ensures Kept(Progress(nodes, k, orphans), orphans * Members(nodes[k..k + m])) == Progress(nodes, k + m, orphans)
  {
    hide Kept, Members;
    KeptSplit(Kept(nodes[..k], orphans), nodes[k..], orphans * Members(nodes[k..k + m]));
    FrontStays(nodes, k, m, orphans);
    BackStays(nodes, k, m, orphans);
    KeptCount(nodes, k, m, orphans);
  }

  /** Where the sweep is after `k` nodes. */
  ghost predicate At(nodes: seq<Id>, k: nat, orphans: set<Id>, list: seq<Id>, offset: nat) {
    k <= |nodes| && list == Progress(nodes, k, orphans) && offset == |Kept(nodes[..k], orphans)|
  }

  lemma AtNext(nodes: seq<Id>, k: nat, batch: nat, orphans: set<Id>, list: seq<Id>, offset: nat)
    requires NoDuplicates(nodes) && At(nodes, k, orphans, list, offset) && k + batch <= |nodes|
    ensures Page(list, offset, batch) == nodes[k..k + batch]
    ensures At(nodes, k + batch, orphans, Next(list, offset, batch, orphans, true).0, Next(list, offset, batch, orphans, true).1)
  {
    PageOfProgress(nodes, k, batch, orphans);
    ProgressStep(nodes, k, batch, orphans);
    KeptCount(nodes, k, batch, orphans);
  }

  lemma AtLast(nodes: seq<Id>, k: nat, batch: nat, orphans: set<Id>, list: seq<Id>, offset: nat)
    requires NoDuplicates(nodes) && NoDuplicates(list) && At(nodes, k, orphans, list, offset) && |nodes| - k < batch
    ensures Swept(list, offset, batch, orphans, true) == Kept(nodes, orphans)
    ensures Examined(list, offset, batch, orphans, true) == nodes[k..]
  {
    hide Kept, Progress;
    PageOfProgress(nodes, k, batch, orphans);
    ProgressStep(nodes, k, |nodes| - k, orphans);
    WholeProgress(nodes, orphans);
    assert k == |nodes| ==> nodes[k..] == [];
  }

  /** With the corrected cursor every node is probed exactly once, in order, and every orphan goes. */
  lemma {:induction false} CountedSweepIsExact(nodes: seq<Id>, k: nat, batch: nat, orphans: set<Id>, list: seq<Id>, offset: nat)
    requires NoDuplicates(nodes) && NoDuplicates(list) && At(nodes, k, orphans, list, offset) && batch > 0
    ensures Swept(list, offset, batch, orphans, true) == Kept(nodes, orphans)
    ensures Examined(list, offset, batch, orphans, true) == nodes[k..]
    decreases |nodes| - k
  {
    hide Kept, Swept, Examined, At, Page;
    if |nodes| - k < batch {
      AtLast(nodes, k, batch, orphans, list, offset);
    } else {
      AtNext(nodes, k, batch, orphans, list, offset);
      var rest, next := SweptStep(list, offset, batch, orphans, true);
      CountedSweepIsExact(nodes, k + batch, batch, orphans, rest, next);
      assert nodes[k..] == nodes[k..k + batch] + nodes[k + batch..];
    }
  }

  lemma SweptStep(list: seq<Id>, offset: nat, batch: nat, orphans: set<Id>, counted: bool) returns (rest: seq<Id>, next: nat)
    requires NoDuplicates(list) && |Page(list, offset, batch)| == batch > 0
    ensures (rest, next) == Next(list, offset, batch, orphans, counted) && NoDuplicates(rest)
    ensures Swept(list, offset, batch, orphans, counted) == Swept(rest, next, batch, orphans, counted)
    ensures Examined(list, offset, batch, orphans, counted)
         == Page(list, offset, batch) + Examined(rest, next, batch, orphans, counted)
  {
    NextShrinks(list, offset, batch, orphans, counted);
    rest, next := Next(list, offset, batch, orphans, counted).0, Next(list, offset, batch, orphans, counted).1;
  }

  lemma PageOfProgress(nodes: seq<Id>, k: nat, batch: nat, orphans: set<Id>)
    requires k <= |nodes|
    ensures var m := if |nodes| - k < batch then |nodes| - k else batch;
            Page(Progress(nodes, k, orphans), |Kept(nodes[..k], orphans)|, batch) == nodes[k..k + m]
  {
  }

  lemma WholeProgress(nodes: seq<Id>, orphans: set<Id>)
    ensures Progress(nodes, |nodes|, orphans) == Kept(nodes, orphans)
  {
    assert nodes[..|nodes|] == nodes;
  }

  // ---- the sweep whose cursor does not allow for deletions ----

  /** How many nodes of the first page go, and how many behind it are jumped over for them. */
  function Deleted(tail: seq<Id>, batch: nat, orphans: set<Id>): (d: nat)
    requires batch <= |tail|
  {
    |tail[..batch]| - |Kept(tail[..batch], orphans)|
  }

  /** What the sweep leaves of the nodes at and behind the cursor: each full page is probed, then as many nodes are jumped
      over as the page lost. */
  function LeftBehind(tail: seq<Id>, batch: nat, orphans: set<Id>): seq<Id>
    decreases |tail|
  {
    if batch == 0 || |tail| < batch then Kept(tail, orphans)
    else
      var next := Min(batch + Deleted(tail, batch, orphans), |tail|);
      Kept(tail[..batch], orphans) + tail[batch..next] + LeftBehind(tail[next..], batch, orphans)
  }

  /** The nodes jumped over, which are never probed. */
  function JumpedOver(tail: seq<Id>, batch: nat, orphans: set<Id>): seq<Id>
    decreases |tail|
  {
    if batch == 0 || |tail| < batch then []
    else
      var next := Min(batch + Deleted(tail, batch, orphans), |tail|);
      tail[batch..next] + JumpedOver(tail[next..], batch, orphans)
  }

  /** What stands before the cursor after a full page: what stood there, what is left of the page, and what is jumped over. */
  ghost function Passed(before: seq<Id>, tail: seq<Id>, batch: nat, orphans: set<Id>): seq<Id>
    requires batch <= |tail|
  {
    before + Kept(tail[..batch], orphans) + tail[batch..Min(batch + Deleted(tail, batch, orphans), |tail|)]
  }

  lemma PageSwept(before: seq<Id>, tail: seq<Id>, batch: nat, orphans: set<Id>)
    requires NoDuplicates(before + tail) && 0 < batch <= |tail|
    ensures var rest := Passed(before, tail, batch, orphans) + tail[Min(batch + Deleted(tail, batch, orphans), |tail|)..];
      NoDuplicates(rest)
      && Swept(before + tail, |before|, batch, orphans, false) == Swept(rest, |before| + batch, batch, orphans, false)
  {
    hide Kept;
    var list, page, next := before + tail, tail[..batch], Min(batch + Deleted(tail, batch, orphans), |tail|);
    assert Page(list, |before|, batch) == page;
    assert list == before + page + tail[batch..] && tail[batch..] == tail[batch..next] + tail[next..];
    KeptBehind(before, page, tail[batch..], orphans);
    assert Kept(list, orphans * Members(page)) == Passed(before, tail, batch, orphans) + tail[next..];
    NextShrinks(list, |before|, batch, orphans, false);
  }

  lemma LastPageSwept(before: seq<Id>, tail: seq<Id>, batch: nat, orphans: set<Id>)
    requires NoDuplicates(before + tail) && |tail| < batch
    ensures Swept(before + tail, |before|, batch, orphans, false) == before + Kept(tail, orphans)
  {
    hide Kept;
    var list := before + tail;
    KeptNothing(orphans);
    assert Page(list, |before|, batch) == tail && list + [] == list;
    KeptBehind(before, tail, [], orphans);
    assert before + Kept(tail, orphans) + [] == before + Kept(tail, orphans);
  }

  lemma {:induction false} SweepLeaves(before: seq<Id>, tail: seq<Id>, batch: nat, orphans: set<Id>)
    requires NoDuplicates(before + tail) && batch > 0
    ensures Swept(before + tail, |before|, batch, orphans, false) == before + LeftBehind(tail, batch, orphans)
    decreases |tail|
  {
    hide Kept, Swept, NoDuplicates;
    if |tail| < batch {
      LastPageSwept(before, tail, batch, orphans);
    } else {
      var next := Min(batch + Deleted(tail, batch, orphans), |tail|);
      var passed := Passed(before, tail, batch, orphans);
      PageSwept(before, tail, batch, orphans);
      if batch + Deleted(tail, batch, orphans) <= |tail| {
        assert |passed| == |before| + batch;
        SweepLeaves(passed, tail[next..], batch, orphans);
      } else {
        assert tail[next..] == [] && passed + [] == passed;
        NothingSwept(passed, |before| + batch, batch, orphans);
      }
    }
  }

  lemma NothingSwept(list: seq<Id>, offset: nat, batch: nat, orphans: set<Id>)
    requires NoDuplicates(list) && offset >= |list|
    ensures Swept(list, offset, batch, orphans, false) == list
    ensures LeftBehind([], batch, orphans) == []
  {
  }

  lemma KeptBehind(before: seq<Id>, page: seq<Id>, after: seq<Id>, orphans: set<Id>)
    requires NoDuplicates(before + page + after)
    ensures Kept(before + page + after, orphans * Members(page)) == before + Kept(page, orphans) + after
  {
    var hit, list := orphans * Members(page), before + page + after;
    KeptSplit(before + page, after, hit);
    KeptSplit(before, page, hit);
    KeptSame(page, hit, orphans);
    forall i | 0 <= i < |before| ensures before[i] !in page {
      assert list[i] == before[i];
      assert forall j :: 0 <= j < |page| ==> list[|before| + j] == page[j];
    }
    forall i | 0 <= i < |after| ensures after[i] !in page {
      assert list[|before| + |page| + i] == after[i];
      assert forall j :: 0 <= j < |page| ==> list[|before| + j] == page[j];
    }
    KeptElsewhere(before, hit);
    KeptElsewhere(after, hit);
  }

  lemma {:induction false} LeftBehindExact(tail: seq<Id>, batch: nat, orphans: set<Id>)
    ensures |Kept(tail, orphans)| <= |LeftBehind(tail, batch, orphans)|
    ensures LeftBehind(tail, batch, orphans) == Kept(tail, orphans) <==> forall x :: x in JumpedOver(tail, batch, orphans) ==> x !in orphans
    decreases |tail|
  {
    hide Kept;
    if batch == 0 || |tail| < batch {
    } else {
      var next := Min(batch + Deleted(tail, batch, orphans), |tail|);
      var page, jumped, rest := tail[..batch], tail[batch..next], tail[next..];
      LeftBehindExact(rest, batch, orphans);
      assert tail == page + jumped + rest;
      KeptSplit(page + jumped, rest, orphans);
      KeptSplit(page, jumped, orphans);
      KeptWhole(jumped, orphans);
      PartsAgree(Kept(page, orphans), jumped, LeftBehind(rest, batch, orphans), Kept(jumped, orphans), Kept(rest, orphans));
    }
  }

  lemma KeptWhole(ids: seq<Id>, orphans: set<Id>)
    ensures |Kept(ids, orphans)| <= |ids| && (Kept(ids, orphans) == ids <==> forall x :: x in ids ==> x !in orphans)
  {
    KeptExact(ids, orphans);
    if forall x :: x in ids ==> x !in orphans { KeptElsewhere(ids, orphans); }
  }

  /** Of two concatenations behind the same start, parts that are no shorter agree when the wholes do. */
  lemma PartsAgree(start: seq<Id>, a: seq<Id>, b: seq<Id>, c: seq<Id>, d: seq<Id>)
    requires |c| <= |a| && |d| <= |b|
    ensures start + a + b == start + c + d <==> a == c && b == d
  {
    var x, y := start + a + b, start + c + d;
    if x == y {
      assert |a| == |c|;
      assert a == x[|start|..|start| + |a|] && c == y[|start|..|start| + |c|];
      assert b == x[|start| + |a|..] && d == y[|start| + |c|..];
    }
  }

  /** Without the correction a sweep is exact for given orphans exactly when it jumps over none of them. */
  lemma UncountedSweepIsExactFor(nodes: seq<Id>, batch: nat, orphans: set<Id>)
    requires NoDuplicates(nodes) && batch > 0
    ensures Swept(nodes, 0, batch, orphans, false) == Kept(nodes, orphans)
       <==> forall x :: x in JumpedOver(nodes, batch, orphans) ==> x !in orphans
  {
    hide Kept;
    assert [] + nodes == nodes && [] + LeftBehind(nodes, batch, orphans) == LeftBehind(nodes, batch, orphans);
    SweepLeaves([], nodes, batch, orphans);
    LeftBehindExact(nodes, batch, orphans);
  }

  /** It is exact whatever the orphans exactly when the list fits one page. */
  lemma UncountedSweepIsExactIff(nodes: seq<Id>, batch: nat)
    requires NoDuplicates(nodes) && batch > 0
    ensures (forall orphans :: Swept(nodes, 0, batch, orphans, false) == Kept(nodes, orphans)) <==> |nodes| <= batch
  {
    hide Swept, Kept;
    if |nodes| <= batch {
      forall orphans ensures Swept(nodes, 0, batch, orphans, false) == Kept(nodes, orphans) {
        UncountedSweepIsExactFor(nodes, batch, orphans);
        OnePageJumpsNothing(nodes, batch, orphans);
      }
    } else {
      var all := Members(nodes);
      UncountedSweepIsExactFor(nodes, batch, all);
      KeptNone(nodes[..batch], all);
      assert JumpedOver(nodes, batch, all)[0] == nodes[batch];
      assert nodes[batch] in JumpedOver(nodes, batch, all) && nodes[batch] in all;
    }
  }

  lemma OnePageJumpsNothing(nodes: seq<Id>, batch: nat, orphans: set<Id>)
    requires |nodes| <= batch && batch > 0
    ensures JumpedOver(nodes, batch, orphans) == []
  {
    if |nodes| == batch { assert JumpedOver([], batch, orphans) == []; }
  }

  lemma KeptNone(ids: seq<Id>, gone: set<Id>)
    requires forall x :: x in ids ==> x in gone
    ensures Kept(ids, gone) == []
  {
    KeptExact(ids, gone);
    assert Kept(ids, gone) != [] ==> Kept(ids, gone)[0] in Kept(ids, gone);
  }

  // ---- the loops ----

  lemma {:induction false} KeptSize(ids: seq<Id>, hit: set<Id>)
    requires NoDuplicates(ids) && forall x :: x in hit ==> x in ids
    ensures |Kept(ids, hit)| == |ids| - |hit|
  {
    if ids == [] {
    } else {
      var init, last := ids[..|ids| - 1], ids[|ids| - 1];
      assert ids == init + [last];
      KeptSame(init, hit, hit - {last});
      KeptSize(init, hit - {last});
    }
  }

  lemma PageUnique(list: seq<Id>, offset: nat, batch: nat)
    requires NoDuplicates(list)
    ensures NoDuplicates(Page(list, offset, batch))
    ensures forall x :: x in Page(list, offset, batch) ==> x in list
  {
  }

  lemma KeptPage(list: seq<Id>, page: seq<Id>, hit: set<Id>)
    requires NoDuplicates(list) && NoDuplicates(page)
    requires (forall x :: x in page ==> x in list) && forall x :: x in hit ==> x in page
    ensures |Kept(list, hit)| == |list| - |page| + |Kept(page, hit)|
  {
    KeptSize(list, hit);
    KeptSize(page, hit);
  }

  lemma PageOrphans(nodes: seq<Id>, list: seq<Id>, offset: nat, batch: nat, edges: seq<Edge>, lab: Label, stuck: set<Id>)
    requires forall x :: x in list ==> x in nodes
    ensures var page := Page(list, offset, batch);
            && Orphans(page, edges, lab, stuck) == Orphans(nodes, edges, lab, stuck) * Members(page)
            && Kept(page, Orphans(page, edges, lab, stuck)) == Kept(page, Orphans(nodes, edges, lab, stuck))
  {
    var page := Page(list, offset, batch);
    assert forall x :: x in page ==> x in list;
    KeptSame(page, Orphans(page, edges, lab, stuck), Orphans(nodes, edges, lab, stuck));
  }

  ghost predicate Swiped(nodes: seq<Id>, list: seq<Id>, deleted: seq<Id>, orphans: set<Id>) {
    && list == Kept(nodes, Members(deleted)) && |deleted| + |list| == |nodes|
    && (forall x :: x in deleted ==> x in orphans)
  }

  lemma SwipedMore(nodes: seq<Id>, list: seq<Id>, deleted: seq<Id>, orphans: set<Id>, gone: seq<Id>, hit: set<Id>, rest: seq<Id>)
    requires Swiped(nodes, list, deleted, orphans) && rest == Kept(list, hit) && hit <= orphans
    requires (forall x :: x in gone <==> x in hit) && |gone| == |list| - |rest|
    ensures Swiped(nodes, rest, deleted + gone, orphans)
  {
    KeptTwice(nodes, Members(deleted), hit);
    assert Members(deleted + gone) == Members(deleted) + hit;
  }

  lemma SweptGo(list: seq<Id>, offset: nat, batch: nat, orphans: set<Id>, counted: bool, rest: seq<Id>, next: nat)
    requires NoDuplicates(list) && |Page(list, offset, batch)| == batch > 0
    requires rest == Kept(list, orphans * Members(Page(list, offset, batch)))
    requires next == offset + if counted then |Kept(Page(list, offset, batch), orphans)| else batch
    ensures NoDuplicates(rest) && |rest| - next < |list| - offset
    ensures Swept(rest, next, batch, orphans, counted) == Swept(list, offset, batch, orphans, counted)
  {
    hide Kept, Swept, Examined, Members;
    NextShrinks(list, offset, batch, orphans, counted);
    var r, n := SweptStep(list, offset, batch, orphans, counted);
  }

  /** The list when the page query raises after `pages` pages, which ends the sweep. */
  function SweptUntil(list: seq<Id>, offset: nat, batch: nat, orphans: set<Id>, counted: bool, pages: nat): seq<Id>
    decreases pages
  {
    var page := Page(list, offset, batch);
    if pages == 0 || page == [] then list
    else if |page| < batch then Kept(list, orphans * Members(page))
    else
      var (rest, next) := Next(list, offset, batch, orphans, counted);
      SweptUntil(rest, next, batch, orphans, counted, pages - 1)
  }

  /** The outcome of a sweep whose page query raises after `pages` pages, or never. */
  function Outcome(list: seq<Id>, offset: nat, batch: nat, orphans: set<Id>, counted: bool, pages: Option<nat>): seq<Id>
    requires NoDuplicates(list)
  {
    if pages.None? then Swept(list, offset, batch, orphans, counted)
    else SweptUntil(list, offset, batch, orphans, counted, pages.value)
  }

  /** The pages left after one more. */
  function Fewer(pages: Option<nat>): Option<nat> {
    if pages.Some? && pages.value > 0 then Some(pages.value - 1) else pages
  }

  lemma OutcomeHere(list: seq<Id>, offset: nat, batch: nat, orphans: set<Id>, counted: bool, pages: Option<nat>)
    requires NoDuplicates(list)
    ensures pages == Some(0) || Page(list, offset, batch) == [] ==> Outcome(list, offset, batch, orphans, counted, pages) == list
    ensures pages != Some(0) && Page(list, offset, batch) != [] && |Page(list, offset, batch)| < batch ==>
              Outcome(list, offset, batch, orphans, counted, pages) == Kept(list, orphans * Members(Page(list, offset, batch)))
  {
  }

  lemma OutcomeGo(list: seq<Id>, offset: nat, batch: nat, orphans: set<Id>, counted: bool, pages: Option<nat>,
                  rest: seq<Id>, next: nat)
    requires NoDuplicates(list) && |Page(list, offset, batch)| == batch > 0 && pages != Some(0)
    requires rest == Kept(list, orphans * Members(Page(list, offset, batch)))
    requires next == offset + if counted then |Kept(Page(list, offset, batch), orphans)| else batch
    ensures NoDuplicates(rest) && |rest| - next < |list| - offset
    ensures Outcome(rest, next, batch, orphans, counted, Fewer(pages)) == Outcome(list, offset, batch, orphans, counted, pages)
  {
    hide Kept, Swept, Examined, Members;
    SweptGo(list, offset, batch, orphans, counted, rest, next);
  }

  /** A page query that raises later than the sweep ends changes nothing. */
  lemma {:induction false} LateFailure(list: seq<Id>, offset: nat, batch: nat, orphans: set<Id>, counted: bool, pages: nat)
    requires NoDuplicates(list) && batch > 0 && (offset < |list| ==> pages > |list| - offset)
    ensures SweptUntil(list, offset, batch, orphans, counted, pages) == Swept(list, offset, batch, orphans, counted)
    decreases pages
  {
    hide Kept;
    var page := Page(list, offset, batch);
    if page == [] || |page| < batch {
    } else {
      var (rest, next) := Next(list, offset, batch, orphans, counted);
      NextShrinks(list, offset, batch, orphans, counted);
      LateFailure(rest, next, batch, orphans, counted, pages - 1);
    }
  }

  /** One label, page by page, until the end or until the page query raises: the list ends up swept that far, and no edge
      is touched. */
  method CleanLabel(lab: Label, nodes: seq<Id>, edges: seq<Edge>, batch: nat, stuck: set<Id>, pages: Option<nat>)
    returns (list: seq<Id>, left: seq<Edge>, deleted: seq<Id>)
    requires NoDuplicates(nodes)
    ensures left == edges
    ensures list == Outcome(nodes, 0, batch, Orphans(nodes, edges, lab, stuck), lab == Process, pages)
    ensures Swiped(nodes, list, deleted, Orphans(nodes, edges, lab, stuck))
  {
    hide Kept, Swept, SweptUntil, Orphans, Outcome;
    list, left, deleted := nodes, edges, [];
    ghost var orphans := Orphans(nodes, edges, lab, stuck);
    KeptElsewhere(nodes, Members([]));
    var offset: nat, ahead := 0, pages;
    while ahead != Some(0)
      invariant left == edges && NoDuplicates(list)
      invariant Outcome(list, offset, batch, orphans, lab == Process, ahead)
             == Outcome(nodes, 0, batch, orphans, lab == Process, pages)
      invariant Swiped(nodes, list, deleted, orphans)
      decreases |list| - offset
    {
      var page := Page(list, offset, batch);
      OutcomeHere(list, offset, batch, orphans, lab == Process, ahead);
      if page == [] { return; }
      ghost var before := list;
      var gone: seq<Id>;
      list, left, gone := SweepPage(lab, list, left, offset, batch, stuck, nodes, deleted);
      deleted := deleted + gone;
      if |page| < batch {
        return;
      }
      var next := offset + batch - (if lab == Process then |gone| else 0);
      OutcomeGo(before, offset, batch, orphans, lab == Process, ahead, list, next);
      offset, ahead := next, Fewer(ahead);
    }
    OutcomeHere(list, offset, batch, orphans, lab == Process, ahead);
  }

  method SweepPage(lab: Label, list: seq<Id>, edges: seq<Edge>, offset: nat, batch: nat, stuck: set<Id>,
                   ghost nodes: seq<Id>, ghost deleted: seq<Id>)
    returns (rest: seq<Id>, left: seq<Edge>, gone: seq<Id>)
    requires NoDuplicates(list) && Swiped(nodes, list, deleted, Orphans(nodes, edges, lab, stuck))
    ensures var page, orphans := Page(list, offset, batch), Orphans(nodes, edges, lab, stuck);
            && left == edges && rest == Kept(list, orphans * Members(page)) && NoDuplicates(rest)
            && |gone| + |Kept(page, orphans)| == |page|
            && Swiped(nodes, rest, deleted + gone, orphans)
  {
    var page := Page(list, offset, batch);
    ghost var orphans, hit := Orphans(nodes, edges, lab, stuck), Orphans(page, edges, lab, stuck);
    PageUnique(list, offset, batch);
    KeptExact(nodes, Members(deleted));
    PageOrphans(nodes, list, offset, batch, edges, lab, stuck);
    KeptPage(list, page, hit);
    KeptExact(list, hit);
    rest, left, gone := ExaminePage(lab, list, edges, page, stuck);
    SwipedMore(nodes, list, deleted, orphans, gone, hit, rest);
  }

  /** After how many pages the page query of a label raises; the labels it never raises for are absent. */
  type Pages = map<Label, nat>

  function Limit(pages: Pages, lab: Label): Option<nat> { if lab in pages then Some(pages[lab]) else None }

  /** The graph: each node table in scan order, and the edges. */
  class Graph {
    var nodes: map<Label, seq<Id>>
    var edges: seq<Edge>

    ghost predicate Valid()
      reads this
    {
      Complete(nodes) && forall lab: Label :: NoDuplicates(nodes[lab])
    }

    constructor ()
      ensures Valid() && edges == [] && forall lab: Label :: nodes[lab] == []
    {
      nodes := map[Ip := [], Domain := [], File := [], RegistryKey := [], Process := [], User := []];
      edges := [];
      new;
      forall lab: Label ensures lab in nodes && nodes[lab] == [] {
        match lab
        case Ip => case Domain => case File => case RegistryKey => case Process => case User =>
      }
    }

    method PruneTable(k: EdgeKind, cutoff: real) returns (pruned: nat)
      modifies this`edges
      ensures edges == Fresh(old(edges), {k}, cutoff) && pruned == |old(edges)| - |edges|
    {
      FreshExact(edges, {k}, cutoff);
      var rest := Fresh(edges, {k}, cutoff);
      pruned := |edges| - |rest|;
      edges := rest;
    }

    /** Deletes every edge older than the cutoff, table by table; returns how many went. A table in `broken` raises and
        keeps its edges. */
    method PruneEdges(cutoff: real, broken: set<EdgeKind>) returns (count: nat)
      modifies this`edges
      ensures forall e :: e in edges <==> e in old(edges) && (e.ts >= cutoff || e.kind in broken)
      ensures count == |old(edges)| - |edges|
    {
      count := 0;
      FreshNothing(edges, cutoff);
      ghost var done: set<EdgeKind> := {};
      var i := 0;
      while i < |EDGE_KINDS|
        invariant 0 <= i <= |EDGE_KINDS|
        invariant edges == Fresh(old(edges), done, cutoff) && count == |old(edges)| - |edges|
        invariant forall k :: k in done <==> k in EDGE_KINDS[..i] && k !in broken
      {
        var k := EDGE_KINDS[i];
        assert EDGE_KINDS[..i + 1] == EDGE_KINDS[..i] + [k];
        if k !in broken {
          FreshAgain(old(edges), done, k, cutoff);
          var pruned := PruneTable(k, cutoff);
          count := count + pruned;
          done := done + {k};
        }
        i := i + 1;
      }
      FreshExact(old(edges), done, cutoff);
      forall k: EdgeKind ensures k in done <==> k !in broken { assert EDGE_KINDS[..i] == EDGE_KINDS; EveryKind(k); }
    }

    method CleanOne(lab: Label, batch: nat, stuck: set<Id>, pages: Pages) returns (d: seq<Id>)
      requires Valid()
      modifies this
      ensures Valid() && edges == old(edges) && nodes == old(nodes)[lab := nodes[lab]]
      ensures Cleaned(old(nodes)[lab], nodes[lab], edges, lab, batch, stuck, pages)
      ensures nodes[lab] == Kept(old(nodes)[lab], Members(d)) && |d| + |nodes[lab]| == |old(nodes)[lab]|
    {
      var list: seq<Id>, left: seq<Edge>;
      list, left, d := CleanLabel(lab, nodes[lab], edges, batch, stuck, Limit(pages, lab));
      KeptExact(nodes[lab], Members(d));
      nodes, edges := nodes[lab := list], left;
    }

    method CleanLabels(batch: nat, stuck: set<Id>, pages: Pages) returns (deleted: nat, gone: seq<Id>)
      requires Valid()
      modifies this
      ensures Valid() && edges == old(edges)
      ensures AllCleaned(old(nodes), nodes, edges, batch, stuck, pages)
      ensures deleted == Total(old(nodes), |LABELS|) - Total(nodes, |LABELS|)
      ensures nodes[Process] == Kept(old(nodes)[Process], Members(gone))
    {
      hide Kept, AllCleaned, Cleaned;
      deleted, gone := 0, [];
      ghost var before := nodes;
      KeptElsewhere(nodes[Process], Members([]));
      var i := 0;
      while i < |LABELS|
        invariant 0 <= i <= |LABELS| && Valid() && edges == old(edges)
        invariant CleanedUpTo(before, nodes, i, edges, batch, stuck, pages)
        invariant deleted == Total(before, i) - Total(nodes, i)
        invariant nodes[Process] == Kept(before[Process], Members(gone))
      {
        var lab := LABELS[i];
        ghost var was := nodes;
        var d := CleanOne(lab, batch, stuck, pages);
        CleanedStep(before, was, nodes, i, edges, batch, stuck, pages);
        TotalStep(before, was, nodes, i);
        deleted := deleted + |d|;
        if lab == Process { gone := d; }
        i := i + 1;
      }
      CleanedEverywhere(before, nodes, edges, batch, stuck, pages);
    }

    /** Removes orphans label by label and then evicts the deleted processes from the PID index. */
    method CleanupOrphanedNodesBatched(batch: nat, stuck: set<Id>, pages: Pages, index: PidIndex, ghost table: ProcTable)
      returns (deleted: nat, gone: seq<Id>)
      requires Valid() && Agrees(index.State(), table) && table.Keys == Members(nodes[Process])
      modifies this, index
      ensures Valid() && edges == old(edges)
      ensures AllCleaned(old(nodes), nodes, edges, batch, stuck, pages)
      ensures deleted == Total(old(nodes), |LABELS|) - Total(nodes, |LABELS|)
      ensures nodes[Process] == Kept(old(nodes)[Process], Members(gone))
      ensures Agrees(index.State(), table - Members(gone)) && (table - Members(gone)).Keys == Members(nodes[Process])
    {
      deleted, gone := CleanLabels(batch, stuck, pages);
      KeptExact(old(nodes)[Process], Members(gone));
      EvictAll(index, table, gone);
    }

    /** Prunes edges, then the nodes this isolates; returns how many edges and nodes went. */
    method PruneOldEdges(cutoff: real, broken: set<EdgeKind>, batch: nat, stuck: set<Id>, pages: Pages, index: PidIndex, ghost table: ProcTable)
      returns (count: nat, gone: seq<Id>)
      requires Valid() && Agrees(index.State(), table) && table.Keys == Members(nodes[Process])
      modifies this, index
      ensures Valid() && (forall e :: e in edges <==> e in old(edges) && (e.ts >= cutoff || e.kind in broken))
      ensures AllCleaned(old(nodes), nodes, edges, batch, stuck, pages)
      ensures count == (|old(edges)| - |edges|) + (Total(old(nodes), |LABELS|) - Total(nodes, |LABELS|))
      ensures nodes[Process] == Kept(old(nodes)[Process], Members(gone))
      ensures Agrees(index.State(), table - Members(gone)) && (table - Members(gone)).Keys == Members(nodes[Process])
    {
      count := PruneEdges(cutoff, broken);
      var orphaned: nat;
      orphaned, gone := CleanupOrphanedNodesBatched(batch, stuck, pages, index, table);
      count := count + orphaned;
    }

    /** Deletes the Process nodes whose name matches an allowlist rule, and evicts them from the index. */
    method PurgeProcessName(matches: string -> bool, index: PidIndex, table: ProcTable) returns (rest: ProcTable, count: nat)
      requires Valid() && Agrees(index.State(), table) && table.Keys == Members(nodes[Process])
      modifies this, index
      ensures Valid() && Agrees(index.State(), rest) && rest.Keys == Members(nodes[Process])
      ensures forall id :: id in rest <==> id in table && !(table[id].name != "" && matches(table[id].name))
      ensures forall id :: id in rest ==> rest[id] == table[id]
      ensures count == |table| - |rest|
      ensures forall lab: Label :: lab != Process ==> nodes[lab] == old(nodes)[lab]
      ensures forall e :: e in edges ==> e in old(edges)
      ensures forall e :: e in old(edges) && e !in edges ==> exists id :: id in table && id !in rest && Touches(e, Process, id)
    {
      hide Touches, Agrees, Kept;
      var doomed := CollectNamed(nodes[Process], table, matches);
      count := |doomed|;
      DeleteAll(doomed);
      rest := table - Members(doomed);
      MembersSize(doomed);
      TableShrinks(table, Members(doomed));
      assert rest.Keys == Members(nodes[Process]);
      EvictAll(index, table, doomed);
    }

    /** DETACH DELETE of each listed process. */
    method DeleteAll(doomed: seq<Id>)
      requires Valid()
      modifies this
      ensures Valid() && forall x :: x in nodes[Process] <==> x in old(nodes)[Process] && x !in doomed
      ensures forall lab: Label :: lab != Process ==> nodes[lab] == old(nodes)[lab]
      ensures forall e :: e in edges <==> e in old(edges) && !TouchesAny(e, Process, doomed)
    {
      hide Kept, Touches, Detached;
      var i := 0;
      assert forall e :: !TouchesAny(e, Process, []);
      while i < |doomed|
        invariant 0 <= i <= |doomed| && Valid()
        invariant forall x :: x in nodes[Process] <==> x in old(nodes)[Process] && x !in doomed[..i]
        invariant forall lab: Label :: lab != Process ==> nodes[lab] == old(nodes)[lab]
        invariant forall e :: e in edges <==> e in old(edges) && !TouchesAny(e, Process, doomed[..i])
      {
        assert doomed[..i + 1] == doomed[..i] + [doomed[i]];
        assert forall e :: TouchesAny(e, Process, doomed[..i + 1])
                      <==> TouchesAny(e, Process, doomed[..i]) || Touches(e, Process, doomed[i]);
        KeptExact(nodes[Process], {doomed[i]});
        DetachedExact(edges, Process, doomed[i]);
        nodes := nodes[Process := Kept(nodes[Process], {doomed[i]})];
        edges := Detached(edges, Process, doomed[i]);
        i := i + 1;
      }
      assert doomed[..i] == doomed;
    }
  }

  /** Keeps the index in step with the deletion of `gone`. */
  method EvictAll(index: PidIndex, ghost table: ProcTable, gone: seq<Id>)
    requires Agrees(index.State(), table)
    modifies index
    ensures Agrees(index.State(), table - Members(gone))
  {
    hide Agrees;
    if gone != [] {
      ghost var was := index.State();
      var evicted := index.RemoveNodes(gone);
      assert Members(gone) == set n | n in gone;
      RemoveAgrees(was, table, Members(gone), index.State());
    } else {
      assert table - Members(gone) == table;
    }
  }

  /** The processes whose name matches, in scan order. */
  method CollectNamed(ids: seq<Id>, table: ProcTable, matches: string -> bool) returns (doomed: seq<Id>)
    requires NoDuplicates(ids) && forall x :: x in ids ==> x in table
    ensures NoDuplicates(doomed)
    ensures forall x :: x in doomed <==> x in ids && table[x].name != "" && matches(table[x].name)
  {
    doomed := [];
    var i := 0;
    while i < |ids|
      invariant 0 <= i <= |ids| && NoDuplicates(doomed)
      invariant forall x :: x in doomed <==> x in ids[..i] && table[x].name != "" && matches(table[x].name)
    {
      assert ids[i] in ids && ids[..i + 1] == ids[..i] + [ids[i]];
      if table[ids[i]].name != "" && matches(table[ids[i]].name) { doomed := doomed + [ids[i]]; }
      i := i + 1;
    }
    assert ids[..i] == ids;
  }

  predicate TouchesAny(e: Edge, lab: Label, ids: seq<Id>) { exists id :: id in ids && Touches(e, lab, id) }

  lemma {:induction false} DetachedExact(edges: seq<Edge>, lab: Label, id: Id)
    ensures forall e :: e in Detached(edges, lab, id) <==> e in edges && !Touches(e, lab, id)
  {
    hide Touches;
    if edges == [] {
    } else {
      DetachedExact(edges[..|edges| - 1], lab, id);
      assert edges == edges[..|edges| - 1] + [edges[|edges| - 1]];
    }
  }

  lemma TableShrinks(table: ProcTable, gone: set<Id>)
    requires gone <= table.Keys
    ensures |table - gone| == |table| - |gone|
  {
    assert (table - gone).Keys == table.Keys - gone;
  }

  /** The outcome for one label: swept page by page, and only nodes without any edge are gone. */
  ghost predicate Cleaned(before: seq<Id>, after: seq<Id>, edges: seq<Edge>, lab: Label, batch: nat, stuck: set<Id>, pages: Pages) {
    && NoDuplicates(before)
    && after == Outcome(before, 0, batch, Orphans(before, edges, lab, stuck), lab == Process, Limit(pages, lab))
    && forall x :: x in before && x !in after ==> !HasEdges(edges, lab, x)
  }

  ghost predicate Complete(nodes: map<Label, seq<Id>>) {
    forall lab: Label :: lab in nodes
  }

  ghost predicate AllCleaned(before: map<Label, seq<Id>>, after: map<Label, seq<Id>>, edges: seq<Edge>, batch: nat, stuck: set<Id>, pages: Pages)
    requires Complete(before) && Complete(after)
  {
    forall lab: Label :: Cleaned(before[lab], after[lab], edges, lab, batch, stuck, pages)
  }

  ghost predicate CleanedUpTo(before: map<Label, seq<Id>>, after: map<Label, seq<Id>>, i: nat, edges: seq<Edge>, batch: nat, stuck: set<Id>, pages: Pages)
    requires Complete(before) && Complete(after) && i <= |LABELS|
  {
    && (forall j :: i <= j < |LABELS| ==> after[LABELS[j]] == before[LABELS[j]])
    && (forall j :: 0 <= j < i ==> Cleaned(before[LABELS[j]], after[LABELS[j]], edges, LABELS[j], batch, stuck, pages))
  }

  lemma CleanedStep(before: map<Label, seq<Id>>, was: map<Label, seq<Id>>, after: map<Label, seq<Id>>, i: nat,
                    edges: seq<Edge>, batch: nat, stuck: set<Id>, pages: Pages)
    requires Complete(before) && Complete(was) && Complete(after) && i < |LABELS|
    requires CleanedUpTo(before, was, i, edges, batch, stuck, pages) && after == was[LABELS[i] := after[LABELS[i]]]
    requires Cleaned(was[LABELS[i]], after[LABELS[i]], edges, LABELS[i], batch, stuck, pages)
    ensures CleanedUpTo(before, after, i + 1, edges, batch, stuck, pages)
  {
    LabelsDistinct(i);
  }

  lemma CleanedEverywhere(before: map<Label, seq<Id>>, after: map<Label, seq<Id>>, edges: seq<Edge>, batch: nat, stuck: set<Id>, pages: Pages)
    requires Complete(before) && Complete(after) && CleanedUpTo(before, after, |LABELS|, edges, batch, stuck, pages)
    ensures AllCleaned(before, after, edges, batch, stuck, pages)
  {
    forall lab: Label ensures Cleaned(before[lab], after[lab], edges, lab, batch, stuck, pages) {
      EveryLabel(lab);
      var j :| 0 <= j < |LABELS| && LABELS[j] == lab;
    }
  }

  lemma TotalStep(before: map<Label, seq<Id>>, was: map<Label, seq<Id>>, after: map<Label, seq<Id>>, i: nat)
    requires Complete(before) && Complete(was) && Complete(after) && i < |LABELS|
    requires after == was[LABELS[i] := after[LABELS[i]]] && was[LABELS[i]] == before[LABELS[i]]
    ensures Total(before, i + 1) - Total(after, i + 1)
         == Total(before, i) - Total(was, i) + |was[LABELS[i]]| - |after[LABELS[i]]|
  {
    LabelsDistinct(i);
    TotalSame(was, after, i);
  }

  /** After a cleanup whose page query did not cut it short, a Process survives exactly if it has an edge or its queries raise. */
  lemma CleanedProcesses(before: seq<Id>, after: seq<Id>, edges: seq<Edge>, batch: nat, stuck: set<Id>, pages: Pages)
    requires Cleaned(before, after, edges, Process, batch, stuck, pages) && batch > 0
    requires Process in pages ==> pages[Process] > |before|
    ensures forall x :: x in after <==> x in before && (x in stuck || exists e :: e in edges && Touches(e, Process, x))
  {
    var orphans := Orphans(before, edges, Process, stuck);
    if Process in pages { LateFailure(before, 0, batch, orphans, true, pages[Process]); }
    assert before[..0] == [] && Progress(before, 0, orphans) == before;
    CountedSweepIsExact(before, 0, batch, orphans, before, 0);
    KeptExact(before, orphans);
    forall x ensures x in after <==> x in before && (x in stuck || exists e :: e in edges && Touches(e, Process, x)) {
      ChecksCoverSchema(edges, Process, x);
    }
  }

  lemma EveryKind(k: EdgeKind)
    ensures k in EDGE_KINDS
  {
  }

  lemma EveryLabel(lab: Label)
    ensures lab in LABELS
  {
  }

  lemma LabelsDistinct(i: nat)
    requires i < |LABELS|
    ensures forall j :: 0 <= j < |LABELS| && j != i ==> LABELS[j] != LABELS[i]
  {
  }

  lemma {:induction false} TotalSame(a: map<Label, seq<Id>>, b: map<Label, seq<Id>>, n: nat)
    requires n <= |LABELS| && Complete(a) && Complete(b)
    requires forall j :: 0 <= j < n ==> a[LABELS[j]] == b[LABELS[j]]
    ensures Total(a, n) == Total(b, n)
  {
    if n == 0 {
    } else {
      TotalSame(a, b, n - 1);
    }
  }

  ghost function Total(nodes: map<Label, seq<Id>>, n: nat): nat
    requires n <= |LABELS| && Complete(nodes)
  {
    if n == 0 then 0 else Total(nodes, n - 1) + |nodes[LABELS[n - 1]]|
  }
}

/** Exactly when the single forward pass over process events reaches the fixpoint. */
module OnePass {
  import opened Options
  import opened StableSort
  import opened ChainBuilder

  ghost predicate Chronological(es: seq<Event>) {
    forall i, j :: 0 <= i < j < |es| ==> es[i].ts <= es[j].ts
  }

  ghost predicate ShouldBeKnown(known: map<int, real>, e: Event, floor: real) {
    e.IsProcess() && e.HasPid() && e.ts >= floor && e.ppid.Some? && e.ppid.value in known && known[e.ppid.value] <= e.ts
  }

  /** The pass leaves out no process event at or after the anchors whose parent ended up known, no later than the event. */
  ghost predicate Complete(es: seq<Event>, pivots: seq<string>) {
    var a := FindAnchors(es, set p | p in pivots);
    forall e :: e in es && ShouldBeKnown(Final(es, pivots).known, e, a.ts) ==> e.pid.value in Final(es, pivots).known
  }

  /** A child event listed before the event of its own parent at the same instant, where the parent has a further
      parent, different from both, through which alone it could be found. */
  ghost predicate LosingPair(es: seq<Event>, i: nat, j: nat) {
    && i < j < |es| && es[i].ts == es[j].ts
    && es[i].IsProcess() && es[i].HasPid() && es[j].IsProcess() && es[j].HasPid()
    && es[i].ppid == es[j].pid && es[i].pid != es[j].pid
    && es[j].ppid.Some? && es[j].ppid.value > 0 && es[j].ppid != es[i].pid && es[j].ppid != es[j].pid
  }

  ghost predicate NoLosingPair(es: seq<Event>) {
    forall i, j :: 0 <= i < j < |es| ==> !LosingPair(es, i, j)
  }

  // ---- no losing pair, no loss ----

  ghost predicate Positive(known: map<int, real>) { forall pid :: pid in known ==> pid > 0 }

  lemma {:induction false} AnchorsPositive(es: seq<Event>, pivots: set<string>)
    ensures Positive(FindAnchors(es, pivots).pids)
  {
    if es == [] {
    } else {
      AnchorsPositive(es[..|es| - 1], pivots);
    }
  }

  lemma {:induction false} WalkPositive(es: seq<Event>, seeds: seq<Proc>, a: Anchors)
    requires Positive(a.pids)
    ensures Positive(WalkFrom(es, seeds, a).known)
  {
    if es == [] {
    } else {
      WalkPositive(es[..|es| - 1], seeds, a);
    }
  }

  lemma WalkUnfolds(es: seq<Event>, seeds: seq<Proc>, a: Anchors, n: nat)
    requires n < |es|
    ensures WalkFrom(es[..n + 1], seeds, a) == WalkStep(WalkFrom(es[..n], seeds, a), es[n], a.ts)
  {
    assert es[..n + 1][..n] == es[..n];
  }

  /** Event `m` brought `pid` in, through a parent other than itself that is known. */
  ghost predicate Brings(es: seq<Event>, m: nat, pid: int, known: map<int, real>) {
    && m < |es| && es[m].IsProcess() && es[m].HasPid() && es[m].pid == Some(pid)
    && pid in known && es[m].ts == known[pid]
    && es[m].ppid.Some? && es[m].ppid.value in known && es[m].ppid.value != pid
  }

  /** What a prefix knows stays as it is, and whatever is new was brought in by a later event. */
  lemma {:induction false} WalkGrows(es: seq<Event>, seeds: seq<Proc>, a: Anchors, n: nat, k: nat)
    requires n <= k <= |es|
    ensures var v, w := WalkFrom(es[..n], seeds, a), WalkFrom(es[..k], seeds, a);
            && (forall pid :: pid in v.known ==> pid in w.known && w.known[pid] == v.known[pid])
            && (forall pid :: pid in w.known && pid !in v.known ==> exists m :: n <= m < k && Brings(es, m, pid, w.known))
    decreases k
  {
    if n == k {
    } else {
      var v, u, w := WalkFrom(es[..n], seeds, a), WalkFrom(es[..k - 1], seeds, a), WalkFrom(es[..k], seeds, a);
      WalkGrows(es, seeds, a, n, k - 1);
      WalkUnfolds(es, seeds, a, k - 1);
      forall pid | pid in w.known && pid !in v.known ensures exists m :: n <= m < k && Brings(es, m, pid, w.known) {
        if pid in u.known {
          var m :| n <= m < k - 1 && Brings(es, m, pid, u.known);
          assert Brings(es, m, pid, w.known);
        } else {
          assert Brings(es, k - 1, pid, w.known);
        }
      }
    }
  }

  /** A process whose parent is known when its event comes is known from then on. */
  lemma ParentInTime(es: seq<Event>, seeds: seq<Proc>, a: Anchors, n: nat)
    requires n < |es| && ShouldBeKnown(WalkFrom(es, seeds, a).known, es[n], a.ts)
    requires es[n].ppid.value in WalkFrom(es[..n], seeds, a).known
    ensures es[n].pid.value in WalkFrom(es, seeds, a).known
  {
    var e, v, u, w := es[n], WalkFrom(es[..n], seeds, a), WalkFrom(es[..n + 1], seeds, a), WalkFrom(es[..|es|], seeds, a);
    assert es[..|es|] == es;
    WalkGrows(es, seeds, a, n, |es|);
    WalkUnfolds(es, seeds, a, n);
    var parent := e.ppid.value;
    assert parent in v.known;
    assert parent in w.known;
    assert w.known[parent] == v.known[parent];
    assert e.pid.value in v.known || Extends(v.known, e, a.ts);
    assert e.pid.value in u.known;
    WalkGrows(es, seeds, a, n + 1, |es|);
  }

  /** A parent brought in later, but in time for its child's event, makes a losing pair with it, or the child is known. */
  lemma ParentLater(es: seq<Event>, known: map<int, real>, n: nat, m: nat, floor: real)
    requires Chronological(es) && Positive(known) && n <= m < |es| && ShouldBeKnown(known, es[n], floor)
    requires Brings(es, m, es[n].ppid.value, known)
    ensures LosingPair(es, n, m) || es[n].pid.value in known
  {
  }

  lemma OnePassAt(es: seq<Event>, seeds: seq<Proc>, a: Anchors, n: nat)
    requires Chronological(es) && NoLosingPair(es) && Positive(a.pids) && n < |es|
    requires ShouldBeKnown(WalkFrom(es, seeds, a).known, es[n], a.ts)
    ensures es[n].pid.value in WalkFrom(es, seeds, a).known
  {
    hide LosingPair, Brings, Chronological;
    var known := WalkFrom(es, seeds, a).known;
    if es[n].ppid.value in WalkFrom(es[..n], seeds, a).known {
      ParentInTime(es, seeds, a, n);
    } else {
      assert es[..|es|] == es;
      WalkGrows(es, seeds, a, n, |es|);
      WalkPositive(es, seeds, a);
      var m :| n <= m < |es| && Brings(es, m, es[n].ppid.value, known);
      ParentLater(es, known, n, m, a.ts);
      assert m > n ==> !LosingPair(es, n, m);
      assert m == n ==> !LosingPair(es, n, m) by { NotItself(es, n); }
    }
  }

  lemma NotItself(es: seq<Event>, n: nat)
    ensures !LosingPair(es, n, n)
  {
  }

  lemma OnePassSuffices(es: seq<Event>, pivots: seq<string>)
    requires Chronological(es) && NoLosingPair(es)
    ensures Complete(es, pivots)
  {
    hide WalkFrom, Seeds;
    var a := FindAnchors(es, set p | p in pivots);
    AnchorsPositive(es, set p | p in pivots);
    forall e | e in es && ShouldBeKnown(Final(es, pivots).known, e, a.ts) ensures e.pid.value in Final(es, pivots).known {
      var n :| 0 <= n < |es| && es[n] == e;
      OnePassAt(es, Seeds(es, a), a, n);
    }
  }

  /** Distinct timestamps leave no pair, so one pass over the sorted rows suffices. */
  lemma OnePassOverRows(rows: seq<Row>, agent: string, pivots: seq<string>)
    requires DistinctKeys(TargetEvents(rows, agent), When())
    ensures Complete(Sorted(rows, agent), pivots)
  {
    var es := Sorted(rows, agent);
    SortIgnoresInputOrder(TargetEvents(rows, agent), TargetEvents(rows, agent), When());
    assert forall i, j :: 0 <= i < j < |es| ==> When()(es[i]) < When()(es[j]);
    OnePassSuffices(es, pivots);
  }

  // ---- a losing pair loses ----

  /** No other process event at or after the floor names the PID of event `k`. */
  ghost predicate Sole(es: seq<Event>, k: nat, floor: real)
    requires k < |es|
  {
    forall m :: 0 <= m < |es| && m != k && es[m].IsProcess() && es[m].ts >= floor ==> es[m].pid != es[k].pid
  }

  lemma {:induction false} UnknownBefore(es: seq<Event>, seeds: seq<Proc>, a: Anchors, k: nat, n: nat)
    requires n <= k < |es| && es[k].HasPid() && es[k].pid.value !in a.pids && Sole(es, k, a.ts)
    ensures es[k].pid.value !in WalkFrom(es[..n], seeds, a).known
    decreases n
  {
    if n == 0 {
    } else {
      UnknownBefore(es, seeds, a, k, n - 1);
      WalkUnfolds(es, seeds, a, n - 1);
      assert es[n - 1].IsProcess() && es[n - 1].ts >= a.ts ==> es[n - 1].pid != es[k].pid;
    }
  }

  lemma {:induction false} UnknownAfter(es: seq<Event>, seeds: seq<Proc>, a: Anchors, k: nat, n: nat)
    requires k < n <= |es| && es[k].HasPid() && Sole(es, k, a.ts)
    requires es[k].pid.value !in WalkFrom(es[..k + 1], seeds, a).known
    ensures es[k].pid.value !in WalkFrom(es[..n], seeds, a).known
    decreases n
  {
    if n == k + 1 {
    } else {
      UnknownAfter(es, seeds, a, k, n - 1);
      WalkUnfolds(es, seeds, a, n - 1);
      assert es[n - 1].IsProcess() && es[n - 1].ts >= a.ts ==> es[n - 1].pid != es[k].pid;
    }
  }

  /** With the parent's parent as the only anchor, the pass finds the parent and loses the child. */
  lemma PairLoses(es: seq<Event>, seeds: seq<Proc>, a: Anchors, i: nat, j: nat, at: real)
    requires LosingPair(es, i, j) && Sole(es, i, a.ts) && Sole(es, j, a.ts)
    requires a.pids == map[es[j].ppid.value := at] && at <= es[i].ts && a.ts <= es[i].ts
    ensures var known := WalkFrom(es, seeds, a).known;
      ShouldBeKnown(known, es[i], a.ts) && es[i].pid.value !in known
  {
    hide WalkFrom;
    assert es[..|es|] == es && WalkFrom(es[..0], seeds, a).known == a.pids by { Start(es, seeds, a); }
    UnknownBefore(es, seeds, a, i, i);
    UnknownBefore(es, seeds, a, j, i);
    WalkUnfolds(es, seeds, a, i);
    UnknownAfter(es, seeds, a, i, |es|);
    UnknownBefore(es, seeds, a, j, j);
    WalkGrows(es, seeds, a, 0, j);
    WalkUnfolds(es, seeds, a, j);
    WalkGrows(es, seeds, a, j + 1, |es|);
  }

  lemma Start(es: seq<Event>, seeds: seq<Proc>, a: Anchors)
    ensures es[..|es|] == es && WalkFrom(es[..0], seeds, a).known == a.pids
  {
  }

  // ---- one anchor among the events ----

  function With(es: seq<Event>, n: nat, x: Event): seq<Event>
    requires n <= |es|
  {
    es[..n] + [x] + es[n..]
  }

  /** A connection from `ip` that makes `pid` an anchor. */
  function Connection(ip: string, pid: int, ts: real): Event {
    Event("NetworkActivity", ts, ip, "", Some(pid), None, "", "", "")
  }

  lemma {:induction false} OtherAddresses(es: seq<Event>, more: seq<Event>, pivots: set<string>)
    requires forall e :: e in more ==> e.srcIp !in pivots
    ensures FindAnchors(es + more, pivots) == FindAnchors(es, pivots)
    decreases |more|
  {
    if more == [] {
      assert es + more == es;
    } else {
      var init := more[..|more| - 1];
      assert (es + more)[..|es + more| - 1] == es + init;
      OtherAddresses(es, init, pivots);
    }
  }

  lemma OneAnchor(es: seq<Event>, n: nat, ip: string, pid: int, ts: real)
    requires n <= |es| && pid > 0 && forall e :: e in es ==> e.srcIp != ip
    ensures FindAnchors(With(es, n, Connection(ip, pid, ts)), {ip}) == Anchors(map[pid := ts], map[], "", ip, ts)
  {
    var x := Connection(ip, pid, ts);
    assert FindAnchors([], {ip}) == Anchors(map[], map[], "", "", 0.0);
    assert [] + es[..n] == es[..n];
    OtherAddresses([], es[..n], {ip});
    assert (es[..n] + [x])[..n] == es[..n];
    OtherAddresses(es[..n] + [x], es[n..], {ip});
  }

  lemma {:induction false} FreshAddress(es: seq<Event>) returns (ip: string)
    ensures forall e :: e in es ==> |e.srcIp| < |ip|
  {
    if es == [] {
      ip := "x";
    } else {
      var last := es[|es| - 1];
      ip := FreshAddress(es[..|es| - 1]);
      if |ip| <= |last.srcIp| { ip := last.srcIp + "x"; }
      assert es == es[..|es| - 1] + [last];
    }
  }

  /** The same event before and after the insertion. */
  lemma Shifted(es: seq<Event>, n: nat, x: Event)
    requires n <= |es|
    ensures |With(es, n, x)| == |es| + 1 && With(es, n, x)[n] == x
    ensures forall k :: 0 <= k < n ==> With(es, n, x)[k] == es[k]
    ensures forall k :: n < k <= |es| ==> With(es, n, x)[k] == es[k - 1]
    ensures forall k :: n <= k < |es| ==> With(es, n, x)[k + 1] == es[k]
  {
  }

  /** The pass over `es` and any one further event that names no process, from any addresses. */
  ghost predicate AlwaysComplete(es: seq<Event>) {
    forall n: nat, x: Event, pivots: seq<string> ::
      n <= |es| && !x.IsProcess() && Chronological(With(es, n, x)) ==> Complete(With(es, n, x), pivots)
  }

  /** No PID is named by two process events. */
  ghost predicate SoleNames(es: seq<Event>) {
    forall i, j :: 0 <= i < j < |es| && es[i].IsProcess() && es[j].IsProcess() ==> es[i].pid != es[j].pid
  }

  lemma ParentOfParent(es: seq<Event>, i: nat, j: nat)
    requires LosingPair(es, i, j)
    ensures i < j < |es| && es[j].ppid.Some? && es[j].ppid.value > 0
  {
  }

  lemma PairMoves(es: seq<Event>, i: nat, j: nat, x: Event)
    requires Chronological(es) && LosingPair(es, i, j) && Sole(es, i, es[i].ts) && Sole(es, j, es[i].ts)
    requires !x.IsProcess() && x.ts == es[i].ts
    ensures var all := With(es, i, x);
      Chronological(all) && |all| == |es| + 1 && LosingPair(all, i + 1, j + 1)
      && Sole(all, i + 1, x.ts) && Sole(all, j + 1, x.ts) && all[i + 1] == es[i] && all[j + 1] == es[j]
  {
    hide Chronological;
    Shifted(es, i, x);
    StillChronological(es, i, x);
    SoleMoves(es, i, i, x);
    SoleMoves(es, i, j, x);
  }

  lemma StillChronological(es: seq<Event>, n: nat, x: Event)
    requires Chronological(es) && n < |es| && x.ts == es[n].ts
    ensures Chronological(With(es, n, x))
  {
    Shifted(es, n, x);
  }

  lemma SoleMoves(es: seq<Event>, n: nat, k: nat, x: Event)
    requires n <= k < |es| && Sole(es, k, x.ts) && !x.IsProcess()
    ensures k + 1 < |With(es, n, x)| && Sole(With(es, n, x), k + 1, x.ts)
  {
    var all := With(es, n, x);
    Shifted(es, n, x);
    forall m | 0 <= m < |all| && m != k + 1 && all[m].IsProcess() && all[m].ts >= x.ts ensures all[m].pid != all[k + 1].pid {
      var back := if m < n then m else m - 1;
      assert all[m] == es[back] && back != k;
    }
  }

  lemma PairIsLost(es: seq<Event>, i: nat, j: nat) returns (x: Event, pivots: seq<string>)
    requires Chronological(es) && LosingPair(es, i, j) && Sole(es, i, es[i].ts) && Sole(es, j, es[i].ts)
    ensures !x.IsProcess() && Chronological(With(es, i, x)) && !Complete(With(es, i, x), pivots)
  {
    hide WalkFrom, Seeds, FindAnchors, Sole, LosingPair, Chronological;
    ParentOfParent(es, i, j);
    var pid, at := es[j].ppid.value, es[i].ts;
    var ip := FreshAddress(es);
    x, pivots := Connection(ip, pid, at), [ip];
    var all := With(es, i, x);
    assert (set p | p in pivots) == {ip};
    OneAnchor(es, i, ip, pid, at);
    var a := FindAnchors(all, {ip});
    PairMoves(es, i, j, x);
    PairLoses(all, Seeds(all, a), a, i + 1, j + 1, at);
    assert all[i + 1] in all;
  }

  /** Adding an event that names no process makes no losing pair. */
  lemma NoNewPair(es: seq<Event>, n: nat, x: Event)
    requires n <= |es| && !x.IsProcess() && NoLosingPair(es)
    ensures NoLosingPair(With(es, n, x))
  {
    var all := With(es, n, x);
    Shifted(es, n, x);
    forall i, j | 0 <= i < j < |all| ensures !LosingPair(all, i, j) {
      if i != n && j != n {
        assert !LosingPair(es, if i < n then i else i - 1, if j < n then j else j - 1);
      }
    }
  }

  /**
   * For events in time order that name each process once: the single pass is complete whatever the anchors are, if and
   * only if no child is listed before its parent at one instant in a way that could matter.
   */
  lemma OnePassExact(es: seq<Event>)
    requires Chronological(es) && SoleNames(es)
    ensures AlwaysComplete(es) <==> NoLosingPair(es)
  {
    hide Complete, LosingPair, Chronological;
    if NoLosingPair(es) {
      forall n: nat, x: Event, pivots: seq<string> | n <= |es| && !x.IsProcess() && Chronological(With(es, n, x))
        ensures Complete(With(es, n, x), pivots) {
        NoNewPair(es, n, x);
        OnePassSuffices(With(es, n, x), pivots);
      }
    } else {
      var i, j :| 0 <= i < j < |es| && LosingPair(es, i, j);
      SolePair(es, i, j);
      var x, pivots := PairIsLost(es, i, j);
      assert !Complete(With(es, i, x), pivots);
    }
  }

  lemma SolePair(es: seq<Event>, i: nat, j: nat)
    requires SoleNames(es) && LosingPair(es, i, j)
    ensures Sole(es, i, es[i].ts) && Sole(es, j, es[i].ts)
  {
  }

  function Spawn(pid: int, ppid: int, ts: real): Event {
    Event("ProcessActivity", ts, "", "", Some(pid), Some(ppid), "", "", "")
  }

  /** An instance: process 1 answers a connection and starts 2, which starts 3, and the record of 3 comes first. */
  lemma OnePassMissesTies()
    ensures var es := [Connection("10.0.0.1", 1, 1.0), Spawn(3, 2, 2.0), Spawn(2, 1, 2.0)];
      Chronological(es) && !Complete(es, ["10.0.0.1"])
  {
    hide WalkFrom, Seeds, FindAnchors;
    var child, parent := Spawn(3, 2, 2.0), Spawn(2, 1, 2.0);
    var es := [Connection("10.0.0.1", 1, 1.0), child, parent];
    assert es == With([child, parent], 0, Connection("10.0.0.1", 1, 1.0));
    OneAnchor([child, parent], 0, "10.0.0.1", 1, 1.0);
    assert (set p | p in ["10.0.0.1"]) == {"10.0.0.1"};
    var a := FindAnchors(es, {"10.0.0.1"});
    assert LosingPair(es, 1, 2) && Sole(es, 1, 1.0) && Sole(es, 2, 1.0);
    PairLoses(es, Seeds(es, a), a, 1, 2, 1.0);
    assert es[1] in es;
  }
}

/** Bounded breadth-first search from anchor PIDs through the parent-to-children index. */
module DescendantBfs {
  import opened Sets

  /** The search compares PIDs and nothing else, so their type is a parameter. */
  type Children<!Pid> = map<Pid, set<Pid>>

  const MAX_DEPTH: nat := 10
  const MAX_TOTAL: nat := 200

  function KidsOf<Pid(!new,==)>(ch: Children<Pid>, pid: Pid): set<Pid> { if pid in ch then ch[pid] else {} }

  ghost function Kids<Pid(!new)>(ch: Children<Pid>, s: set<Pid>): set<Pid> { set p, c | p in s && c in KidsOf(ch, p) :: c }

  lemma KidIn<Pid(!new)>(ch: Children<Pid>, s: set<Pid>, p: Pid, c: Pid)
    requires p in s && c in KidsOf(ch, p)
    ensures c in Kids(ch, s)
  {
  }

  /** Everything within `n` child steps of `anchors`. */
  ghost function Reach<Pid(!new)>(ch: Children<Pid>, anchors: set<Pid>, n: nat): set<Pid> {
    if n == 0 then anchors else Reach(ch, anchors, n - 1) + Kids(ch, Reach(ch, anchors, n - 1))
  }

  /** A path from parent to child. */
  ghost predicate IsPath<Pid(!new)>(ch: Children<Pid>, p: seq<Pid>) {
    p != [] && forall i :: 0 <= i < |p| - 1 ==> p[i + 1] in KidsOf(ch, p[i])
  }

  ghost predicate Within<Pid(!new)>(ch: Children<Pid>, anchors: set<Pid>, n: nat, x: Pid) {
    exists p :: IsPath(ch, p) && |p| <= n + 1 && p[0] in anchors && p[|p| - 1] == x
  }

  lemma {:induction false} ReachIsPaths<Pid(!new)>(ch: Children<Pid>, anchors: set<Pid>, n: nat, x: Pid)
    ensures x in Reach(ch, anchors, n) <==> Within(ch, anchors, n, x)
  {
    if x in Reach(ch, anchors, n) { var p := PathTo(ch, anchors, n, x); }
    if p :| IsPath(ch, p) && |p| <= n + 1 && p[0] in anchors && p[|p| - 1] == x {
      PathReaches(ch, anchors, n, p);
    }
  }

  lemma {:induction false} PathTo<Pid(!new)>(ch: Children<Pid>, anchors: set<Pid>, n: nat, x: Pid) returns (p: seq<Pid>)
    requires x in Reach(ch, anchors, n)
    ensures IsPath(ch, p) && |p| <= n + 1 && p[0] in anchors && p[|p| - 1] == x
  {
    if n == 0 {
      p := [x];
    } else if x in Reach(ch, anchors, n - 1) {
      p := PathTo(ch, anchors, n - 1, x);
    } else {
      var q :| q in Reach(ch, anchors, n - 1) && x in KidsOf(ch, q);
      p := PathTo(ch, anchors, n - 1, q);
      p := p + [x];
    }
  }

  lemma {:induction false} PathReaches<Pid(!new)>(ch: Children<Pid>, anchors: set<Pid>, n: nat, p: seq<Pid>)
    requires IsPath(ch, p) && |p| <= n + 1 && p[0] in anchors
    ensures p[|p| - 1] in Reach(ch, anchors, n)
  {
    if |p| == 1 {
      ReachGrows(ch, anchors, 0, n);
    } else {
      PathReaches(ch, anchors, n - 1, p[..|p| - 1]);
      KidIn(ch, Reach(ch, anchors, n - 1), p[|p| - 2], p[|p| - 1]);
    }
  }

  lemma {:induction false} ReachGrows<Pid(!new)>(ch: Children<Pid>, anchors: set<Pid>, m: nat, n: nat)
    requires m <= n
    ensures Reach(ch, anchors, m) <= Reach(ch, anchors, n)
    decreases n - m
  {
    if m == n {
    } else {
      ReachGrows(ch, anchors, m, n - 1);
    }
  }

  /** The children of one process, stopping at the cap. */
  method AddChildren<Pid(!new,==)>(children: set<Pid>, start: set<Pid>) returns (result: set<Pid>)
    requires |start| < MAX_TOTAL
    ensures start <= result <= start + children && |result| <= MAX_TOTAL
    ensures |result| < MAX_TOTAL ==> result == start + children
  {
    result := start;
    var todo := children;
    while todo != {}
      invariant todo <= children && start <= result && |result| < MAX_TOTAL
      invariant result == start + (children - todo)
      decreases |todo|
    {
      var child := Pick(todo);
      todo := todo - {child};
      if child !in result {
        result := result + {child};
        if |result| >= MAX_TOTAL { return; }
      }
    }
  }

  /** Every child of a process in `s` is in `r`. */
  ghost predicate Spread<Pid(!new)>(ch: Children<Pid>, s: set<Pid>, r: set<Pid>) {
    forall p :: p in s ==> KidsOf(ch, p) <= r
  }

  lemma KidsSpread<Pid(!new)>(ch: Children<Pid>, s: set<Pid>)
    ensures Spread(ch, s, Kids(ch, s))
    ensures forall r :: Spread(ch, s, r) ==> Kids(ch, s) <= r
  {
  }

  /** One level of the search: the children of every frontier process, stopping at the cap. */
  method Expand<Pid(!new,==)>(ch: Children<Pid>, frontier: set<Pid>, start: set<Pid>, ghost goal: set<Pid>) returns (result: set<Pid>)
    requires |start| < MAX_TOTAL && start <= goal && Spread(ch, frontier, goal)
    ensures start <= result <= goal && |result| <= MAX_TOTAL
    ensures |result| < MAX_TOTAL ==> Spread(ch, frontier, result)
  {
    result := start;
    var todo := frontier;
    while todo != {}
      invariant todo <= frontier && start <= result <= goal && |result| < MAX_TOTAL
      invariant forall p :: p in frontier && p !in todo ==> KidsOf(ch, p) <= result
      decreases |todo|
    {
      var pid := Pick(todo);
      todo := todo - {pid};
      result := AddChildren(KidsOf(ch, pid), result);
      if |result| >= MAX_TOTAL { return; }
    }
  }

  /** Exact up to the cap: anchors included, nothing beyond ten steps, nothing missed below the cap. */
  method ResolveDescendantPids<Pid(!new,==)>(anchors: seq<Pid>, built: bool, ch: Children<Pid>) returns (result: set<Pid>)
    ensures !built || anchors == [] ==> result == set p | p in anchors
    ensures (set p | p in anchors) <= result
    ensures built ==> result <= Reach(ch, (set p | p in anchors), MAX_DEPTH)
    ensures built && |result| < MAX_TOTAL ==> result == Reach(ch, (set p | p in anchors), MAX_DEPTH)
    ensures |result| <= MAX_TOTAL || result == set p | p in anchors
  {
    var a := set p | p in anchors;
    if anchors == [] || !built {
      EmptyReach(ch, MAX_DEPTH);
      ReachGrows(ch, a, 0, MAX_DEPTH);
      return a;
    }
    ReachLevels(ch, a, MAX_DEPTH);
    result := Search(a, ch, MAX_DEPTH, seq(MAX_DEPTH + 1, i requires 0 <= i <= MAX_DEPTH => Reach(ch, a, i)));
  }

  /** `levels[i]` is everything within `i` steps, up to the given depth. */
  ghost predicate Levels<Pid(!new)>(ch: Children<Pid>, levels: seq<set<Pid>>) {
    && levels != []
    && (forall i :: 0 <= i < |levels| - 1 ==> levels[i] <= levels[i + 1] && Spread(ch, levels[i], levels[i + 1]))
    && (forall i, r :: 0 <= i < |levels| - 1 && levels[i] <= r && Spread(ch, levels[i], r) ==> levels[i + 1] <= r)
  }

  lemma ReachLevels<Pid(!new)>(ch: Children<Pid>, a: set<Pid>, depth: nat)
    ensures Levels(ch, seq(depth + 1, i requires 0 <= i <= depth => Reach(ch, a, i)))
  {
    var levels := seq(depth + 1, i requires 0 <= i <= depth => Reach(ch, a, i));
    forall i | 0 <= i < depth
      ensures levels[i] <= levels[i + 1] && Spread(ch, levels[i], levels[i + 1])
      ensures forall r :: levels[i] <= r && Spread(ch, levels[i], r) ==> levels[i + 1] <= r {
      KidsSpread(ch, levels[i]);
    }
  }

  lemma {:induction false} LevelsGrow<Pid(!new)>(ch: Children<Pid>, levels: seq<set<Pid>>, m: nat, n: nat)
    requires Levels(ch, levels) && m <= n < |levels|
    ensures levels[m] <= levels[n]
    decreases n - m
  {
    if m == n {
    } else {
      LevelsGrow(ch, levels, m, n - 1);
    }
  }

  lemma {:induction false} LevelsClosed<Pid(!new)>(ch: Children<Pid>, levels: seq<set<Pid>>, m: nat, n: nat)
    requires Levels(ch, levels) && m <= n < |levels| && Spread(ch, levels[m], levels[m])
    ensures levels[n] == levels[m]
    decreases n - m
  {
    if m == n {
    } else {
      LevelsClosed(ch, levels, m, n - 1);
    }
  }

  method Search<Pid(!new,==)>(a: set<Pid>, ch: Children<Pid>, depth: nat, ghost levels: seq<set<Pid>>) returns (result: set<Pid>)
    requires Levels(ch, levels) && |levels| == depth + 1 && levels[0] == a
    ensures a <= result <= levels[depth]
    ensures |result| < MAX_TOTAL ==> result == levels[depth]
    ensures |result| <= MAX_TOTAL || result == a
  {
    result := a;
    var frontier := a;
    var d := 0;
    LevelsGrow(ch, levels, 0, depth);
    while d < depth
      invariant 0 <= d <= depth && a <= result == levels[d] && frontier <= result
      invariant forall p :: p in result && p !in frontier ==> KidsOf(ch, p) <= result
      invariant |result| <= MAX_TOTAL || result == a
      invariant result <= levels[depth]
    {
      if |result| >= MAX_TOTAL { return; }
      var before := result;
      LevelsGrow(ch, levels, d + 1, depth);
      result := Expand(ch, frontier, before, levels[d + 1]);
      if |result| >= MAX_TOTAL { return; }
      assert Spread(ch, before, result);
      frontier := result - before;
      if frontier == {} {
        assert forall x :: x in result && x !in before ==> x in frontier;
        assert result == before;
        LevelsClosed(ch, levels, d, depth);
        return;
      }
      d := d + 1;
    }
  }

  lemma {:induction false} EmptyReach<Pid(!new)>(ch: Children<Pid>, n: nat)
    ensures Reach(ch, {}, n) == {}
  {
    if n == 0 {
    } else {
      EmptyReach(ch, n - 1);
    }
  }
}

/** What Sigma detections and blocklist rules mean, and that compiling preserves it. */
module RuleMeaning {
  import opened ChainFilter
  import opened RuleCompiler
  import opened Text

  /** One step of a process chain. `special` are the prefixed filter steps that match it, through its command line, its
      container or a regular expression. */
  datatype ChainEntry = ChainEntry(image: string, special: set<string>)

  /** A process start: its chain, root first, the process itself last. */
  type Process = entries: seq<ChainEntry> | |entries| > 0 witness [ChainEntry("", {})]

  function Own(p: Process): string { p[|p| - 1].image }

  function Parent(p: Process): string
    requires |p| >= 2
  {
    p[|p| - 2].image
  }

  /** The chain entries of processes of which only the paths matter. */
  function Plainly(images: seq<string>): (r: seq<ChainEntry>)
    ensures |r| == |images| && forall i :: 0 <= i < |images| ==> r[i] == ChainEntry(images[i], {})
  {
    seq(|images|, i requires 0 <= i < |images| => ChainEntry(images[i], {}))
  }

  predicate EndsWith(s: string, end: string) { |end| <= |s| && s[|s| - |end|..] == end }

  // ---- Sigma ----

  /** The two keys of the fragment; a further modifier such as `all` leaves it. */
  predicate ImageKey(key: Key) { |key| == 2 && Lower(key[0]) == IMAGE && Lower(key[1]) == "endswith" }

  predicate ParentKey(key: Key) { |key| == 2 && Lower(key[0]) == PARENT && Lower(key[1]) == "endswith" }

  predicate SomeValueEnds(path: string, values: seq<string>) {
    exists i :: 0 <= i < |values| && EndsWith(Lower(path), Lower(values[i]))
  }

  predicate EntryHolds(e: Entry, p: Process) {
    if ParentKey(e.key) then |p| >= 2 && SomeValueEnds(Parent(p), e.values) else SomeValueEnds(Own(p), e.values)
  }

  predicate SelectionHolds(selection: Selection, p: Process) {
    forall i :: 0 <= i < |selection| ==> EntryHolds(selection[i], p)
  }

  // ---- the blocklist ----

  predicate Glob(pattern: string, s: string)
    decreases |pattern| + |s|
  {
    if pattern == "" then s == ""
    else if pattern[0] == '*' then Glob(pattern[1..], s) || (s != "" && Glob(pattern, s[1..]))
    else s != "" && (pattern[0] == '?' || pattern[0] == s[0]) && Glob(pattern[1..], s[1..])
  }

  predicate NameMatches(pattern: string, name: string) { Glob(Lower(pattern), Lower(name)) }

  predicate StepMatches(e: ChainEntry, step: string) {
    if Prefixed(step) then step in e.special else NameMatches(step, Basename(e.image))
  }

  /** `*` is one step of the chain, `**` any number of steps. */
  predicate ChainMatches(steps: seq<string>, entries: seq<ChainEntry>)
    decreases |steps| + |entries|
  {
    if steps == [] then entries == []
    else if steps[0] == "**" then
      ChainMatches(steps[1..], entries) || (entries != [] && ChainMatches(steps, entries[1..]))
    else entries != [] && (steps[0] == "*" || StepMatches(entries[0], steps[0])) && ChainMatches(steps[1..], entries[1..])
  }

  /** A filter must fit the end of the chain, from any start. */
  predicate FilterMatches(filter: string, p: Process) {
    exists start :: 0 <= start < |p| && ChainMatches(Steps(filter), p[start..])
  }

  predicate Matches(r: Rule, p: Process) {
    r.kind.ProcessName? && NameMatches(r.pattern, Basename(Own(p))) && (r.chain == "" || FilterMatches(r.chain, p))
  }

  predicate Fires(rules: seq<Rule>, p: Process) { exists i :: 0 <= i < |rules| && Matches(rules[i], p) }

  // ---- globs and chains of plain names ----

  predicate Plain(s: string) { forall i :: 0 <= i < |s| ==> s[i] !in ['*', '?', '['] }

  lemma {:induction false} PlainGlob(pattern: string, s: string)
    requires Plain(pattern)
    ensures Glob(pattern, s) <==> pattern == s
    decreases |pattern|
  {
    if pattern == "" || s == "" {
    } else {
      PlainGlob(pattern[1..], s[1..]);
      assert pattern == [pattern[0]] + pattern[1..] && s == [s[0]] + s[1..];
    }
  }

  lemma PlainName(pattern: string, name: string)
    requires Plain(pattern)
    ensures NameMatches(pattern, name) <==> Lower(pattern) == Lower(name)
  {
    assert Plain(Lower(pattern));
    PlainGlob(Lower(pattern), Lower(name));
  }

  /** `** > parent > child` looks at the last two steps only. */
  lemma {:induction false} LastTwoSteps(parent: string, child: string, entries: seq<ChainEntry>)
    requires parent !in {"*", "**"} && child !in {"*", "**"}
    ensures ChainMatches(["**", parent, child], entries)
       <==> |entries| >= 2 && StepMatches(entries[|entries| - 2], parent) && StepMatches(entries[|entries| - 1], child)
    decreases |entries|
  {
    hide StepMatches;
    var steps := ["**", parent, child];
    assert steps[1..] == [parent, child];
    TwoSteps(parent, child, entries);
    if entries == [] {
    } else {
      LastTwoSteps(parent, child, entries[1..]);
    }
  }

  lemma TwoSteps(parent: string, child: string, entries: seq<ChainEntry>)
    requires parent !in {"*", "**"} && child !in {"*", "**"}
    ensures ChainMatches([parent, child], entries)
       <==> |entries| == 2 && StepMatches(entries[0], parent) && StepMatches(entries[1], child)
  {
    hide StepMatches;
    assert [parent, child][1..] == [child];
    assert [child][1..] == [];
    if |entries| >= 1 {
      assert ChainMatches([child], entries[1..]) <==> |entries| == 2 && StepMatches(entries[1], child);
    }
  }

  /** Every step that is not `**` takes a step of the chain. */
  lemma {:induction false} StepsNeedEntries(steps: seq<string>, entries: seq<ChainEntry>)
    requires ChainMatches(steps, entries) && steps != [] && forall i :: 1 <= i < |steps| ==> steps[i] != "**"
    ensures |entries| >= |steps| - 1
    decreases |entries|
  {
    hide StepMatches;
    if steps[0] == "**" && entries != [] && ChainMatches(steps, entries[1..]) {
      StepsNeedEntries(steps, entries[1..]);
    } else if |steps| > 1 && entries != [] {
      if steps[0] == "**" { StepsNeedEach(steps[1..], entries); } else { StepsNeedEach(steps[1..], entries[1..]); }
    }
  }

  lemma {:induction false} StepsNeedEach(steps: seq<string>, entries: seq<ChainEntry>)
    requires ChainMatches(steps, entries) && forall i :: 0 <= i < |steps| ==> steps[i] != "**"
    ensures |entries| >= |steps|
    decreases |steps|
  {
    hide StepMatches;
    if steps == [] {
    } else {
      StepsNeedEach(steps[1..], entries[1..]);
    }
  }

  /** A filter that starts with `**` fits from the root when it fits from anywhere. */
  lemma FilterFromRoot(filter: string, p: Process)
    requires Steps(filter)[0] == "**"
    ensures FilterMatches(filter, p) <==> ChainMatches(Steps(filter), p)
  {
    hide Steps, StepMatches;
    assert p[0..] == p;
    if start :| 0 <= start < |p| && ChainMatches(Steps(filter), p[start..]) { StarsAbsorb(Steps(filter), p, start); }
  }

  lemma {:induction false} StarsAbsorb(steps: seq<string>, entries: seq<ChainEntry>, start: nat)
    requires steps != [] && steps[0] == "**" && start <= |entries| && ChainMatches(steps, entries[start..])
    ensures ChainMatches(steps, entries)
    decreases start
  {
    hide StepMatches;
    if start == 0 {
      assert entries[0..] == entries;
    } else {
      assert entries[1..][start - 1..] == entries[start..];
      StarsAbsorb(steps, entries[1..], start - 1);
    }
  }

  // ---- path ends ----

  /** A path without a slash, read as standing in the root. */
  function Rooted(path: string): string { if '/' in path then path else "/" + path }

  function RootedProcess(p: Process): (r: Process)
    ensures |r| == |p| && forall i :: 0 <= i < |p| ==> r[i] == ChainEntry(Rooted(p[i].image), p[i].special)
  {
    seq(|p|, i requires 0 <= i < |p| => ChainEntry(Rooted(p[i].image), p[i].special))
  }

  /** A value "/" plus a plain name without slashes. */
  predicate NameValue(v: string) { |v| >= 2 && v[0] == '/' && '/' !in v[1..] && Plain(v[1..]) }

  lemma {:induction false} SplitAtSlash(front: string, name: string)
    requires '/' !in name
    ensures Basename(front + "/" + name) == name
    decreases |name|
  {
    if name == "" {
    } else {
      var init := name[..|name| - 1];
      assert (front + "/" + name)[..|front| + |name|] == front + "/" + init;
      SplitAtSlash(front, init);
    }
  }

  lemma SlashSurvives(s: string)
    ensures '/' in Lower(s) <==> '/' in s
  {
    if '/' in s {
      var i :| 0 <= i < |s| && s[i] == '/';
      assert Lower(s)[i] == '/';
    }
  }

  lemma LowerJoins(front: string, name: string)
    ensures Lower(front + "/" + name) == Lower(front) + "/" + Lower(name)
  {
  }

  lemma EndAfterSlash(front: string, base: string, name: string)
    requires '/' !in base && '/' !in name
    ensures EndsWith(front + "/" + base, "/" + name) <==> base == name
  {
    var s, end := front + "/" + base, "/" + name;
    if EndsWith(s, end) {
      var before := s[..|s| - |end|];
      assert s == before + "/" + name;
      LastPart('/', front, base, before, name);
    }
    if base == name { assert s[|front|..] == end; }
  }

  lemma NameOfValue(v: string)
    requires NameValue(v)
    ensures Basename(v) == v[1..] && '/' !in v[1..]
  {
    assert v == "" + "/" + v[1..];
    SplitAtSlash("", v[1..]);
  }

  lemma EndIsName(front: string, base: string, v: string)
    requires NameValue(v) && '/' !in base
    ensures EndsWith(Lower(front + "/" + base), Lower(v)) <==> Lower(v[1..]) == Lower(base)
  {
    hide Lower, EndsWith;
    var name := v[1..];
    assert v == "" + "/" + name;
    LowerJoins(front, base);
    LowerJoins("", name);
    assert Lower("") + "/" + Lower(name) == "/" + Lower(name);
    SlashSurvives(name);
    SlashSurvives(base);
    EndAfterSlash(Lower(front), Lower(base), Lower(name));
  }

  lemma SlashIsOutside(path: string)
    requires '/' in path
    ensures |Basename(path)| < |path|
  {
    assert path[..] == path;
  }

  lemma {:induction false} NoSlash(path: string)
    requires '/' !in path
    ensures Basename(path) == path
  {
    if path == "" {
    } else {
      NoSlash(path[..|path| - 1]);
      assert path == path[..|path| - 1] + [path[|path| - 1]];
    }
  }

  lemma SplitBefore(s: string, base: string) returns (front: string)
    requires |base| < |s| && s[|s| - |base| - 1] == '/' && s[|s| - |base|..] == base
    ensures s == front + "/" + base
  {
    front := s[..|s| - |base| - 1];
    assert s == front + [s[|front|]] + s[|front| + 1..];
  }

  lemma RootedSplit(path: string) returns (front: string)
    ensures Rooted(path) == front + "/" + Basename(path)
  {
    hide Basename;
    if '/' in path {
      SlashIsOutside(path);
      front := SplitBefore(path, Basename(path));
    } else {
      NoSlash(path);
      front := "";
    }
  }

  /** A rooted path ends in "/name" exactly when its base name is that name. */
  lemma EndIsBasename(path: string, v: string)
    requires NameValue(v)
    ensures Basename(v) == v[1..]
    ensures EndsWith(Lower(Rooted(path)), Lower(v)) <==> Lower(Basename(v)) == Lower(Basename(path))
  {
    hide *;
    NameOfValue(v);
    var front := RootedSplit(path);
    EndIsName(front, Basename(path), v);
  }
}

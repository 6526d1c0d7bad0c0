/** Deduplication, the blast shield, and the compiler as a whole. */
module RulePasses {
  import opened RuleCompiler
  import opened RuleTranslator
  import opened RuleMeaning
  import opened RuleProofs
  import opened RuleConditions
  import opened Text

  // ---- deduplication ----

  lemma SameKeyMatches(a: Rule, b: Rule, p: Process)
    requires SameKey(a, b)
    ensures Matches(a, p) == Matches(b, p)
  {
  }

  lemma {:induction false} DedupedMembers(rules: seq<Rule>)
    ensures forall r :: r in Deduped(rules) ==> r in rules
    ensures forall r :: r in rules ==> KeyIn(r, Deduped(rules))
    decreases |rules|
  {
    if rules == [] {
    } else {
      var init, last := rules[..|rules| - 1], rules[|rules| - 1];
      assert rules == init + [last];
      DedupedMembers(init);
      forall r | r in rules ensures KeyIn(r, Deduped(rules)) {
        KeyStays(init, last, r);
      }
    }
  }

  lemma SameKeyTransitive(a: Rule, b: Rule, c: Rule)
    requires SameKey(a, b) && SameKey(b, c)
    ensures SameKey(a, c)
  {
  }

  lemma KeyStays(init: seq<Rule>, last: Rule, r: Rule)
    requires r in init || r == last
    requires forall r :: r in init ==> KeyIn(r, Deduped(init))
    ensures KeyIn(r, Deduped(init) + if KeyIn(last, init) then [] else [last])
  {
    var kept := Deduped(init);
    var all := kept + if KeyIn(last, init) then [] else [last];
    if r in init || KeyIn(last, init) {
      var i :| 0 <= i < |init| && SameKey(init[i], r);
      assert init[i] in init;
      var j :| 0 <= j < |kept| && SameKey(kept[j], init[i]);
      SameKeyTransitive(kept[j], init[i], r);
      assert all[j] == kept[j];
    } else {
      assert SameKey(all[|kept|], r);
    }
  }

  /** No two of the kept rules share a key. */
  lemma {:induction false} DedupedUnique(rules: seq<Rule>)
    ensures forall i, j :: 0 <= i < j < |Deduped(rules)| ==> !SameKey(Deduped(rules)[i], Deduped(rules)[j])
    decreases |rules|
  {
    if rules == [] {
    } else {
      var init, last := rules[..|rules| - 1], rules[|rules| - 1];
      DedupedUnique(init);
      DedupedMembers(init);
      if !KeyIn(last, init) {
        forall i | 0 <= i < |Deduped(init)| ensures !SameKey(Deduped(init)[i], last) {
          assert Deduped(init)[i] in init;
        }
      }
    }
  }

  /** Deduplication changes nothing about what fires. */
  lemma DedupKeepsMeaning(rules: seq<Rule>, p: Process)
    ensures Fires(Deduped(rules), p) <==> Fires(rules, p)
  {
    hide Matches, Deduped;
    var kept := Deduped(rules);
    DedupedMembers(rules);
    if Fires(kept, p) {
      var i :| 0 <= i < |kept| && Matches(kept[i], p);
      assert kept[i] in rules;
    }
    if Fires(rules, p) {
      var i :| 0 <= i < |rules| && Matches(rules[i], p);
      assert rules[i] in rules;
      var j :| 0 <= j < |kept| && SameKey(kept[j], rules[i]);
      SameKeyMatches(kept[j], rules[i], p);
    }
  }

  // ---- the blast shield ----

  /** The shield drops exactly the unscoped danger binaries, and every rule is either kept or dropped. */
  lemma {:induction false} ShieldExact(rules: seq<Rule>)
    ensures forall r :: r in Safe(rules) <==> r in rules && !Shielded(r)
    ensures forall r :: r in Dropped(rules) <==> r in rules && Shielded(r)
    ensures multiset(Safe(rules)) + multiset(Dropped(rules)) == multiset(rules)
    decreases |rules|
  {
    hide Shielded;
    if rules == [] {
    } else {
      var init, last := rules[..|rules| - 1], rules[|rules| - 1];
      assert rules == init + [last];
      ShieldExact(init);
    }
  }

  predicate Dangerous(p: Process) { Lower(Basename(Own(p))) in UNSCOPED_DANGER_BINARIES }

  /** The listed names are lower-case and hold no slash, so each of them is the base name of some process. */
  lemma DangerNames(name: string)
    requires name in UNSCOPED_DANGER_BINARIES
    ensures Lower(name) == name && Basename(name) == name
  {
    var i :| 0 <= i < |UNSCOPED_DANGER_BINARIES| && UNSCOPED_DANGER_BINARIES[i] == name;
    LowerNames(i);
    NoSlash(name);
  }

  lemma LowerNames(i: nat)
    requires i < |UNSCOPED_DANGER_BINARIES|
    ensures forall c :: c in UNSCOPED_DANGER_BINARIES[i] ==> c != '/' && LowerChar(c) == c
  {
  }

  /** Whether an unscoped rule reaches a danger binary: its pattern, read as a glob, matches one of the listed names. */
  predicate ReachesDanger(r: Rule) { exists name :: name in UNSCOPED_DANGER_BINARIES && Glob(Lower(r.pattern), name) }

  /** An unscoped rule fires on some danger binary exactly when its pattern reaches one of the names. */
  lemma UnscopedLeaksExact(r: Rule)
    requires r.kind.ProcessName? && r.chain == ""
    ensures (exists p: Process :: Dangerous(p) && Matches(r, p)) <==> ReachesDanger(r)
  {
    hide Glob, Basename, Lower;
    if p: Process :| Dangerous(p) && Matches(r, p) {
      assert Glob(Lower(r.pattern), Lower(Basename(Own(p))));
    }
    if ReachesDanger(r) {
      var name :| name in UNSCOPED_DANGER_BINARIES && Glob(Lower(r.pattern), name);
      DangerNames(name);
      var p: Process := Plainly([name]);
      assert Own(p) == name;
      assert Dangerous(p) && Matches(r, p);
    }
  }

  /** Among unscoped rules the shield stops the plain ones that reach danger and no others. */
  lemma ShieldStopsPlain(r: Rule)
    requires r.kind.ProcessName? && r.chain == ""
    ensures Shielded(r) ==> ReachesDanger(r)
    ensures Plain(r.pattern) ==> (Shielded(r) <==> ReachesDanger(r))
  {
    hide Glob, Lower;
    if Shielded(r) { GlobsItself(Lower(r.pattern)); }
    if Plain(r.pattern) && ReachesDanger(r) {
      var name :| name in UNSCOPED_DANGER_BINARIES && Glob(Lower(r.pattern), name);
      LowerPlain(r.pattern);
      PlainGlob(Lower(r.pattern), name);
    }
  }

  lemma LowerPlain(s: string)
    requires Plain(s)
    ensures Plain(Lower(s))
  {
  }

  lemma {:induction false} GlobsItself(s: string)
    ensures Glob(s, s)
    decreases |s|
  {
    if s == "" {
    } else {
      GlobsItself(s[1..]);
      if s[0] == '*' { StarGlobs(s[1..], s); }
    }
  }

  /** `*` absorbs one character more than what follows it needs. */
  lemma StarGlobs(rest: string, s: string)
    requires s != "" && s[0] == '*' && s[1..] == rest && Glob(rest, rest)
    ensures Glob(s, s)
  {
    assert Glob(s, s[1..]);
  }

  /** No plain unscoped rule that passes the shield fires on a danger binary. */
  lemma ShieldProtects(rules: seq<Rule>, r: Rule, p: Process)
    requires r in Safe(rules) && r.kind.ProcessName? && r.chain == "" && Plain(r.pattern) && Dangerous(p)
    ensures !Matches(r, p)
  {
    hide Shielded, Matches, Dangerous, Plain;
    ShieldExact(rules);
    ShieldStopsPlain(r);
    UnscopedLeaksExact(r);
  }

  /** A glob slips through: an unscoped `rm*` passes the shield and fires on some danger binary. */
  lemma GlobSlipsThrough(description: string)
    ensures var r := Rule(ProcessName, "rm*", "", description);
      Safe([r]) == [r] && exists p: Process :: Dangerous(p) && Matches(r, p)
  {
    hide Dangerous, Matches, Glob;
    var r := Rule(ProcessName, "rm*", "", description);
    assert Lower("rm*") == "rm*";
    RmListed();
    RmStar();
    assert [r][..0] == [];
    UnscopedLeaksExact(r);
  }

  lemma RmListed()
    ensures "rm" in UNSCOPED_DANGER_BINARIES && "rm*" !in UNSCOPED_DANGER_BINARIES
  {
    assert UNSCOPED_DANGER_BINARIES[0] == "rm";
    assert forall i :: 0 <= i < |UNSCOPED_DANGER_BINARIES| ==>
        UNSCOPED_DANGER_BINARIES[i] == "rm" || |UNSCOPED_DANGER_BINARIES[i]| != 3 || UNSCOPED_DANGER_BINARIES[i][2] != '*';
  }

  lemma RmStar()
    ensures Glob("rm*", "rm")
  {
    assert "rm*"[1..] == "m*" && "rm"[1..] == "m" && "m*"[1..] == "*" && "m"[1..] == "" && "*"[1..] == "";
    assert Glob("*", "") && Glob("m*", "m");
  }

  // ---- compiled patterns are plain ----

  predicate PlainRules(rules: seq<Rule>) { forall r :: r in rules ==> Plain(r.pattern) }

  lemma {:induction false} PlainScoped(image: string, parents: seq<string>, description: string)
    requires Plain(image)
    ensures PlainRules(ScopedRules(image, parents, description))
    decreases |parents|
  {
    if parents == [] {
    } else {
      PlainScoped(image, parents[..|parents| - 1], description);
    }
  }

  lemma {:induction false} PlainImages(images: seq<string>, parents: seq<string>, description: string)
    requires AllPlain(images)
    ensures PlainRules(ImageRules(images, parents, description))
    decreases |images|
  {
    hide Plain;
    if images == [] {
    } else {
      PlainImages(images[..|images| - 1], parents, description);
      PlainScoped(images[|images| - 1], parents, description);
    }
  }

  lemma PlainSelection(selection: Selection, description: string, p: Process)
    requires Fragment(selection)
    ensures PlainRules(Translated(selection, description))
  {
    hide Patterns, Plain, ImageRules, HasUnsupportedFields, Present;
    FragmentFields(selection);
    ImagePatterns(selection, p);
    PlainImages(Patterns(selection, IMAGE), Patterns(selection, PARENT), description);
    assert FileRules([], description) == [];
  }

  lemma {:induction false} PlainEach(blocks: seq<Block>, description: string, p: Process)
    requires forall b :: b in blocks ==> GoodBlock(b)
    ensures PlainRules(EachTranslated(blocks, description))
    decreases |blocks|
  {
    hide Translated, Plain, Fragment, HasImage;
    if blocks == [] {
    } else {
      var init, last := blocks[..|blocks| - 1], blocks[|blocks| - 1];
      assert blocks == init + [last];
      assert last in blocks;
      PlainEach(init, description, p);
      PlainSelection(last.entries, description, p);
    }
  }

  lemma PlainCompiled(c: Condition, blocks: seq<Named>, description: string, p: Process)
    requires InFragment(c, blocks)
    ensures PlainRules(Translate(c, blocks, description).Rules())
  {
    hide Translated, Plain, Fragment, HasImage, EachTranslated, Covered, Called, Find, Merged, SomeUnsupported, MergeKept;
    match c
    case Simple(name) =>
      if Find(blocks, name).Some? { PlainSelection(Find(blocks, name).value.entries, description, p); }
    case AndNot(name) =>
      if Find(blocks, name).Some? { PlainSelection(Find(blocks, name).value.entries, description, p); }
    case OneOf(target) => PlainEach(Covered(blocks, target), description, p);
    case AllOf(target) =>
      if Covered(blocks, target) != [] { PlainSelection(Merged(Covered(blocks, target)), description, p); }
    case Or(names) => PlainEach(Called(blocks, names), description, p);
    case And(names) =>
      if AllFound(blocks, names) { PlainSelection(Merged(Called(blocks, names)), description, p); }
  }

  // ---- the compiler as a whole ----

  /** Whether the main loop translates the rule: it passes the filters and has a condition. */
  predicate Selected(s: SigmaRule, w: Wanted) { FilterRule(s, w) && s.condition != "" }

  predicate Inside(s: SigmaRule) { InFragment(ParseCondition(s.condition), s.blocks) }

  /** Whatever the main loop selects is in the fragment or skipped. */
  predicate Understood(sources: seq<SigmaRule>, w: Wanted) {
    forall s :: s in sources && Selected(s, w) ==> Inside(s) || TranslateSource(s).Rules() == []
  }

  /** The source's condition, read without what an `and not` takes away. */
  predicate SourceHolds(s: SigmaRule, p: Process) { Holds(Positive(ParseCondition(s.condition)), s.blocks, false, p) }

  /** Whether some selected source inside the fragment holds. */
  predicate SomeHolds(sources: seq<SigmaRule>, w: Wanted, p: Process) {
    exists s :: s in sources && Selected(s, w) && Inside(s) && SourceHolds(s, p)
  }

  lemma SourceFires(s: SigmaRule, p: Process)
    requires s.condition != "" && Inside(s)
    ensures Fires(TranslateSource(s).Rules(), p) <==> SourceHolds(s, RootedProcess(p))
    ensures PlainRules(TranslateSource(s).Rules())
  {
    hide Translate, Holds, InFragment, Fires, Plain, ParseCondition;
    var c := ParseCondition(s.condition);
    CompiledMeansSigma(c, s.blocks, false, s.description, p);
    PlainCompiled(c, s.blocks, s.description, p);
  }

  lemma {:induction false} AllFire(sources: seq<SigmaRule>, w: Wanted, p: Process)
    requires Understood(sources, w)
    ensures Fires(AllTranslated(sources, w), p) <==> SomeHolds(sources, w, RootedProcess(p))
    ensures PlainRules(AllTranslated(sources, w))
    decreases |sources|
  {
    hide TranslateSource, SourceHolds, Inside, Fires, Plain, FilterRule, ParseCondition;
    if sources == [] {
      NothingFires(p);
    } else {
      var init, last := sources[..|sources| - 1], sources[|sources| - 1];
      assert sources == init + [last];
      assert last in sources;
      AllFire(init, w, p);
      NothingFires(p);
      NoCondition(last);
      var more := if FilterRule(last, w) then TranslateSource(last).Rules() else [];
      if Selected(last, w) && Inside(last) { SourceFires(last, p); }
      FiresJoins(AllTranslated(init, w), more, p);
    }
  }

  lemma NoCondition(s: SigmaRule)
    ensures s.condition == "" ==> TranslateSource(s).Rules() == []
  {
  }

  /**
   * What the compiler ships: a rule fires only where the condition of some selected source holds, its `and not` left out,
   * and away from the danger binaries it fires wherever one does.
   */
  lemma ShippedRulesExact(sources: seq<SigmaRule>, w: Wanted, p: Process)
    requires Understood(sources, w)
    ensures var shipped := Safe(Deduped(AllTranslated(sources, w)));
      && (Fires(shipped, p) ==> SomeHolds(sources, w, RootedProcess(p)))
      && (SomeHolds(sources, w, RootedProcess(p)) && !Dangerous(p) ==> Fires(shipped, p))
  {
    hide AllTranslated, Deduped, Safe, SomeHolds, Matches, Plain, Shielded, Dangerous;
    var all := AllTranslated(sources, w);
    var unique := Deduped(all);
    var shipped := Safe(unique);
    AllFire(sources, w, p);
    DedupKeepsMeaning(all, p);
    DedupedMembers(all);
    ShieldExact(unique);
    if Fires(shipped, p) {
      var i :| 0 <= i < |shipped| && Matches(shipped[i], p);
      assert shipped[i] in unique;
    }
    if Fires(unique, p) && !Dangerous(p) {
      var i :| 0 <= i < |unique| && Matches(unique[i], p);
      assert unique[i] in unique && unique[i] in all;
      OnlyDangerIsShielded(unique[i], p);
      assert unique[i] in shipped;
    }
  }

  lemma OnlyDangerIsShielded(r: Rule, p: Process)
    requires Plain(r.pattern) && Matches(r, p) && !Dangerous(p)
    ensures !Shielded(r)
  {
    PlainName(r.pattern, Basename(Own(p)));
  }
}

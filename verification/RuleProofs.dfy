/** The compiled rules fire exactly when the Sigma detection holds. */
module RuleProofs {
  import opened ChainFilter
  import opened RuleCompiler
  import opened RuleMeaning
  import opened Text

  // ---- when rules fire ----

  predicate AnyName(patterns: seq<string>, name: string) {
    exists i :: 0 <= i < |patterns| && NameMatches(patterns[i], name)
  }

  predicate AllPlain(patterns: seq<string>) { forall i :: 0 <= i < |patterns| ==> Plain(patterns[i]) }

  lemma FiresJoins(a: seq<Rule>, b: seq<Rule>, p: Process)
    ensures Fires(a + b, p) <==> Fires(a, p) || Fires(b, p)
  {
    hide Matches;
    var c := a + b;
    if Fires(a, p) {
      var i :| 0 <= i < |a| && Matches(a[i], p);
      assert c[i] == a[i];
    }
    if Fires(b, p) {
      var i :| 0 <= i < |b| && Matches(b[i], p);
      assert c[|a| + i] == b[i];
    }
    if Fires(c, p) {
      var i :| 0 <= i < |c| && Matches(c[i], p);
      if i < |a| { assert a[i] == c[i]; } else { assert b[i - |a|] == c[i]; }
    }
  }

  lemma OneFires(r: Rule, p: Process)
    ensures Fires([r], p) <==> Matches(r, p)
  {
    assert [r][0] == r;
  }

  lemma AnyNameJoins(init: seq<string>, last: string, name: string)
    ensures AnyName(init + [last], name) <==> AnyName(init, name) || NameMatches(last, name)
  {
    hide NameMatches;
    var all := init + [last];
    assert all[|init|] == last;
    if AnyName(init, name) {
      var i :| 0 <= i < |init| && NameMatches(init[i], name);
      assert all[i] == init[i];
    }
    if AnyName(all, name) && !NameMatches(last, name) {
      var i :| 0 <= i < |all| && NameMatches(all[i], name);
      assert all[i] == init[i];
    }
  }

  /** Whether the parent's base name is among the patterns. */
  predicate ParentNamed(parents: seq<string>, p: Process) { |p| >= 2 && AnyName(parents, Basename(Parent(p))) }

  lemma NoStars(pattern: string)
    requires Plain(pattern)
    ensures pattern !in {"*", "**"}
  {
    assert "**"[0] == '*' && "*"[0] == '*';
  }

  function ScopedRule(image: string, parent: string, description: string): Rule {
    Rule(ProcessName, image, BuildChainFilter(parent, image), description)
  }

  /** A filter that reads back as written looks at the process and its parent. */
  lemma ScopedMatches(image: string, parent: string, description: string, p: Process)
    requires Plain(image) && Plain(parent) && Clear(image) && Clear(parent)
    ensures Matches(ScopedRule(image, parent, description), p)
       <==> NameMatches(image, Basename(Own(p))) && |p| >= 2
            && StepMatches(p[|p| - 2], parent) && StepMatches(p[|p| - 1], image)
  {
    hide NameMatches, ChainMatches, Basename, Plain, StepMatches, Steps, Clear;
    NoStars(parent);
    NoStars(image);
    FilterReadsBack(parent, image);
    FilterFromRoot(BuildChainFilter(parent, image), p);
    LastTwoSteps(parent, image, p);
    assert BuildChainFilter(parent, image)[0] == '*';
  }

  predicate AnyScoped(image: string, parents: seq<string>, description: string, p: Process) {
    exists j :: 0 <= j < |parents| && Matches(ScopedRule(image, parents[j], description), p)
  }

  predicate AnyPair(images: seq<string>, parents: seq<string>, description: string, p: Process) {
    exists i :: 0 <= i < |images| && AnyScoped(images[i], parents, description, p)
  }

  lemma {:induction false} ScopedFire(image: string, parents: seq<string>, description: string, p: Process)
    ensures Fires(ScopedRules(image, parents, description), p) <==> AnyScoped(image, parents, description, p)
    decreases |parents|
  {
    hide Matches, Fires;
    if parents == [] {
      NothingFires(p);
    } else {
      var init, parent := parents[..|parents| - 1], parents[|parents| - 1];
      var last := ScopedRule(image, parent, description);
      ScopedFire(image, init, description, p);
      FiresJoins(ScopedRules(image, init, description), [last], p);
      OneFires(last, p);
      ScopedJoins(image, init, parent, description, p);
      assert parents == init + [parent];
    }
  }

  lemma ScopedJoins(image: string, init: seq<string>, parent: string, description: string, p: Process)
    ensures AnyScoped(image, init + [parent], description, p)
       <==> AnyScoped(image, init, description, p) || Matches(ScopedRule(image, parent, description), p)
  {
    hide Matches;
    var all := init + [parent];
    assert all[|init|] == parent;
    if j :| 0 <= j < |init| && Matches(ScopedRule(image, init[j], description), p) { assert all[j] == init[j]; }
    if j :| 0 <= j < |all| && Matches(ScopedRule(image, all[j], description), p) { assert j < |init| ==> all[j] == init[j]; }
  }

  lemma PairJoins(init: seq<string>, image: string, parents: seq<string>, description: string, p: Process)
    ensures AnyPair(init + [image], parents, description, p)
       <==> AnyPair(init, parents, description, p) || AnyScoped(image, parents, description, p)
  {
    hide AnyScoped;
    var all := init + [image];
    assert all[|init|] == image;
    if i :| 0 <= i < |init| && AnyScoped(init[i], parents, description, p) { assert all[i] == init[i]; }
    if i :| 0 <= i < |all| && AnyScoped(all[i], parents, description, p) { assert i < |init| ==> all[i] == init[i]; }
  }

  lemma NothingFires(p: Process)
    ensures !Fires([], p)
  {
  }

  lemma NoName(name: string)
    ensures !AnyName([], name)
  {
  }

  lemma {:induction false} ImagesFire(images: seq<string>, parents: seq<string>, description: string, p: Process)
    ensures Fires(ImageRules(images, parents, description), p)
       <==> if parents == [] then AnyName(images, Basename(Own(p))) else AnyPair(images, parents, description, p)
    decreases |images|
  {
    hide NameMatches, Basename, Matches, Fires, AnyName, ScopedRules, AnyScoped;
    if images == [] {
      NothingFires(p);
      NoName(Basename(Own(p)));
    } else {
      var init, image := images[..|images| - 1], images[|images| - 1];
      ImagesFire(init, parents, description, p);
      assert images == init + [image];
      if parents == [] {
        var last := Rule(ProcessName, image, "", description);
        AnyNameJoins(init, image, Basename(Own(p)));
        FiresJoins(ImageRules(init, parents, description), [last], p);
        OneFires(last, p);
        UnscopedMatches(last, p);
      } else {
        PairJoins(init, image, parents, description, p);
        ScopedFire(image, parents, description, p);
        FiresJoins(ImageRules(init, parents, description), ScopedRules(image, parents, description), p);
      }
    }
  }

  // ---- names that filters carry ----

  predicate HasLegible(images: seq<string>, name: string) {
    exists i :: 0 <= i < |images| && Legible(images[i]) && Lower(images[i]) == Lower(name)
  }

  /** Whether the scoped rules of these names read back: every parent is legible, every image has a legible spelling. */
  predicate Carries(images: seq<string>, parents: seq<string>) {
    images != [] && parents != [] ==>
      && (forall j :: 0 <= j < |parents| ==> Legible(parents[j]))
      && (forall i :: 0 <= i < |images| ==> HasLegible(images, images[i]))
  }

  lemma LegibleClear(images: seq<string>, name: string)
    requires HasLegible(images, name)
    ensures Clear(name)
  {
    hide Clear, Lower;
    var i :| 0 <= i < |images| && Legible(images[i]) && Lower(images[i]) == Lower(name);
    ClearIgnoresCase(images[i], name);
  }

  lemma SameNameMatches(a: string, b: string, name: string)
    requires Lower(a) == Lower(b)
    ensures NameMatches(a, name) == NameMatches(b, name)
  {
  }

  /** Scoped rules of names that filters carry fire on the named processes below the named parents. */
  lemma PairsFire(images: seq<string>, parents: seq<string>, description: string, p: Process)
    requires AllPlain(images) && AllPlain(parents) && Carries(images, parents) && images != [] && parents != []
    ensures AnyPair(images, parents, description, p) <==> AnyName(images, Basename(Own(p))) && ParentNamed(parents, p)
  {
    hide NameMatches, Basename, Matches, Clear, Plain, Prefixed, Lower;
    if AnyPair(images, parents, description, p) {
      var i :| 0 <= i < |images| && AnyScoped(images[i], parents, description, p);
      var j :| 0 <= j < |parents| && Matches(ScopedRule(images[i], parents[j], description), p);
      LegibleClear(images, images[i]);
      ScopedMatches(images[i], parents[j], description, p);
    }
    if AnyName(images, Basename(Own(p))) && ParentNamed(parents, p) {
      var i :| 0 <= i < |images| && NameMatches(images[i], Basename(Own(p)));
      var j :| 0 <= j < |parents| && NameMatches(parents[j], Basename(Parent(p)));
      assert HasLegible(images, images[i]);
      var k :| 0 <= k < |images| && Legible(images[k]) && Lower(images[k]) == Lower(images[i]);
      SameNameMatches(images[k], images[i], Basename(Own(p)));
      ScopedMatches(images[k], parents[j], description, p);
      assert AnyScoped(images[k], parents, description, p);
    }
  }

  lemma UnscopedMatches(r: Rule, p: Process)
    requires r.kind.ProcessName? && r.chain == ""
    ensures Matches(r, p) <==> NameMatches(r.pattern, Basename(Own(p)))
  {
  }

  // ---- the fragment ----

  predicate FragmentEntry(e: Entry) {
    (ImageKey(e.key) || ParentKey(e.key)) && forall i :: 0 <= i < |e.values| ==> NameValue(e.values[i])
  }

  /** At most one `Image|endswith` and at most one `ParentImage|endswith`, with values "/" plus a plain name. */
  predicate InFields(selection: Selection) {
    && (forall i :: 0 <= i < |selection| ==> FragmentEntry(selection[i]))
    && (forall i, j :: 0 <= i < j < |selection| ==> !(ImageKey(selection[i].key) && ImageKey(selection[j].key)))
    && (forall i, j :: 0 <= i < j < |selection| ==> !(ParentKey(selection[i].key) && ParentKey(selection[j].key)))
  }

  function Bases(values: seq<string>): (r: seq<string>)
    ensures |r| == |values| && forall i :: 0 <= i < |values| ==> r[i] == Basename(values[i])
  {
    seq(|values|, i requires 0 <= i < |values| => Basename(values[i]))
  }

  /** The names of a selection on both fields fit into chain filters. */
  predicate Carried(selection: Selection) {
    forall i, j :: 0 <= i < |selection| && 0 <= j < |selection| && ImageKey(selection[i].key) && ParentKey(selection[j].key) ==>
      Carries(Bases(selection[i].values), Bases(selection[j].values))
  }

  predicate Fragment(selection: Selection) { InFields(selection) && Carried(selection) }

  predicate HasImage(selection: Selection) { exists i :: 0 <= i < |selection| && ImageKey(selection[i].key) }

  lemma FragmentKey(key: Key)
    requires ImageKey(key) || ParentKey(key)
    ensures !IsCondition(key) && Modifier(key) == "endswith" && !Unsupported(key)
    ensures Field(key) == if ImageKey(key) then IMAGE else PARENT
    ensures ImageKey(key) != ParentKey(key)
  {
    assert key[1..][0] == key[1];
    assert IMAGE[0] != PARENT[0];
    assert |"endswith"| != |"re"|;
  }

  lemma FieldsDiffer()
    ensures IMAGE != PARENT && IMAGE != FILE && PARENT != FILE
  {
    assert |IMAGE| == 5 && |PARENT| == 11 && |FILE| == 14;
  }

  lemma {:induction false} NoPatterns(selection: Selection, field: string)
    requires !Present(selection, field)
    ensures Patterns(selection, field) == []
  {
    if selection == [] {
    } else {
      var init := selection[..|selection| - 1];
      assert !Mentions(selection[|selection| - 1], field);
      assert forall i :: 0 <= i < |init| ==> init[i] == selection[i];
      NoPatterns(init, field);
    }
  }

  /** Where one entry alone mentions a field, the field's patterns are that entry's. */
  lemma {:induction false} OnlyPatterns(selection: Selection, field: string, k: nat)
    requires k < |selection| && Mentions(selection[k], field)
    requires forall i :: 0 <= i < |selection| && i != k ==> !Mentions(selection[i], field)
    ensures Patterns(selection, field) == ValuePatterns(selection[k].values, Modifier(selection[k].key), field != FILE)
    decreases |selection|
  {
    hide ValuePatterns, Modifier, Mentions;
    var init := selection[..|selection| - 1];
    assert forall i :: 0 <= i < |init| ==> init[i] == selection[i];
    if k == |selection| - 1 {
      NoPatterns(init, field);
    } else {
      OnlyPatterns(init, field, k);
    }
  }

  lemma {:induction false} PatternsAreBases(values: seq<string>)
    requires forall i :: 0 <= i < |values| ==> NameValue(values[i])
    ensures ValuePatterns(values, "endswith", true) == Bases(values)
    decreases |values|
  {
    hide Basename;
    if values == [] {
    } else {
      var init, v := values[..|values| - 1], values[|values| - 1];
      PatternsAreBases(init);
      NameOfValue(v);
      assert Bases(values) == Bases(init) + [Basename(v)];
    }
  }

  lemma {:induction false} EndPatterns(values: seq<string>, path: string)
    requires forall i :: 0 <= i < |values| ==> NameValue(values[i])
    ensures AllPlain(ValuePatterns(values, "endswith", true))
    ensures SomeValueEnds(Rooted(path), values) <==> AnyName(ValuePatterns(values, "endswith", true), Basename(path))
    decreases |values|
  {
    hide Basename, Rooted, EndsWith, NameMatches, Lower;
    if values == [] {
    } else {
      var init, v := values[..|values| - 1], values[|values| - 1];
      var patterns := ValuePatterns(init, "endswith", true);
      EndPatterns(init, path);
      EndIsBasename(path, v);
      PlainName(Basename(v), Basename(path));
      assert ValuePatterns(values, "endswith", true) == patterns + [Basename(v)];
      AnyNameJoins(patterns, Basename(v), Basename(path));
      ValueJoins(init, v, Rooted(path));
      assert values == init + [v];
    }
  }

  lemma ValueJoins(init: seq<string>, last: string, path: string)
    ensures SomeValueEnds(path, init + [last]) <==> SomeValueEnds(path, init) || EndsWith(Lower(path), Lower(last))
  {
    hide EndsWith, Lower;
    var all := init + [last];
    assert all[|init|] == last;
    if SomeValueEnds(path, init) {
      var i :| 0 <= i < |init| && EndsWith(Lower(path), Lower(init[i]));
      assert all[i] == init[i];
    }
    if SomeValueEnds(path, all) && !EndsWith(Lower(path), Lower(last)) {
      var i :| 0 <= i < |all| && EndsWith(Lower(path), Lower(all[i]));
      assert all[i] == init[i];
    }
  }

  lemma Mentioned(e: Entry)
    requires FragmentEntry(e)
    ensures Mentions(e, IMAGE) == ImageKey(e.key) && Mentions(e, PARENT) == ParentKey(e.key) && !Mentions(e, FILE)
  {
    FragmentKey(e.key);
    FieldsDiffer();
  }

  lemma FragmentFields(selection: Selection)
    requires InFields(selection)
    ensures !HasUnsupportedFields(selection) && !Present(selection, FILE) && Patterns(selection, FILE) == []
    ensures Present(selection, IMAGE) == HasImage(selection)
    ensures forall i :: 0 <= i < |selection| ==>
              Mentions(selection[i], IMAGE) == ImageKey(selection[i].key) != ParentKey(selection[i].key)
              == Mentions(selection[i], PARENT)
  {
    hide Mentions, ImageKey, ParentKey, Unsupported;
    forall i | 0 <= i < |selection|
      ensures !Unsupported(selection[i].key) && !Mentions(selection[i], FILE)
      ensures Mentions(selection[i], IMAGE) == ImageKey(selection[i].key)
      ensures Mentions(selection[i], PARENT) == ParentKey(selection[i].key) != ImageKey(selection[i].key)
    {
      FragmentKey(selection[i].key);
      Mentioned(selection[i]);
    }
    NoPatterns(selection, FILE);
  }

  lemma EntryOfRooted(e: Entry, p: Process)
    requires FragmentEntry(e)
    ensures EntryHolds(e, RootedProcess(p))
       <==> if ImageKey(e.key) then SomeValueEnds(Rooted(Own(p)), e.values)
            else |p| >= 2 && SomeValueEnds(Rooted(Parent(p)), e.values)
  {
    hide SomeValueEnds, Rooted, ImageKey, ParentKey;
    FragmentKey(e.key);
  }

  /** What the only entry on a field means, in terms of the patterns it compiles to. */
  lemma EntryExact(selection: Selection, k: nat, p: Process)
    requires InFields(selection) && k < |selection|
    ensures var e := selection[k];
      var patterns := Patterns(selection, if ImageKey(e.key) then IMAGE else PARENT);
      && AllPlain(patterns) && patterns == Bases(e.values)
      && (EntryHolds(e, RootedProcess(p))
          <==> if ImageKey(e.key) then AnyName(patterns, Basename(Own(p))) else ParentNamed(patterns, p))
  {
    hide Patterns, ValuePatterns, Mentions, Modifier, Field, ImageKey, ParentKey, SomeValueEnds, AnyName, Basename, Rooted,
      EntryHolds;
    var e := selection[k];
    EntryOfRooted(e, p);
    FragmentFields(selection);
    FragmentKey(e.key);
    FieldsDiffer();
    OnlyPatterns(selection, if ImageKey(e.key) then IMAGE else PARENT, k);
    PatternsAreBases(e.values);
    EndPatterns(e.values, if ImageKey(e.key) then Own(p) else if |p| >= 2 then Parent(p) else "");
  }

  lemma ImageAndParentDecide(selection: Selection, k: nat, p: Process)
    requires InFields(selection) && k < |selection| && ImageKey(selection[k].key)
    ensures SelectionHolds(selection, p)
       <==> EntryHolds(selection[k], p)
            && forall m :: 0 <= m < |selection| && ParentKey(selection[m].key) ==> EntryHolds(selection[m], p)
  {
    hide EntryHolds, ImageKey, ParentKey;
    assert forall i :: 0 <= i < |selection| && i != k ==> FragmentEntry(selection[i]) && ParentKey(selection[i].key);
  }

  lemma NoPair(parents: seq<string>, description: string, p: Process)
    ensures !AnyPair([], parents, description, p)
  {
  }

  lemma CarriedPatterns(selection: Selection)
    requires InFields(selection)
    ensures Carried(selection) ==> Carries(Patterns(selection, IMAGE), Patterns(selection, PARENT))
    ensures Carries(Patterns(selection, IMAGE), Patterns(selection, PARENT)) ==> Carried(selection)
  {
    hide Patterns, ImageKey, ParentKey, Carries;
    var p: Process := [ChainEntry("", {})];
    FragmentFields(selection);
    NothingCarried(Patterns(selection, IMAGE), Patterns(selection, PARENT));
    if Carried(selection) {
      if i, j :| 0 <= i < |selection| && 0 <= j < |selection| && ImageKey(selection[i].key) && ParentKey(selection[j].key) {
        EntryExact(selection, i, p);
        EntryExact(selection, j, p);
      } else if forall i :: 0 <= i < |selection| ==> !ImageKey(selection[i].key) {
        NoPatterns(selection, IMAGE);
      } else {
        NoPatterns(selection, PARENT);
      }
    }
    if Carries(Patterns(selection, IMAGE), Patterns(selection, PARENT)) {
      forall i, j | 0 <= i < |selection| && 0 <= j < |selection| && ImageKey(selection[i].key) && ParentKey(selection[j].key)
        ensures Carries(Bases(selection[i].values), Bases(selection[j].values)) {
        EntryExact(selection, i, p);
        EntryExact(selection, j, p);
      }
    }
  }

  lemma NothingCarried(images: seq<string>, parents: seq<string>)
    ensures Carries([], parents) && Carries(images, [])
  {
  }

  lemma TranslatedFragment(selection: Selection, description: string, p: Process)
    requires InFields(selection)
    requires AllPlain(Patterns(selection, IMAGE)) && AllPlain(Patterns(selection, PARENT))
    requires Carries(Patterns(selection, IMAGE), Patterns(selection, PARENT))
    ensures var images, parents := Patterns(selection, IMAGE), Patterns(selection, PARENT);
      Fires(Translated(selection, description), p)
      <==> && AnyName(images, Basename(Own(p))) && (Present(selection, PARENT) ==> parents != [])
           && (parents != [] ==> ParentNamed(parents, p))
  {
    hide Patterns, Present, HasUnsupportedFields, Basename, NameMatches, Fires, ParentNamed, ImageRules, Carries, AnyPair;
    var images, parents := Patterns(selection, IMAGE), Patterns(selection, PARENT);
    FragmentFields(selection);
    assert FileRules([], description) == [];
    assert ImageRules(images, parents, description) + [] == ImageRules(images, parents, description);
    ImagesFire(images, parents, description, p);
    NothingFires(p);
    if images == [] {
      NoName(Basename(Own(p)));
      NoPair(parents, description, p);
    } else if parents != [] {
      PairsFire(images, parents, description, p);
    }
  }

  /**
   * The rules of a selection in the fragment fire on a process exactly when the selection names an image and holds of
   * the process, a path without a slash being read as standing in the root.
   */
  lemma SelectionExact(selection: Selection, description: string, p: Process)
    requires Fragment(selection)
    ensures Fires(Translated(selection, description), p)
       <==> HasImage(selection) && SelectionHolds(selection, RootedProcess(p))
  {
    hide Translated, Patterns, EntryHolds, SelectionHolds, ImageKey, ParentKey, Mentions, Fires, Basename, NameMatches;
    var images, parents := Patterns(selection, IMAGE), Patterns(selection, PARENT);
    FragmentFields(selection);
    ImagePatterns(selection, p);
    ParentPatterns(selection, p);
    CarriedPatterns(selection);
    TranslatedFragment(selection, description, p);
    if HasImage(selection) {
      var k :| 0 <= k < |selection| && ImageKey(selection[k].key);
      ImageAndParentDecide(selection, k, RootedProcess(p));
      EntryExact(selection, k, p);
    }
  }

  lemma ImagePatterns(selection: Selection, p: Process)
    requires InFields(selection)
    ensures AllPlain(Patterns(selection, IMAGE)) && (!HasImage(selection) ==> Patterns(selection, IMAGE) == [])
  {
    hide Patterns, EntryHolds, ImageKey, ParentKey, Mentions;
    FragmentFields(selection);
    if HasImage(selection) {
      var k :| 0 <= k < |selection| && ImageKey(selection[k].key);
      EntryExact(selection, k, p);
    } else {
      NoPatterns(selection, IMAGE);
    }
  }

  lemma ParentPatterns(selection: Selection, p: Process)
    requires InFields(selection)
    ensures var parents := Patterns(selection, PARENT);
      && AllPlain(parents) && (!Present(selection, PARENT) ==> parents == [])
      && (forall m :: 0 <= m < |selection| && ParentKey(selection[m].key) ==>
            Present(selection, PARENT) && (EntryHolds(selection[m], RootedProcess(p)) <==> ParentNamed(parents, p)))
      && (Present(selection, PARENT) ==> exists m :: 0 <= m < |selection| && ParentKey(selection[m].key))
      && !(parents == [] && ParentNamed(parents, p))
  {
    hide Patterns, EntryHolds, ImageKey, ParentKey, Mentions;
    FragmentFields(selection);
    if Present(selection, PARENT) {
      var k :| 0 <= k < |selection| && Mentions(selection[k], PARENT);
      EntryExact(selection, k, p);
      forall m | 0 <= m < |selection| && ParentKey(selection[m].key)
        ensures EntryHolds(selection[m], RootedProcess(p)) <==> ParentNamed(Patterns(selection, PARENT), p)
      {
        EntryExact(selection, m, p);
      }
    } else {
      NoPatterns(selection, PARENT);
    }
  }
}

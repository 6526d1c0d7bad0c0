/** Which names the compiler can carry through the text of a chain filter. */
module RuleNames {
  import opened ChainFilter
  import opened RuleCompiler
  import opened RuleMeaning
  import opened RuleProofs
  import opened Text

  // ---- a process that no prefixed step matches ----

  lemma {:induction false} SplitWithin(text: string)
    ensures forall k, c :: 0 <= k < |Split(text)| && c in Split(text)[k] ==> c in text
    decreases |text|
  {
    if text == "" {
    } else {
      SplitWithin(text[1..]);
      assert text == [text[0]] + text[1..];
    }
  }

  lemma StripWithin(s: string)
    ensures forall c :: c in Strip(s) ==> c in s
  {
    hide TrimLeft, TrimRight;
    var left := TrimLeft(s);
    TrimLeftEnds(s);
    TrimRightEnds(left);
    PartOf(Strip(s), s, |s| - |left|);
  }

  /** Behind its leading `**` a filter of plain names has no stars. */
  lemma NoMoreStars(image: string, parent: string, i: nat)
    requires Plain(image) && Plain(parent) && 1 <= i < |Steps(BuildChainFilter(parent, image))|
    ensures Plain(Steps(BuildChainFilter(parent, image))[i])
  {
    hide BuildChainFilter, Split, Strip;
    var p, c := " " + parent + " ", " " + image;
    FilterSplits(parent, image);
    SplitWithin(p);
    SplitWithin(c);
    var parts := Split(BuildChainFilter(parent, image));
    StripWithin(parts[i]);
    PlainPadded(parent);
    PlainPadded(image);
    var part := parts[i];
    assert part in Split(p) || part in Split(c);
    forall k | 0 <= k < |Strip(part)| ensures Strip(part)[k] !in ['*', '?', '['] {
      assert Strip(part)[k] in Strip(part);
      assert Strip(part)[k] in p || Strip(part)[k] in c;
    }
  }

  lemma PlainPadded(name: string)
    requires Plain(name)
    ensures forall c :: c in " " + name || c in " " + name + " " ==> c !in ['*', '?', '[']
  {
  }

  /** What a scoped rule must be like to fire on two processes of which only the paths matter. */
  lemma PairLegible(image: string, parent: string, description: string, v: string, c: string)
    requires Plain(image) && Plain(parent) && Matches(ScopedRule(image, parent, description), Plainly([v, c]))
    ensures Legible(image) && Lower(image) == Lower(Basename(c))
    ensures '>' !in parent && Lower(Strip(parent)) == Lower(Basename(v))
  {
    hide Basename, Lower, Strip, Steps, BuildChainFilter, Plain, NameMatches, Clear, Prefixed, ChainMatches;
    var p: Process := Plainly([v, c]);
    var filter := BuildChainFilter(parent, image);
    var steps := Steps(filter);
    PlainName(image, Basename(c));
    ThreeSteps(parent, image);
    NonEmptyFilter(parent, image);
    FilterFromRoot(filter, p);
    forall i | 1 <= i < |steps| ensures Plain(steps[i]) && steps[i] !in {"*", "**"} {
      NoMoreStars(image, parent, i);
      NoStars(steps[i]);
    }
    StepsNeedEntries(steps, p);
    assert steps[1] == Strip(parent) && steps[2] == Strip(image);
    LastTwoSteps(Strip(parent), Strip(image), p);
    PlainName(Strip(parent), Basename(v));
    PlainName(Strip(image), Basename(c));
    StripEnds(image);
    assert |Lower(Strip(image))| == |Lower(image)|;
    ClearStripped(image);
  }

  lemma NonEmptyFilter(parent: string, child: string)
    ensures BuildChainFilter(parent, child) != ""
  {
    assert BuildChainFilter(parent, child)[0] == '*';
  }

  lemma ClearStripped(name: string)
    requires '>' !in name && Strip(name) == name
    ensures Clear(name)
  {
    StripEnds(name);
  }

  // ---- when a selection keeps its meaning ----

  lemma OnlyEntry(selection: Selection, e: Entry, g: Entry)
    requires InFields(selection) && e in selection && g in selection
    ensures FragmentEntry(g)
    ensures (ImageKey(e.key) && ImageKey(g.key)) || (ParentKey(e.key) && ParentKey(g.key)) ==> e == g
  {
    hide FragmentEntry;
    var i :| 0 <= i < |selection| && selection[i] == e;
    var j :| 0 <= j < |selection| && selection[j] == g;
  }

  lemma ValueEndsItself(v: string, values: seq<string>)
    requires v in values
    ensures SomeValueEnds(v, values)
  {
    var i :| 0 <= i < |values| && values[i] == v;
    assert EndsWith(Lower(v), Lower(values[i]));
  }

  /** A selection holds of a process named by a value of its image entry below one named by a value of its parent entry. */
  lemma PairHolds(selection: Selection, e: Entry, f: Entry, c: string, v: string)
    requires InFields(selection) && e in selection && f in selection && ImageKey(e.key) && ParentKey(f.key)
    requires c in e.values && v in f.values
    ensures SelectionHolds(selection, Plainly([v, c])) && RootedProcess(Plainly([v, c])) == Plainly([v, c])
  {
    hide SomeValueEnds, ImageKey, ParentKey;
    var p: Process := Plainly([v, c]);
    forall i | 0 <= i < |selection| ensures EntryHolds(selection[i], p) {
      var g := selection[i];
      OnlyEntry(selection, e, g);
      OnlyEntry(selection, f, g);
      FragmentKey(g.key);
      ValueEndsItself(c, e.values);
      ValueEndsItself(v, f.values);
    }
    OnlyEntry(selection, e, e);
    OnlyEntry(selection, f, f);
    SlashIn(e, c);
    SlashIn(f, v);
  }

  lemma SlashIn(e: Entry, v: string)
    requires FragmentEntry(e) && v in e.values
    ensures '/' in v
  {
    assert v[0] == '/';
  }

  lemma TranslatedScoped(selection: Selection, description: string)
    requires InFields(selection) && Patterns(selection, IMAGE) != [] && Patterns(selection, PARENT) != []
    ensures Translated(selection, description)
         == ImageRules(Patterns(selection, IMAGE), Patterns(selection, PARENT), description)
  {
    hide Patterns, Present, HasUnsupportedFields, ImageRules, InFields;
    FragmentFields(selection);
    assert FileRules([], description) == [];
  }

  lemma PatternsAt(selection: Selection, i: nat)
    requires InFields(selection) && i < |selection|
    ensures Patterns(selection, if ImageKey(selection[i].key) then IMAGE else PARENT) == Bases(selection[i].values)
    ensures AllPlain(Bases(selection[i].values))
  {
    hide Patterns, InFields, AllPlain, EntryHolds, AnyName;
    var p: Process := [ChainEntry("", {})];
    EntryExact(selection, i, p);
  }

  lemma TranslatedPairs(selection: Selection, i: nat, j: nat, description: string, p: Process)
    requires InFields(selection) && i < |selection| && j < |selection|
    requires ImageKey(selection[i].key) && ParentKey(selection[j].key)
    requires selection[i].values != [] && selection[j].values != []
    ensures var images, parents := Bases(selection[i].values), Bases(selection[j].values);
      && AllPlain(images) && AllPlain(parents)
      && (Fires(Translated(selection, description), p) <==> AnyPair(images, parents, description, p))
  {
    hide Patterns, Translated, Fires, ImageRules, AnyPair, ImageKey, ParentKey, InFields, AllPlain;
    PatternsAt(selection, i);
    PatternsAt(selection, j);
    FragmentKey(selection[j].key);
    TranslatedScoped(selection, description);
    ImagesFire(Bases(selection[i].values), Bases(selection[j].values), description, p);
  }

  /** No scoped rule fires on two processes whose names the filters cannot carry. */
  lemma NoPairNames(images: seq<string>, parents: seq<string>, description: string, v: string, c: string)
    requires AllPlain(images) && AllPlain(parents) && (!HasLegible(images, Basename(c)) || !Clear(Basename(v)))
    ensures !AnyPair(images, parents, description, Plainly([v, c]))
  {
    hide Basename, Lower, Matches, Clear, Prefixed, Strip, AllPlain;
    forall m, n | 0 <= m < |images| && 0 <= n < |parents|
      ensures !Matches(ScopedRule(images[m], parents[n], description), Plainly([v, c])) {
      if Matches(ScopedRule(images[m], parents[n], description), Plainly([v, c])) {
        PlainAt(images, m);
        PlainAt(parents, n);
        PairLegible(images[m], parents[n], description, v, c);
        StripEnds(parents[n]);
        ClearIgnoresCase(Strip(parents[n]), Basename(v));
        assert false;
      }
    }
  }

  /** An image name without a legible spelling is missed below any parent. */
  lemma ImageMissed(selection: Selection, i: nat, j: nat, description: string, k: nat) returns (p: Process)
    requires InFields(selection) && i < |selection| && j < |selection|
    requires ImageKey(selection[i].key) && ParentKey(selection[j].key)
    requires k < |selection[i].values| && selection[j].values != []
    requires !HasLegible(Bases(selection[i].values), Bases(selection[i].values)[k])
    ensures SelectionHolds(selection, RootedProcess(p)) && !Fires(Translated(selection, description), p)
  {
    hide Basename, Fires, AnyPair, HasLegible, SelectionHolds, ImageKey, ParentKey, AllPlain, InFields, Translated;
    var e, f := selection[i], selection[j];
    var images, parents, c, v := Bases(e.values), Bases(f.values), e.values[k], f.values[0];
    p := Plainly([v, c]);
    PairHolds(selection, e, f, c, v);
    TranslatedPairs(selection, i, j, description, p);
    NoPairNames(images, parents, description, v, c);
  }

  lemma PlainAt(names: seq<string>, i: nat)
    requires AllPlain(names) && i < |names|
    ensures Plain(names[i])
  {
  }

  /** A parent name with a separator or outer blanks is missed above any image. */
  lemma ParentMissed(selection: Selection, i: nat, j: nat, description: string, k: nat) returns (p: Process)
    requires InFields(selection) && i < |selection| && j < |selection|
    requires ImageKey(selection[i].key) && ParentKey(selection[j].key)
    requires k < |selection[j].values| && selection[i].values != [] && !Clear(Bases(selection[j].values)[k])
    ensures SelectionHolds(selection, RootedProcess(p)) && !Fires(Translated(selection, description), p)
  {
    hide Basename, Fires, AnyPair, Clear, SelectionHolds, ImageKey, ParentKey, AllPlain, InFields, Translated;
    var e, f := selection[i], selection[j];
    var images, parents, c, v := Bases(e.values), Bases(f.values), e.values[0], f.values[k];
    p := Plainly([v, c]);
    PairHolds(selection, e, f, c, v);
    TranslatedPairs(selection, i, j, description, p);
    NoPairNames(images, parents, description, v, c);
  }

  /** A prefixed parent name is read as a test of something else, and fires below a parent that no value names. */
  lemma ParentMisread(selection: Selection, i: nat, j: nat, description: string, k: nat, m: nat) returns (p: Process)
    requires InFields(selection) && i < |selection| && j < |selection|
    requires ImageKey(selection[i].key) && ParentKey(selection[j].key)
    requires k < |selection[j].values| && m < |selection[i].values|
    requires Clear(Bases(selection[j].values)[k]) && Prefixed(Bases(selection[j].values)[k])
    requires Legible(Bases(selection[i].values)[m])
    ensures !SelectionHolds(selection, RootedProcess(p)) && Fires(Translated(selection, description), p)
  {
    hide Basename, Lower, Fires, Matches, Clear, Prefixed, SelectionHolds, ImageKey, ParentKey, AllPlain, InFields, NameMatches;
    var e, f := selection[i], selection[j];
    var images, parents := Bases(e.values), Bases(f.values);
    p := [ChainEntry("/", {parents[k]}), ChainEntry(e.values[m], {})];
    TranslatedPairs(selection, i, j, description, p);
    PlainAt(images, m);
    PlainAt(parents, k);
    PlainName(images[m], images[m]);
    ScopedMatches(images[m], parents[k], description, p);
    assert AnyScoped(images[m], parents, description, p);
    NotBelowRoot(selection, j, p);
  }

  lemma NotBelowRoot(selection: Selection, j: nat, p: Process)
    requires InFields(selection) && j < |selection| && ParentKey(selection[j].key) && |p| >= 2 && Parent(p) == "/"
    ensures !SelectionHolds(selection, RootedProcess(p))
  {
    assert "/"[0] == '/';
    assert Parent(RootedProcess(p)) == "/";
    assert !EntryHolds(selection[j], RootedProcess(p));
  }

  /**
   * The rules of a selection that names an image mean what it does exactly when filters can carry its names: with a parent
   * in play, each parent name and some spelling of each image name is free of separators, outer blanks and prefixes.
   */
  lemma SelectionKeptExact(selection: Selection, description: string)
    requires InFields(selection) && HasImage(selection)
    ensures (forall p: Process :: Fires(Translated(selection, description), p) <==> SelectionHolds(selection, RootedProcess(p)))
       <==> Carried(selection)
  {
    hide Fires, SelectionHolds, Translated, InFields, ImageKey, ParentKey, Legible, Lower;
    if Carried(selection) {
      forall p: Process ensures Fires(Translated(selection, description), p) <==> SelectionHolds(selection, RootedProcess(p)) {
        SelectionExact(selection, description, p);
      }
    } else {
      var i, j :| 0 <= i < |selection| && 0 <= j < |selection| && ImageKey(selection[i].key) && ParentKey(selection[j].key)
                  && !Carries(Bases(selection[i].values), Bases(selection[j].values));
      var p := NotKept(selection, i, j, description);
    }
  }

  lemma NotKept(selection: Selection, i: nat, j: nat, description: string) returns (p: Process)
    requires InFields(selection) && i < |selection| && j < |selection|
    requires ImageKey(selection[i].key) && ParentKey(selection[j].key)
    requires !Carries(Bases(selection[i].values), Bases(selection[j].values))
    ensures Fires(Translated(selection, description), p) != SelectionHolds(selection, RootedProcess(p))
  {
    hide Fires, SelectionHolds, Translated, InFields, ImageKey, ParentKey, Clear, Prefixed, Lower;
    var images, parents := Bases(selection[i].values), Bases(selection[j].values);
    if k :| 0 <= k < |images| && !HasLegible(images, images[k]) {
      p := ImageMissed(selection, i, j, description, k);
    } else {
      var k :| 0 <= k < |parents| && !Legible(parents[k]);
      if Clear(parents[k]) {
        assert HasLegible(images, images[0]);
        var m :| 0 <= m < |images| && Legible(images[m]) && Lower(images[m]) == Lower(images[0]);
        p := ParentMisread(selection, i, j, description, k, m);
      } else {
        p := ParentMissed(selection, i, j, description, k);
      }
    }
  }
}

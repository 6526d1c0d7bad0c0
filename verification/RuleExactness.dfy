/** When the compiler preserves a condition's meaning, for every condition it reads. */
module RuleExactness {
  import opened Options
  import opened RuleCompiler
  import opened RuleTranslator
  import opened RuleMeaning
  import opened RuleProofs
  import opened RuleConditions
  import opened RuleSamples
  import opened Text

  // ---- what is compiled ----

  /** A block that contributes rules: a mapping that names an image. Lists of mappings contribute none. */
  predicate Bears(b: Block) { b.One? && HasImage(b.entries) }

  function Bearing(blocks: seq<Block>): Form {
    if blocks == [] then []
    else
      var last := blocks[|blocks| - 1];
      Bearing(blocks[..|blocks| - 1]) + if Bears(last) then [last.entries] else []
  }

  function MergedForm(blocks: seq<Block>): Form { if HasImage(Merged(blocks)) then [Merged(blocks)] else [] }

  function Found(blocks: seq<Named>, name: string): seq<Block> {
    var b := Find(blocks, name);
    if b.Some? then [b.value] else []
  }

  function CompiledForm(c: Condition, blocks: seq<Named>): Form {
    match c
    case Simple(name) => Bearing(Found(blocks, name))
    case AndNot(name) => Bearing(Found(blocks, name))
    case OneOf(target) => Bearing(Covered(blocks, target))
    case Or(names) => Bearing(Called(blocks, names))
    case AllOf(target) => MergedForm(Covered(blocks, target))
    case And(names) => if AllFound(blocks, names) then MergedForm(Called(blocks, names)) else []
    case Complex(_) => []
  }

  // ---- what is meant ----

  function BlockForm(b: Block): Form { if b.One? then [b.entries] else b.alternatives }

  function Alternatives(blocks: seq<Block>): Form {
    if blocks == [] then []
    else
      var last := blocks[|blocks| - 1];
      Alternatives(blocks[..|blocks| - 1]) + BlockForm(last)
  }

  /** The blocks a target names in Sigma. */
  function Meant(blocks: seq<Named>, target: Target): seq<Block> {
    if blocks == [] then []
    else
      var last := blocks[|blocks| - 1];
      Meant(blocks[..|blocks| - 1], target) + if SigmaCovers(target, last.name) then [last.block] else []
  }

  function Extended(form: Form, c: Conjunction): Form {
    if form == [] then [] else Extended(form[..|form| - 1], c) + [form[|form| - 1] + c]
  }

  function Product(a: Form, b: Form): Form {
    if b == [] then [] else Product(a, b[..|b| - 1]) + Extended(a, b[|b| - 1])
  }

  function Conjoined(blocks: seq<Block>): Form {
    if blocks == [] then [[]] else Product(Conjoined(blocks[..|blocks| - 1]), BlockForm(blocks[|blocks| - 1]))
  }

  /** An `and not` is meant without its second half here; what that takes away is `Holds`'s business. */
  function MeantForm(c: Condition, blocks: seq<Named>): Form {
    match c
    case Simple(name) => Alternatives(Found(blocks, name))
    case AndNot(name) => Alternatives(Found(blocks, name))
    case OneOf(target) => Alternatives(Meant(blocks, target))
    case Or(names) => Alternatives(Called(blocks, names))
    case AllOf(target) => if Meant(blocks, target) == [] then [] else Conjoined(Meant(blocks, target))
    case And(names) => if AllFound(blocks, names) then Conjoined(Called(blocks, names)) else []
    case Complex(_) => []
  }

  // ---- the conditions in terms of which this can be said ----

  predicate ReadableBlock(b: Block) {
    match b
    case One(entries) => Fragment(entries)
    case Many(alternatives) => FormInTerms(alternatives)
  }

  predicate BlockInTerms(b: Block) { FormInTerms(BlockForm(b)) }

  predicate ReadableMerge(blocks: seq<Block>) { (forall b :: b in blocks ==> BlockInTerms(b)) && Fragment(Merged(blocks)) }

  /** Selections speak of `Image|endswith` and `ParentImage|endswith` only, with values "/" plus a plain name. */
  predicate InReach(c: Condition, blocks: seq<Named>) {
    match c
    case Simple(name) => forall b :: b in Found(blocks, name) ==> ReadableBlock(b)
    case AndNot(name) => forall b :: b in Found(blocks, name) ==> ReadableBlock(b)
    case OneOf(target) => forall b :: b in Covered(blocks, target) ==> ReadableBlock(b)
    case Or(names) => forall b :: b in Called(blocks, names) ==> ReadableBlock(b)
    case AllOf(target) => ReadableMerge(Covered(blocks, target))
    case And(names) => ReadableMerge(Called(blocks, names))
    case Complex(_) => true
  }

  // ---- the rules fire where the compiled form holds ----

  lemma FormJoins(a: Form, b: Form, p: Process)
    ensures FormHolds(a + b, p) <==> FormHolds(a, p) || FormHolds(b, p)
  {
    hide AllEntriesHold;
  }

  lemma OneForm(c: Conjunction, p: Process)
    ensures FormHolds([c], p) <==> SelectionHolds(c, p)
  {
    hide EntryHolds, SelectionHolds;
    HoldsByMember(c, p);
    assert c in [c];
  }

  lemma NoForm(p: Process)
    ensures !FormHolds([], p)
  {
  }

  lemma {:induction false} EachCompiles(blocks: seq<Block>, description: string, p: Process)
    requires forall b :: b in blocks ==> ReadableBlock(b)
    ensures Fires(EachTranslated(blocks, description), p) <==> FormHolds(Bearing(blocks), RootedProcess(p))
    decreases |blocks|
  {
    hide Translated, Fires, SelectionHolds, Fragment, HasImage, FormHolds;
    if blocks == [] {
      NothingFires(p);
      NoForm(RootedProcess(p));
    } else {
      var init, last := blocks[..|blocks| - 1], blocks[|blocks| - 1];
      assert blocks == init + [last];
      EachCompiles(init, description, p);
      FormJoins(Bearing(init), if Bears(last) then [last.entries] else [], RootedProcess(p));
      NoForm(RootedProcess(p));
      NothingFires(p);
      FiresJoins(EachTranslated(init, description), if last.One? then Translated(last.entries, description) else [], p);
      if last.One? {
        assert last in blocks;
        SelectionExact(last.entries, description, p);
        OneForm(last.entries, RootedProcess(p));
      }
    }
  }

  lemma NamedCompiles(blocks: seq<Named>, name: string, description: string, p: Process)
    requires forall b :: b in Found(blocks, name) ==> ReadableBlock(b)
    ensures Fires(TranslateNamed(Find(blocks, name), name, description).Rules(), p)
       <==> FormHolds(Bearing(Found(blocks, name)), RootedProcess(p))
  {
    hide Translated, Fires, Fragment, HasImage, FormHolds, Find;
    var found := Found(blocks, name);
    EachCompiles(found, description, p);
    NothingFires(p);
    if found != [] {
      assert found[..0] == [] && EachTranslated([], description) == [];
      var rules := if found[0].One? then Translated(found[0].entries, description) else [];
      assert EachTranslated(found, description) == [] + rules == rules;
    }
  }

  lemma SupportedInTerms(blocks: seq<Block>)
    requires forall b :: b in blocks ==> BlockInTerms(b)
    ensures !SomeUnsupported(blocks)
  {
    hide Unsupported, ImageKey, ParentKey, NameValue;
    forall i | 0 <= i < |blocks| ensures !BlockHasUnsupportedFields(blocks[i]) {
      assert blocks[i] in blocks;
      forall c | c in BlockForm(blocks[i]) ensures !HasUnsupportedFields(c) { SupportedConjunction(c); }
    }
  }

  lemma SupportedConjunction(c: Conjunction)
    requires InTerms(c)
    ensures !HasUnsupportedFields(c)
  {
    hide Unsupported, ImageKey, ParentKey, NameValue;
    forall i | 0 <= i < |c| ensures !Unsupported(c[i].key) {
      assert c[i] in c;
      FragmentKey(c[i].key);
    }
  }

  lemma MergedCompiles(blocks: seq<Block>, description: string, nothing: string, p: Process)
    requires ReadableMerge(blocks)
    ensures Fires(TranslateMerged(blocks, description, nothing).Rules(), p)
       <==> FormHolds(MergedForm(blocks), RootedProcess(p))
  {
    hide Merged, Fires, SelectionHolds, HasImage, Fragment, FormHolds, TranslateMerged, SomeUnsupported;
    SupportedInTerms(blocks);
    MergeCompiles(blocks, description, nothing, p);
    OneForm(Merged(blocks), RootedProcess(p));
    NoForm(RootedProcess(p));
  }

  /** The rules of any condition in reach fire exactly where its compiled form holds. */
  lemma CompiledFormFires(c: Condition, blocks: seq<Named>, description: string, p: Process)
    requires InReach(c, blocks)
    ensures Fires(Translate(c, blocks, description).Rules(), p) <==> FormHolds(CompiledForm(c, blocks), RootedProcess(p))
  {
    hide Fires, FormHolds, ReadableBlock, ReadableMerge, EachTranslated, Bearing, TranslateMerged, TranslateNamed;
    NothingFires(p);
    NoForm(RootedProcess(p));
    match c
    case Simple(name) => NamedCompiles(blocks, name, description, p);
    case AndNot(name) => NamedCompiles(blocks, name, description, p);
    case OneOf(target) => EachCompiles(Covered(blocks, target), description, p);
    case Or(names) => EachCompiles(Called(blocks, names), description, p);
    case AllOf(target) =>
      MergedCompiles(Covered(blocks, target), description, "untranslatable AND-combined selection", p);
      if Covered(blocks, target) == [] { NothingMerges(); }
    case And(names) =>
      MergedCompiles(Called(blocks, names), description, "no selection blocks in AND", p);
    case Complex(_) =>
  }

  lemma NothingMerges()
    ensures MergedForm([]) == []
  {
    assert Merged([]) == [];
  }

  // ---- the meant form holds where the condition does ----

  lemma {:induction false} AlternativesHold(blocks: seq<Block>, p: Process)
    ensures FormHolds(Alternatives(blocks), p) <==> exists b :: b in blocks && BlockHolds(b, p)
    decreases |blocks|
  {
    hide SelectionHolds, FormHolds, BlockHolds;
    if blocks == [] {
      NoForm(p);
    } else {
      var init, last := blocks[..|blocks| - 1], blocks[|blocks| - 1];
      assert blocks == init + [last];
      AlternativesHold(init, p);
      FormJoins(Alternatives(init), BlockForm(last), p);
      BlockAlternatives(last, p);
    }
  }

  lemma BlockAlternatives(b: Block, p: Process)
    ensures FormHolds(BlockForm(b), p) <==> BlockHolds(b, p)
  {
    hide SelectionHolds, EntryHolds;
    if b.One? {
      OneForm(b.entries, p);
    } else {
      forall s | s in b.alternatives ensures AllEntriesHold(s, p) <==> SelectionHolds(s, p) { HoldsByMember(s, p); }
    }
  }

  lemma {:induction false} MeantMembers(blocks: seq<Named>, target: Target)
    ensures forall b :: b in Meant(blocks, target) <==> exists n :: n in blocks && SigmaCovers(target, n.name) && n.block == b
    decreases |blocks|
  {
    hide SigmaCovers;
    if blocks == [] {
    } else {
      var init, last := blocks[..|blocks| - 1], blocks[|blocks| - 1];
      assert blocks == init + [last];
      MeantMembers(init, target);
    }
  }

  lemma {:induction false} ExtendedHolds(form: Form, c: Conjunction, p: Process)
    ensures FormHolds(Extended(form, c), p) <==> FormHolds(form, p) && AllEntriesHold(c, p)
    decreases |form|
  {
    hide FormHolds, EntryHolds;
    NoForm(p);
    if form == [] {
    } else {
      var init, last := form[..|form| - 1], form[|form| - 1];
      ExtendedHolds(init, c, p);
      FormJoins(init, [last], p);
      FormJoins(Extended(init, c), [last + c], p);
      OneForm(last, p);
      OneForm(last + c, p);
      HoldsByMember(last, p);
      HoldsByMember(last + c, p);
      assert form == init + [last];
    }
  }

  lemma {:induction false} ProductHolds(a: Form, b: Form, p: Process)
    ensures FormHolds(Product(a, b), p) <==> FormHolds(a, p) && FormHolds(b, p)
    decreases |b|
  {
    hide FormHolds, EntryHolds, SelectionHolds, Extended;
    NoForm(p);
    if b == [] {
    } else {
      var init, last := b[..|b| - 1], b[|b| - 1];
      ProductHolds(a, init, p);
      ExtendedHolds(a, last, p);
      FormJoins(Product(a, init), Extended(a, last), p);
      FormJoins(init, [last], p);
      OneForm(last, p);
      HoldsByMember(last, p);
      assert b == init + [last];
    }
  }

  lemma {:induction false} ConjoinedHolds(blocks: seq<Block>, p: Process)
    ensures FormHolds(Conjoined(blocks), p) <==> forall b :: b in blocks ==> BlockHolds(b, p)
    decreases |blocks|
  {
    hide FormHolds, BlockHolds, Product, BlockForm;
    if blocks == [] {
      OneForm([], p);
    } else {
      var init, last := blocks[..|blocks| - 1], blocks[|blocks| - 1];
      assert blocks == init + [last];
      ConjoinedHolds(init, p);
      ProductHolds(Conjoined(init), BlockForm(last), p);
      BlockAlternatives(last, p);
    }
  }

  /** The meant form is the condition, but for what an `and not` takes away. */
  lemma MeantFormHolds(c: Condition, blocks: seq<Named>, p: Process)
    ensures FormHolds(MeantForm(c, blocks), p) <==> Holds(Positive(c), blocks, false, p)
  {
    hide FormHolds, Alternatives, BlockHolds, Conjoined;
    match c
    case Simple(name) => AlternativesHold(Found(blocks, name), p);
    case AndNot(name) => AlternativesHold(Found(blocks, name), p);
    case OneOf(target) =>
      MeantMembers(blocks, target);
      AlternativesHold(Meant(blocks, target), p);
      forall n | n in blocks && SigmaCovers(target, n.name) ensures n.block in Meant(blocks, target) {
      }
    case Or(names) => OrMeant(blocks, names, p);
    case AllOf(target) => AllOfMeant(blocks, target, p);
    case And(names) => AndMeant(blocks, names, p);
    case Complex(_) => NoForm(p);
  }

  lemma OrMeant(blocks: seq<Named>, names: seq<string>, p: Process)
    ensures FormHolds(Alternatives(Called(blocks, names)), p) <==> Holds(Or(names), blocks, false, p)
  {
    hide FormHolds, Alternatives, BlockHolds, Find;
    CalledMembers(blocks, names);
    AlternativesHold(Called(blocks, names), p);
    forall name | name in names && NamedHolds(blocks, name, p) ensures Find(blocks, name).value in Called(blocks, names) {
      assert Find(blocks, name) == Some(Find(blocks, name).value);
    }
  }

  lemma AllOfMeant(blocks: seq<Named>, target: Target, p: Process)
    ensures FormHolds(MeantForm(AllOf(target), blocks), p) <==> Holds(AllOf(target), blocks, false, p)
  {
    hide FormHolds, BlockHolds, Conjoined, SigmaCovers;
    var meant := Meant(blocks, target);
    MeantMembers(blocks, target);
    forall n | n in blocks && SigmaCovers(target, n.name) ensures n.block in meant {
    }
    if meant == [] {
      NoForm(p);
    } else {
      assert meant[0] in meant;
      ConjoinedHolds(meant, p);
    }
  }

  lemma SigmaCoversLess(target: Target)
    ensures forall name :: SigmaCovers(target, name) ==> Covers(target, name)
  {
    forall name | target.UnderscoredSelections? && SigmaCovers(target, name) ensures StartsWith(name, "selection") {
      assert name[..9] == name[..10][..9] == "selection_"[..9] == "selection";
    }
  }

  lemma AndMeant(blocks: seq<Named>, names: seq<string>, p: Process)
    ensures FormHolds(MeantForm(And(names), blocks), p) <==> Holds(And(names), blocks, false, p)
  {
    hide FormHolds, BlockHolds, Conjoined, Find;
    CalledMembers(blocks, names);
    if AllFound(blocks, names) {
      forall name | name in names ensures Find(blocks, name).Some? && Find(blocks, name).value in Called(blocks, names) {
        assert Find(blocks, name) == Some(Find(blocks, name).value);
      }
      ConjoinedHolds(Called(blocks, names), p);
    } else {
      NoForm(p);
      var i :| 0 <= i < |names| && Find(blocks, names[i]).None?;
      assert names[i] in names;
    }
  }

  // ---- both forms speak in terms of the fragment ----

  lemma {:induction false} BearingInTerms(blocks: seq<Block>)
    requires forall b :: b in blocks ==> ReadableBlock(b)
    ensures FormInTerms(Bearing(blocks)) && FormInTerms(Alternatives(blocks))
    decreases |blocks|
  {
    if blocks == [] {
    } else {
      var init, last := blocks[..|blocks| - 1], blocks[|blocks| - 1];
      assert blocks == init + [last];
      assert last in blocks;
      BearingInTerms(init);
      if last.One? { FragmentInTerms(last.entries); }
    }
  }

  lemma FragmentInTerms(selection: Selection)
    requires Fragment(selection)
    ensures InTerms(selection)
  {
  }

  lemma FormsInTerms(c: Condition, blocks: seq<Named>)
    requires InReach(c, blocks)
    ensures FormInTerms(CompiledForm(c, blocks)) && FormInTerms(MeantForm(c, blocks))
  {
    hide ReadableBlock, Merged, BlockInTerms, Conjoined, FragmentEntry;
    match c
    case Simple(name) => BearingInTerms(Found(blocks, name));
    case AndNot(name) => BearingInTerms(Found(blocks, name));
    case OneOf(target) =>
      BearingInTerms(Covered(blocks, target));
      MeantIsCovered(blocks, target);
      BearingInTerms(Meant(blocks, target));
    case Or(names) => BearingInTerms(Called(blocks, names));
    case AllOf(target) =>
      FragmentInTerms(Merged(Covered(blocks, target)));
      MeantIsCovered(blocks, target);
      ConjoinedInTerms(Meant(blocks, target));
    case And(names) =>
      FragmentInTerms(Merged(Called(blocks, names)));
      ConjoinedInTerms(Called(blocks, names));
    case Complex(_) =>
  }

  lemma MeantIsCovered(blocks: seq<Named>, target: Target)
    ensures forall b :: b in Meant(blocks, target) ==> b in Covered(blocks, target)
  {
    MeantMembers(blocks, target);
    CoveredMembers(blocks, target);
    SigmaCoversLess(target);
    forall b | b in Meant(blocks, target) ensures b in Covered(blocks, target) {
      var n :| n in blocks && SigmaCovers(target, n.name) && n.block == b;
    }
  }

  lemma {:induction false} ExtendedInTerms(form: Form, c: Conjunction)
    requires FormInTerms(form) && InTerms(c)
    ensures FormInTerms(Extended(form, c))
    decreases |form|
  {
    hide FragmentEntry;
    if form == [] {
    } else {
      assert form[|form| - 1] in form;
      ExtendedInTerms(form[..|form| - 1], c);
    }
  }

  lemma {:induction false} ProductInTerms(a: Form, b: Form)
    requires FormInTerms(a) && FormInTerms(b)
    ensures FormInTerms(Product(a, b))
    decreases |b|
  {
    hide InTerms, Extended;
    if b == [] {
    } else {
      assert b[|b| - 1] in b;
      ProductInTerms(a, b[..|b| - 1]);
      ExtendedInTerms(a, b[|b| - 1]);
    }
  }

  lemma {:induction false} ConjoinedInTerms(blocks: seq<Block>)
    requires forall b :: b in blocks ==> BlockInTerms(b)
    ensures FormInTerms(Conjoined(blocks))
    decreases |blocks|
  {
    hide Product, BlockForm;
    if blocks == [] {
    } else {
      assert blocks[|blocks| - 1] in blocks;
      ConjoinedInTerms(blocks[..|blocks| - 1]);
      ProductInTerms(Conjoined(blocks[..|blocks| - 1]), BlockForm(blocks[|blocks| - 1]));
    }
  }

  // ---- the main results ----

  /** Whether the rules fire exactly where the condition holds, slashless paths read as standing in the root. `excluded` is
      what an `and not` takes away, as alternatives of conjunctions. */
  ghost predicate MeaningKept(c: Condition, blocks: seq<Named>, excluded: Form, description: string) {
    forall p: Process :: Fires(Translate(c, blocks, description).Rules(), p)
                    <==> Holds(c, blocks, FormHolds(excluded, RootedProcess(p)), RootedProcess(p))
  }

  /** Whether the rules fire at least where the condition holds. */
  ghost predicate NothingMissed(c: Condition, blocks: seq<Named>, excluded: Form, description: string) {
    forall p: Process :: Holds(c, blocks, FormHolds(excluded, RootedProcess(p)), RootedProcess(p)) ==>
        Fires(Translate(c, blocks, description).Rules(), p)
  }

  /** Decided on samples: what is compiled and what is meant agree; under `and not` what is compiled never meets what is
      taken away, and where nothing is compiled everything is taken away. */
  predicate Kept(c: Condition, compiled: Form, meant: Form, excluded: Form) {
    if !c.AndNot? then Contained(compiled, meant) && Contained(meant, compiled)
    else if compiled == [] then Contained(meant, excluded)
    else Contained(Product(compiled, excluded), [])
  }

  /** The rules and the condition in terms of their forms. */
  lemma Forms(c: Condition, blocks: seq<Named>, excluded: Form, description: string, p: Process)
    requires InReach(c, blocks)
    ensures var r := RootedProcess(p);
      && (Fires(Translate(c, blocks, description).Rules(), p) <==> FormHolds(CompiledForm(c, blocks), r))
      && (Holds(c, blocks, FormHolds(excluded, r), r)
          <==> FormHolds(MeantForm(c, blocks), r) && !(c.AndNot? && FormHolds(excluded, r)))
  {
    hide Fires, FormHolds, InReach, CompiledForm, MeantForm, Translate;
    CompiledFormFires(c, blocks, description, p);
    MeantFormHolds(c, blocks, RootedProcess(p));
  }

  /** A named selection is compiled as it is meant, or not at all. */
  lemma NamedForms(blocks: seq<Named>, name: string)
    ensures var c := AndNot(name); CompiledForm(c, blocks) == [] || CompiledForm(c, blocks) == MeantForm(c, blocks)
  {
    hide Find;
    var found := Found(blocks, name);
    assert found[..0] == [] && Bearing([]) == [] && Alternatives([]) == [];
    if found != [] {
      assert Bearing(found) == Bearing([]) + if Bears(found[0]) then [found[0].entries] else [];
      assert Alternatives(found) == Alternatives([]) + BlockForm(found[0]);
    }
  }

  /** A compiled condition keeps its meaning exactly when it does on finitely many processes made of its own values. */
  lemma MeaningExact(c: Condition, blocks: seq<Named>, excluded: Form, description: string)
    requires InReach(c, blocks) && FormInTerms(excluded)
    ensures MeaningKept(c, blocks, excluded, description)
       <==> Kept(c, CompiledForm(c, blocks), MeantForm(c, blocks), excluded)
  {
    hide Fires, FormHolds, Contained, InReach, CompiledForm, MeantForm, FormInTerms, Holds, Translate;
    var compiled, meant := CompiledForm(c, blocks), MeantForm(c, blocks);
    FormsInTerms(c, blocks);
    forall p: Process
      ensures Fires(Translate(c, blocks, description).Rules(), p) <==> FormHolds(compiled, RootedProcess(p))
      ensures Holds(c, blocks, FormHolds(excluded, RootedProcess(p)), RootedProcess(p))
         <==> FormHolds(meant, RootedProcess(p)) && !(c.AndNot? && FormHolds(excluded, RootedProcess(p))) {
      Forms(c, blocks, excluded, description, p);
    }
    if c.AndNot? {
      NamedForms(blocks, c.name);
      AndNotKept(compiled, meant, excluded);
    } else {
      ContainedExact(compiled, meant);
      ContainedExact(meant, compiled);
    }
  }

  lemma NothingInTerms()
    ensures FormInTerms([])
  {
  }

  lemma AndNotKept(compiled: Form, meant: Form, excluded: Form)
    requires FormInTerms(compiled) && FormInTerms(meant) && FormInTerms(excluded) && (compiled == [] || compiled == meant)
    ensures (forall p: Process :: FormHolds(compiled, RootedProcess(p))
                             <==> FormHolds(meant, RootedProcess(p)) && !FormHolds(excluded, RootedProcess(p)))
       <==> if compiled == [] then Contained(meant, excluded) else Contained(Product(compiled, excluded), [])
  {
    hide FormHolds, Contained, FormInTerms, Product;
    NothingInTerms();
    ProductInTerms(compiled, excluded);
    ContainedExact(meant, excluded);
    ContainedExact(Product(compiled, excluded), []);
    forall p: Process
      ensures !FormHolds([], RootedProcess(p))
      ensures FormHolds(Product(compiled, excluded), RootedProcess(p))
         <==> FormHolds(compiled, RootedProcess(p)) && FormHolds(excluded, RootedProcess(p)) {
      NoForm(RootedProcess(p));
      ProductHolds(compiled, excluded, RootedProcess(p));
    }
  }

  /** Nothing that Sigma matches is missed exactly when nothing is on the samples of what is meant. */
  lemma NothingMissedExact(c: Condition, blocks: seq<Named>, excluded: Form, description: string)
    requires InReach(c, blocks) && FormInTerms(excluded)
    ensures NothingMissed(c, blocks, excluded, description)
       <==> Contained(MeantForm(c, blocks), if c.AndNot? && CompiledForm(c, blocks) == [] then excluded else CompiledForm(c, blocks))
  {
    hide Fires, FormHolds, Contained, InReach, CompiledForm, MeantForm, FormInTerms, Holds, Translate;
    var compiled, meant := CompiledForm(c, blocks), MeantForm(c, blocks);
    FormsInTerms(c, blocks);
    ContainedExact(meant, compiled);
    ContainedExact(meant, excluded);
    if c.AndNot? { NamedForms(blocks, c.name); }
    forall p: Process
      ensures Fires(Translate(c, blocks, description).Rules(), p) <==> FormHolds(compiled, RootedProcess(p))
      ensures !FormHolds([], RootedProcess(p))
      ensures Holds(c, blocks, FormHolds(excluded, RootedProcess(p)), RootedProcess(p))
         <==> FormHolds(meant, RootedProcess(p)) && !(c.AndNot? && FormHolds(excluded, RootedProcess(p))) {
      Forms(c, blocks, excluded, description, p);
      NoForm(RootedProcess(p));
    }
  }
}

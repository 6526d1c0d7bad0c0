/** Where the compiler loses a condition's meaning: clashing keys under `and`, and names that `selection_*` should not cover. */
module RuleLosses {
  import opened Options
  import opened RuleCompiler
  import opened RuleTranslator
  import opened RuleMeaning
  import opened RuleProofs
  import opened RuleConditions
  import opened RuleSamples
  import opened RuleExactness
  import opened Text

  // ---- clashing keys ----

  /** An `and` of mappings keeps its meaning exactly when merging them keeps every entry's condition. */
  lemma AndExact(names: seq<string>, blocks: seq<Named>, description: string)
    requires AllFound(blocks, names) && AllMappings(Called(blocks, names))
    requires Fragment(Merged(Called(blocks, names))) && HasImage(Merged(Called(blocks, names)))
    ensures MeaningKept(And(names), blocks, [], description) <==> MergeKept(Called(blocks, names))
  {
    hide Fires, BlockHolds, MergeKept, TranslateMerged, Merged, Called, Fragment, Find;
    var nothing := "no selection blocks in AND";
    MergeExact(Called(blocks, names), description, nothing);
    assert Translate(And(names), blocks, description) == TranslateMerged(Called(blocks, names), description, nothing);
    forall p: Process
      ensures Holds(And(names), blocks, false, RootedProcess(p))
         <==> forall b :: b in Called(blocks, names) ==> BlockHolds(b, RootedProcess(p)) {
      AndByBlock(names, blocks, RootedProcess(p));
    }
  }

  lemma AndByBlock(names: seq<string>, blocks: seq<Named>, p: Process)
    requires AllFound(blocks, names)
    ensures Holds(And(names), blocks, false, p) <==> forall b :: b in Called(blocks, names) ==> BlockHolds(b, p)
  {
    hide BlockHolds, Called, Find;
    CalledMembers(blocks, names);
    forall name | name in names ensures Find(blocks, name).Some? && Find(blocks, name).value in Called(blocks, names) {
      assert Find(blocks, name) == Some(Find(blocks, name).value);
    }
  }

  predicate Among(v: string, values: seq<string>) { exists i :: 0 <= i < |values| && Lower(values[i]) == Lower(v) }

  function ClashBlocks(first: Entry, second: Entry): seq<Named> {
    [Named("a", One([first])), Named("b", One([second]))]
  }

  /**
   * Two selections on the same image key, joined by `and`: the later values replace the earlier, and the conjunction is
   * kept exactly when each later value occurs, case ignored, among the earlier ones.
   */
  lemma ClashExact(first: Entry, second: Entry, description: string)
    requires FragmentEntry(first) && FragmentEntry(second) && ImageKey(first.key) && first.key == second.key
    ensures MeaningKept(And(["a", "b"]), ClashBlocks(first, second), [], description)
       <==> forall i :: 0 <= i < |second.values| ==> Among(second.values[i], first.values)
  {
    hide FragmentEntry, ImageKey, Find, Merged, Entries, MeaningKept, Among;
    var a, b, blocks := One([first]), One([second]), ClashBlocks(first, second);
    NamesFound(a, b);
    assert ["a", "b"][..1] == ["a"] && ["a"][..0] == [];
    assert Called(blocks, []) == [] && Called(blocks, ["a"]) == [a] && Called(blocks, ["a", "b"]) == [a, b];
    MergedClash(first, second);
    OneImage(second);
    AndExact(["a", "b"], blocks, description);
    ClashKept(first, second);
  }

  lemma OneImage(e: Entry)
    requires FragmentEntry(e) && ImageKey(e.key)
    ensures Fragment([e]) && HasImage([e])
  {
    hide ImageKey, ParentKey, Carries;
    FragmentKey(e.key);
    assert [e][0] == e;
  }

  lemma ClashKept(first: Entry, second: Entry)
    requires FragmentEntry(first) && FragmentEntry(second) && first.key == second.key
    ensures Keeps([second], [first, second])
       <==> forall i :: 0 <= i < |second.values| ==> Among(second.values[i], first.values)
  {
    hide NameValue, SomeValueEnds, Among;
    forall i | 0 <= i < |second.values|
      ensures SomeValueEnds(second.values[i], first.values) <==> Among(second.values[i], first.values)
      ensures SomeValueEnds(second.values[i], second.values) {
      EndsIsAmong(second.values[i], first.values);
      SelfEnds(second.values[i], second.values);
    }
    assert second in [second] && first in [first, second];
    assert Within(second.values, second.values);
  }

  /** One name value ends another only when they are the same name. */
  lemma EndsIsAmong(v: string, values: seq<string>)
    requires NameValue(v) && forall i :: 0 <= i < |values| ==> NameValue(values[i])
    ensures SomeValueEnds(v, values) <==> Among(v, values)
  {
    hide NameValue, Lower;
    if SomeValueEnds(v, values) {
      var i :| 0 <= i < |values| && EndsWith(Lower(v), Lower(values[i]));
      SameEnd(v, v, values[i]);
    }
    if Among(v, values) {
      var i :| 0 <= i < |values| && Lower(values[i]) == Lower(v);
      assert EndsWith(Lower(v), Lower(values[i]));
    }
  }

  /** So "/y" after "/x" loses the conjunction, and "/x" after both keeps it. */
  lemma ClashInstances(description: string)
    ensures var key := ["Image", "endswith"];
      && !MeaningKept(And(["a", "b"]), ClashBlocks(Entry(key, ["/x"]), Entry(key, ["/y"])), [], description)
      && MeaningKept(And(["a", "b"]), ClashBlocks(Entry(key, ["/x", "/y"]), Entry(key, ["/x"])), [], description)
  {
    hide MeaningKept, ClashBlocks, Among;
    var key := ["Image", "endswith"];
    assert Lower("Image") == IMAGE && Lower("endswith") == "endswith";
    SlashNames("/x", 'x');
    SlashNames("/y", 'y');
    ClashExact(Entry(key, ["/x"]), Entry(key, ["/y"]), description);
    ClashExact(Entry(key, ["/x", "/y"]), Entry(key, ["/x"]), description);
    AmongInstances();
    assert ["/y"][0] == "/y";
  }

  lemma AmongInstances()
    ensures !Among("/y", ["/x"]) && Among("/x", ["/x", "/y"])
  {
    assert Lower("/x")[1] == 'x' && Lower("/y")[1] == 'y';
    assert ["/x", "/y"][0] == "/x";
  }

  lemma SlashNames(v: string, c: char)
    requires v == ['/', c] && c !in ['*', '?', '[', '/']
    ensures NameValue(v)
  {
  }

  lemma NamesFound(a: Block, b: Block)
    ensures var blocks := [Named("a", a), Named("b", b)];
      Find(blocks, "a") == Some(a) && Find(blocks, "b") == Some(b)
  {
    var blocks := [Named("a", a), Named("b", b)];
    assert "a"[0] != "b"[0];
    assert blocks[1..][0] == Named("b", b);
  }

  lemma MergedClash(first: Entry, second: Entry)
    requires first.key == second.key
    ensures Merged([One([first]), One([second])]) == [second]
    ensures Entries([One([first]), One([second])]) == [first, second]
  {
    var a, b := One([first]), One([second]);
    assert [a, b][..1] == [a] && [a][..0] == [];
    assert [first][..0] == [] && [second][..0] == [];
    assert Merged([]) == [] && Entries([]) == [];
    assert Merged([a]) == Update([], [first]) == Put(Update([], []), first) == [first];
    assert Merged([a, b]) == Update([first], [second]) == Put(Update([first], []), second) == [second];
    assert Entries([a]) == [first] && Entries([a, b]) == [first] + [second];
  }

  // ---- the second half of `and not` ----

  /** Taking an image away from itself leaves nothing, but the compiled rules fire on it all the same. */
  lemma AndNotOverfires(e: Entry, description: string)
    requires FragmentEntry(e) && ImageKey(e.key) && e.values != []
    ensures !MeaningKept(AndNot("a"), [Named("a", One([e]))], [[e]], description)
  {
    hide FragmentEntry, ImageKey, ParentKey, Fires, Carries, EntryHolds;
    var c, blocks, p := AndNot("a"), [Named("a", One([e]))], Plainly([e.values[0]]);
    OneImage(e);
    ValueHolds(e);
    SelectionExact([e], description, p);
    assert [e][0] == e && [e] in [[e]];
    assert Fires(Translate(c, blocks, description).Rules(), p);
    assert FormHolds([[e]], RootedProcess(p));
  }

  lemma ValueHolds(e: Entry)
    requires FragmentEntry(e) && ImageKey(e.key) && e.values != []
    ensures var p := Plainly([e.values[0]]); RootedProcess(p) == p && EntryHolds(e, p)
  {
    FragmentKey(e.key);
    SelfEnds(e.values[0], e.values);
    ValueSlash(e, e.values[0]);
  }

  // ---- names that `selection_*` should not cover ----

  /** A name such as `selectionx`, which the compiler lets `selection_*` cover. */
  predicate Extra(name: string) { StartsWith(name, "selection") && !StartsWith(name, "selection_") }

  /** A lone extra block compiles under `1 of selection_*` to rules that fire where it holds, which the condition never does. */
  lemma ExtraFires(name: string, entries: Selection, description: string, p: Process)
    requires Extra(name) && Fragment(entries) && HasImage(entries)
    ensures var c, blocks := OneOf(UnderscoredSelections), [Named(name, One(entries))];
      && (Fires(Translate(c, blocks, description).Rules(), p) <==> SelectionHolds(entries, RootedProcess(p)))
      && !Holds(c, blocks, false, p)
  {
    hide EachTranslated, Covered, Translated, Fires, SelectionHolds, Fragment, HasImage, StartsWith;
    LoneExtra(name, One(entries), description);
    SelectionExact(entries, description, p);
    NothingFires(p);
  }

  /** So a block "selectionx" compiles to rules that fire where the condition does not hold. */
  lemma SelectionXFires(entries: Selection, description: string, p: Process)
    requires Fragment(entries) && SelectionHolds(entries, RootedProcess(p)) && HasImage(entries)
    ensures var c, blocks := OneOf(UnderscoredSelections), [Named("selectionx", One(entries))];
      Fires(Translate(c, blocks, description).Rules(), p) && !Holds(c, blocks, false, p)
  {
    hide Fires, Translate, Holds, SelectionHolds, Fragment, HasImage;
    assert "selectionx"[..9] == "selection";
    assert "selectionx"[9] == 'x' && "selection_"[9] == '_';
    ExtraFires("selectionx", entries, description, p);
  }

  lemma LoneExtra(name: string, block: Block, description: string)
    requires Extra(name) && block.One?
    ensures Covered([Named(name, block)], UnderscoredSelections) == [block]
    ensures EachTranslated([block], description) == Translated(block.entries, description)
  {
    hide Translated, StartsWith;
    assert [Named(name, block)][..0] == [] && [block][..0] == [];
    assert Covered([], UnderscoredSelections) == [] && EachTranslated([], description) == [];
  }

  /** Every extra block is redundant: on its samples one of the blocks that `selection_*` names holds as well. */
  predicate ExtrasRedundant(blocks: seq<Named>) {
    forall n :: n in blocks && Extra(n.name) ==> forall q :: q in SamplesOf(n.block) ==>
        Holds(OneOf(UnderscoredSelections), blocks, false, q)
  }

  function SamplesOf(b: Block): seq<Process> { if b.One? then Samples(b.entries) else [] }

  /** The wider coverage changes the meaning exactly when some extra block is not redundant. */
  lemma UnderscoreExact(blocks: seq<Named>, description: string)
    requires forall b :: b in Covered(blocks, UnderscoredSelections) ==> GoodBlock(b)
    ensures MeaningKept(OneOf(UnderscoredSelections), blocks, [], description) <==> ExtrasRedundant(blocks)
  {
    hide MeaningKept, Contained, CompiledForm, MeantForm, GoodBlock, Fragment, HasImage;
    var c := OneOf(UnderscoredSelections);
    forall b | b in Covered(blocks, UnderscoredSelections) ensures ReadableBlock(b) { GoodReadable(b); }
    MeaningExact(c, blocks, [], description);
    MeantCompiled(blocks);
    ExtrasDecide(blocks);
  }

  lemma GoodReadable(b: Block)
    requires GoodBlock(b)
    ensures ReadableBlock(b) && Bears(b)
  {
  }

  lemma {:induction false} BearingMembers(blocks: seq<Block>)
    requires forall b :: b in blocks ==> GoodBlock(b)
    ensures forall e :: e in Bearing(blocks) <==> exists b :: b in blocks && b.One? && b.entries == e
    ensures Alternatives(blocks) == Bearing(blocks)
    decreases |blocks|
  {
    hide Fragment, HasImage;
    if blocks == [] {
    } else {
      var init, last := blocks[..|blocks| - 1], blocks[|blocks| - 1];
      assert blocks == init + [last];
      assert last in blocks;
      BearingMembers(init);
    }
  }

  /** What `selection_*` means is compiled, whatever else is. */
  lemma MeantCompiled(blocks: seq<Named>)
    requires forall b :: b in Covered(blocks, UnderscoredSelections) ==> GoodBlock(b)
    ensures var c := OneOf(UnderscoredSelections); Contained(MeantForm(c, blocks), CompiledForm(c, blocks))
  {
    hide Bearing, Alternatives, Covered, Meant, Fragment, HasImage, FormHolds, Samples;
    var t := UnderscoredSelections;
    MeantIsCovered(blocks, t);
    BearingMembers(Covered(blocks, t));
    BearingMembers(Meant(blocks, t));
    forall e, q: Process | e in Alternatives(Meant(blocks, t)) && q in Samples(e) ensures FormHolds(Bearing(Covered(blocks, t)), q) {
      var b :| b in Meant(blocks, t) && b.One? && b.entries == e;
      SampleHolds(Bearing(Covered(blocks, t)), e, q);
    }
  }

  lemma ExtrasDecide(blocks: seq<Named>)
    requires forall b :: b in Covered(blocks, UnderscoredSelections) ==> GoodBlock(b)
    ensures var c := OneOf(UnderscoredSelections);
      Contained(CompiledForm(c, blocks), MeantForm(c, blocks)) <==> ExtrasRedundant(blocks)
  {
    hide Bearing, Alternatives, Covered, Meant, FormHolds, Samples, Fragment, HasImage, Covers, SigmaCovers, Extra, Holds;
    var c, t := OneOf(UnderscoredSelections), UnderscoredSelections;
    var covered := Covered(blocks, t);
    forall b | b in covered ensures ReadableBlock(b) { GoodReadable(b); }
    BearingMembers(covered);
    CoveredMembers(blocks, t);
    if Contained(CompiledForm(c, blocks), MeantForm(c, blocks)) {
      forall n, q: Process | n in blocks && Extra(n.name) && q in SamplesOf(n.block) ensures Holds(c, blocks, false, q) {
        ExtraCovered(n.name);
        assert n.block in covered && n.block.entries in Bearing(covered);
        MeantFormHolds(c, blocks, q);
      }
    }
    if ExtrasRedundant(blocks) {
      forall e, q: Process | e in Bearing(covered) && q in Samples(e) ensures FormHolds(MeantForm(c, blocks), q) {
        var b :| b in covered && b.One? && b.entries == e;
        var n :| n in blocks && Covers(t, n.name) && n.block == b;
        ExtraCovered(n.name);
        if Extra(n.name) {
          assert q in SamplesOf(n.block);
          MeantFormHolds(c, blocks, q);
        } else {
          MeantSample(blocks, n, q);
        }
      }
    }
  }

  lemma ExtraCovered(name: string)
    ensures Covers(UnderscoredSelections, name) <==> Extra(name) || SigmaCovers(UnderscoredSelections, name)
    ensures !(Extra(name) && SigmaCovers(UnderscoredSelections, name))
  {
    SigmaCoversLess(UnderscoredSelections);
  }

  lemma MeantSample(blocks: seq<Named>, n: Named, q: Process)
    requires forall b :: b in Covered(blocks, UnderscoredSelections) ==> GoodBlock(b)
    requires n in blocks && SigmaCovers(UnderscoredSelections, n.name) && n.block.One? && q in Samples(n.block.entries)
    ensures FormHolds(MeantForm(OneOf(UnderscoredSelections), blocks), q)
  {
    hide Bearing, Alternatives, Covered, Meant, Fragment, HasImage, FormHolds, Samples, SigmaCovers;
    var t := UnderscoredSelections;
    MeantMembers(blocks, t);
    MeantIsCovered(blocks, t);
    BearingMembers(Meant(blocks, t));
    assert n.block in Meant(blocks, t) && n.block.entries in Alternatives(Meant(blocks, t));
    SampleHolds(Alternatives(Meant(blocks, t)), n.block.entries, q);
  }
}

/** The compiler preserves the meaning of whole Sigma conditions, and its last passes keep it. */
module RuleConditions {
  import opened Options
  import opened RuleCompiler
  import opened RuleTranslator
  import opened RuleMeaning
  import opened RuleProofs
  import opened Text

  // ---- the meaning of a condition ----

  predicate BlockHolds(b: Block, p: Process) {
    match b
    case One(entries) => SelectionHolds(entries, p)
    case Many(alternatives) => exists s :: s in alternatives && SelectionHolds(s, p)
  }

  predicate NamedHolds(blocks: seq<Named>, name: string, p: Process) {
    Find(blocks, name).Some? && BlockHolds(Find(blocks, name).value, p)
  }

  predicate SigmaCovers(target: Target, name: string) {
    match target
    case Them => true
    case Selections => StartsWith(name, "selection")
    case UnderscoredSelections => StartsWith(name, "selection_")
  }

  /** `excluded` is the truth of what an `and not` takes away. */
  predicate Holds(c: Condition, blocks: seq<Named>, excluded: bool, p: Process) {
    match c
    case Simple(name) => NamedHolds(blocks, name, p)
    case AndNot(name) => NamedHolds(blocks, name, p) && !excluded
    case OneOf(target) => exists b :: b in blocks && SigmaCovers(target, b.name) && BlockHolds(b.block, p)
    case AllOf(target) =>
      && (exists b :: b in blocks && SigmaCovers(target, b.name))
      && (forall b :: b in blocks && SigmaCovers(target, b.name) ==> BlockHolds(b.block, p))
    case Or(names) => exists name :: name in names && NamedHolds(blocks, name, p)
    case And(names) => forall name :: name in names ==> NamedHolds(blocks, name, p)
    case Complex(_) => false
  }

  /** The condition as the compiler reads it: an `and not` loses its second half. */
  function Positive(c: Condition): Condition { if c.AndNot? then Simple(c.name) else c }

  // ---- the fragment ----

  predicate GoodBlock(b: Block) { b.One? && Fragment(b.entries) && HasImage(b.entries) }

  function Entries(blocks: seq<Block>): seq<Entry> {
    if blocks == [] then []
    else
      var last := blocks[|blocks| - 1];
      Entries(blocks[..|blocks| - 1]) + if last.One? then last.entries else []
  }

  /** Each of the later values ends in one of the earlier ones, case ignored. */
  predicate Within(later: seq<string>, earlier: seq<string>) {
    forall i :: 0 <= i < |later| ==> SomeValueEnds(later[i], earlier)
  }

  /** Merging loses nothing: the entry that a key ends up with is within every entry it replaced, or some entry that
      is left can never hold. */
  predicate MergeKept(blocks: seq<Block>) { Keeps(Merged(blocks), Entries(blocks)) }

  predicate Keeps(merged: seq<Entry>, entries: seq<Entry>) {
    || (exists f :: f in merged && f.values == [])
    || (forall e, f :: e in entries && f in merged && e.key == f.key ==> Within(f.values, e.values))
  }

  predicate AllMappings(blocks: seq<Block>) { forall b :: b in blocks ==> b.One? }

  predicate GoodMerge(blocks: seq<Block>) {
    AllMappings(blocks) && MergeKept(blocks) && Fragment(Merged(blocks)) && HasImage(Merged(blocks))
  }

  predicate CoversAgree(target: Target, blocks: seq<Named>) {
    forall b :: b in blocks && Covers(target, b.name) ==> SigmaCovers(target, b.name)
  }

  predicate InFragment(c: Condition, blocks: seq<Named>) {
    match c
    case Simple(name) => Find(blocks, name).Some? ==> GoodBlock(Find(blocks, name).value)
    case AndNot(name) => Find(blocks, name).Some? ==> GoodBlock(Find(blocks, name).value)
    case OneOf(target) => CoversAgree(target, blocks) && forall b :: b in Covered(blocks, target) ==> GoodBlock(b)
    case AllOf(target) => CoversAgree(target, blocks) && (Covered(blocks, target) != [] ==> GoodMerge(Covered(blocks, target)))
    case Or(names) => forall b :: b in Called(blocks, names) ==> GoodBlock(b)
    case And(names) => AllFound(blocks, names) ==> GoodMerge(Called(blocks, names))
    case Complex(_) => false
  }

  // ---- alternatives ----

  lemma {:induction false} EachFires(blocks: seq<Block>, description: string, p: Process)
    requires forall b :: b in blocks ==> GoodBlock(b)
    ensures Fires(EachTranslated(blocks, description), p)
       <==> exists b :: b in blocks && BlockHolds(b, RootedProcess(p))
    decreases |blocks|
  {
    hide Translated, Fires, SelectionHolds, Fragment, HasImage;
    if blocks == [] {
      NothingFires(p);
    } else {
      var init, last := blocks[..|blocks| - 1], blocks[|blocks| - 1];
      assert blocks == init + [last];
      assert last in blocks;
      EachFires(init, description, p);
      FiresJoins(EachTranslated(init, description), Translated(last.entries, description), p);
      SelectionExact(last.entries, description, p);
    }
  }

  lemma {:induction false} CoveredMembers(blocks: seq<Named>, target: Target)
    ensures forall b :: b in Covered(blocks, target) <==> exists n :: n in blocks && Covers(target, n.name) && n.block == b
    decreases |blocks|
  {
    hide Covers;
    if blocks == [] {
    } else {
      var init, last := blocks[..|blocks| - 1], blocks[|blocks| - 1];
      assert blocks == init + [last];
      CoveredMembers(init, target);
    }
  }

  lemma {:induction false} CalledMembers(blocks: seq<Named>, names: seq<string>)
    ensures forall b :: b in Called(blocks, names) <==> exists n :: n in names && Find(blocks, n) == Some(b)
    decreases |names|
  {
    hide Find;
    if names == [] {
    } else {
      var init, last := names[..|names| - 1], names[|names| - 1];
      assert names == init + [last];
      CalledMembers(blocks, init);
      forall b | b in Called(blocks, names) ensures exists n :: n in names && Find(blocks, n) == Some(b) {
        if b in Called(blocks, init) {
          var n :| n in init && Find(blocks, n) == Some(b);
          assert n in names;
        } else {
          assert last in names && Find(blocks, last) == Some(b);
        }
      }
    }
  }

  // ---- merging ----

  lemma {:induction false} PutMembers(selection: Selection, e: Entry)
    ensures e in Put(selection, e) && forall f :: f in Put(selection, e) ==> f in selection || f == e
    ensures forall f :: f in selection ==> exists g :: g in Put(selection, e) && g.key == f.key
    decreases |selection|
  {
    if selection == [] {
    } else {
      var first, rest := selection[0], selection[1..];
      assert selection == [first] + rest;
      if first.key == e.key {
        assert Put(selection, e) == [e] + rest;
        assert forall f :: f in selection ==> f == first || f in rest;
      } else {
        PutMembers(rest, e);
        assert Put(selection, e) == [first] + Put(rest, e);
        forall f | f in selection ensures exists g :: g in Put(selection, e) && g.key == f.key {
          if f != first {
            var g :| g in Put(rest, e) && g.key == f.key;
            assert g in Put(selection, e);
          }
        }
      }
    }
  }

  lemma {:induction false} UpdateMembers(selection: Selection, entries: Selection)
    ensures forall f :: f in Update(selection, entries) ==> f in selection || f in entries
    ensures forall f :: f in selection || f in entries ==> exists g :: g in Update(selection, entries) && g.key == f.key
    decreases |entries|
  {
    hide Put;
    if entries == [] {
      assert forall f :: f in selection ==> f in Update(selection, entries) && f.key == f.key;
    } else {
      var init, last := entries[..|entries| - 1], entries[|entries| - 1];
      var before := Update(selection, init);
      assert entries == init + [last];
      UpdateMembers(selection, init);
      PutMembers(before, last);
      var after := Update(selection, entries);
      assert after == Put(before, last);
      forall f | f in selection || f in entries ensures exists g :: g in after && g.key == f.key {
        if f == last {
          assert last in after;
        } else {
          var g :| g in before && g.key == f.key;
        }
      }
    }
  }

  predicate Drawn(merged: seq<Entry>, entries: seq<Entry>) { forall f :: f in merged ==> f in entries }

  predicate Keyed(merged: seq<Entry>, entries: seq<Entry>) {
    forall e :: e in entries ==> exists f :: f in merged && f.key == e.key
  }

  /** `merged` has some of the entries, and one for every key. */
  predicate Represents(merged: seq<Entry>, entries: seq<Entry>) { Drawn(merged, entries) && Keyed(merged, entries) }

  /** A merge holds entries of its blocks only, and one for every key. */
  lemma {:induction false} MergedMembers(blocks: seq<Block>)
    ensures Represents(Merged(blocks), Entries(blocks))
    decreases |blocks|
  {
    hide Update, Drawn, Keyed;
    if blocks == [] {
      NothingRepresented();
    } else {
      var init, last := blocks[..|blocks| - 1], blocks[|blocks| - 1];
      MergedMembers(init);
      if last.One? {
        UpdateDrawn(Merged(init), Entries(init), last.entries);
        UpdateKeyed(Merged(init), Entries(init), last.entries);
      } else {
        assert Merged(blocks) == Merged(init) && Entries(blocks) == Entries(init);
      }
    }
  }

  lemma NothingRepresented()
    ensures Represents([], [])
  {
  }

  lemma UpdateDrawn(merged: seq<Entry>, entries: seq<Entry>, more: seq<Entry>)
    requires Drawn(merged, entries)
    ensures Drawn(Update(merged, more), entries + more)
  {
    hide Update, Keyed;
    UpdateMembers(merged, more);
  }

  lemma UpdateKeyed(merged: seq<Entry>, entries: seq<Entry>, more: seq<Entry>)
    requires Keyed(merged, entries)
    ensures Keyed(Update(merged, more), entries + more)
  {
    hide Update, Drawn;
    UpdateMembers(merged, more);
    forall e | e in entries + more ensures exists f :: f in Update(merged, more) && f.key == e.key {
      if e in more {
        assert e in merged || e in more;
      } else {
        var f :| f in merged && f.key == e.key;
        assert f in merged || f in more;
      }
    }
  }

  lemma {:induction false} EntryMembers(blocks: seq<Block>)
    ensures forall f :: f in Entries(blocks) <==> exists b :: b in blocks && b.One? && f in b.entries
    decreases |blocks|
  {
    if blocks == [] {
    } else {
      var init, last := blocks[..|blocks| - 1], blocks[|blocks| - 1];
      assert blocks == init + [last];
      EntryMembers(init);
    }
  }

  lemma HoldsByMember(selection: Selection, p: Process)
    ensures SelectionHolds(selection, p) <==> forall e :: e in selection ==> EntryHolds(e, p)
  {
    hide EntryHolds;
  }

  /** The conjunction of mappings is the conjunction of all their entries. */
  lemma AllHoldByEntry(blocks: seq<Block>, p: Process)
    requires AllMappings(blocks)
    ensures (forall b :: b in blocks ==> BlockHolds(b, p)) <==> forall e :: e in Entries(blocks) ==> EntryHolds(e, p)
  {
    hide EntryHolds, SelectionHolds, Entries;
    EntryMembers(blocks);
    forall b | b in blocks ensures BlockHolds(b, p) <==> forall e :: e in b.entries ==> EntryHolds(e, p) {
      HoldsByMember(b.entries, p);
    }
  }

  lemma EndsThrough(path: string, later: seq<string>, earlier: seq<string>)
    requires SomeValueEnds(path, later) && Within(later, earlier)
    ensures SomeValueEnds(path, earlier)
  {
    hide Lower;
    var i :| 0 <= i < |later| && EndsWith(Lower(path), Lower(later[i]));
    var j :| 0 <= j < |earlier| && EndsWith(Lower(later[i]), Lower(earlier[j]));
    EndTransitive(Lower(path), Lower(later[i]), Lower(earlier[j]));
  }

  lemma EndTransitive(a: string, b: string, c: string)
    requires EndsWith(a, b) && EndsWith(b, c)
    ensures EndsWith(a, c)
  {
    assert a[|a| - |c|..] == a[|a| - |b|..][|b| - |c|..];
  }

  lemma DeadEntry(selection: Selection, f: Entry, p: Process)
    requires f in selection && f.values == []
    ensures !SelectionHolds(selection, p)
  {
    HoldsByMember(selection, p);
    assert !EntryHolds(f, p);
  }

  lemma EntryWithin(e: Entry, f: Entry, p: Process)
    requires e.key == f.key && Within(f.values, e.values) && EntryHolds(f, p)
    ensures EntryHolds(e, p)
  {
    hide SomeValueEnds, Within;
    EndsThrough(if ParentKey(e.key) then Parent(p) else Own(p), f.values, e.values);
  }

  lemma RepresentedHold(merged: seq<Entry>, entries: seq<Entry>, p: Process)
    requires Keyed(merged, entries)
    requires forall e, f :: e in entries && f in merged && e.key == f.key ==> Within(f.values, e.values)
    requires forall f :: f in merged ==> EntryHolds(f, p)
    ensures forall e :: e in entries ==> EntryHolds(e, p)
  {
    hide EntryHolds, Within;
    forall e | e in entries ensures EntryHolds(e, p) {
      var f :| f in merged && f.key == e.key;
      EntryWithin(e, f, p);
    }
  }

  /** A merge that keeps everything is the conjunction of its blocks. */
  lemma MergedHolds(blocks: seq<Block>, p: Process)
    requires AllMappings(blocks) && MergeKept(blocks)
    ensures SelectionHolds(Merged(blocks), p) <==> forall b :: b in blocks ==> BlockHolds(b, p)
  {
    hide SelectionHolds, EntryHolds, AllMappings, BlockHolds, Represents, Keeps;
    MergedMembers(blocks);
    AllHoldByEntry(blocks, p);
    KeptHolds(Merged(blocks), Entries(blocks), p);
  }

  lemma KeptHolds(merged: seq<Entry>, entries: seq<Entry>, p: Process)
    requires Represents(merged, entries) && Keeps(merged, entries)
    ensures SelectionHolds(merged, p) <==> forall e :: e in entries ==> EntryHolds(e, p)
  {
    hide SelectionHolds, EntryHolds, Within, Keyed;
    HoldsByMember(merged, p);
    if SelectionHolds(merged, p) {
      if f :| f in merged && f.values == [] {
        DeadEntry(merged, f, p);
      } else {
        RepresentedHold(merged, entries, p);
      }
    }
  }

  /** The value of the only other key, or any path. */
  function OneValue(selection: Selection, parent: bool): string {
    if selection == [] then "/"
    else if (if parent then ParentKey(selection[0].key) else ImageKey(selection[0].key)) && selection[0].values != []
    then selection[0].values[0]
    else OneValue(selection[1..], parent)
  }

  lemma {:induction false} OneValueOf(selection: Selection, e: Entry, parent: bool)
    requires e in selection && (if parent then ParentKey(e.key) else ImageKey(e.key)) && e.values != []
    requires forall f :: f in selection && (if parent then ParentKey(f.key) else ImageKey(f.key)) ==> f == e
    ensures OneValue(selection, parent) in e.values
  {
    hide ParentKey, ImageKey;
    if selection[0] == e {
    } else {
      assert e in selection[1..];
      OneValueOf(selection[1..], e, parent);
    }
  }

  lemma {:induction false} OneValueSlash(selection: Selection, parent: bool)
    requires forall e :: e in selection ==> FragmentEntry(e)
    ensures '/' in OneValue(selection, parent)
  {
    if selection == [] {
      assert "/"[0] == '/';
    } else {
      assert selection[0] in selection;
      OneValueSlash(selection[1..], parent);
    }
  }

  lemma UniqueEntry(selection: Selection, e: Entry, f: Entry)
    requires Fragment(selection) && e in selection && f in selection
    ensures ImageKey(e.key) && ImageKey(f.key) ==> e == f
    ensures ParentKey(e.key) && ParentKey(f.key) ==> e == f
  {
    var i :| 0 <= i < |selection| && selection[i] == e;
    var j :| 0 <= j < |selection| && selection[j] == f;
  }

  /** The process that one value of an entry describes, the other path taken from the selection's other entry. */
  function Described(selection: Selection, f: Entry, v: string): Process {
    Plainly(if ParentKey(f.key) then [v, OneValue(selection, false)] else [OneValue(selection, true), v])
  }

  lemma SelfEnds(v: string, values: seq<string>)
    requires v in values
    ensures SomeValueEnds(v, values)
  {
    var i :| 0 <= i < |values| && values[i] == v;
    assert EndsWith(Lower(v), Lower(values[i]));
  }

  lemma DescribedHolds(selection: Selection, f: Entry, v: string)
    requires Fragment(selection) && f in selection && v in f.values && forall g :: g in selection ==> g.values != []
    ensures SelectionHolds(selection, Described(selection, f, v))
    ensures RootedProcess(Described(selection, f, v)) == Described(selection, f, v)
  {
    hide SomeValueEnds, OneValue, ImageKey, ParentKey;
    var p := Described(selection, f, v);
    assert forall i :: 0 <= i < |selection| ==> FragmentEntry(selection[i]);
    assert FragmentEntry(f);
    FragmentKey(f.key);
    forall g | g in selection ensures EntryHolds(g, p) {
      assert FragmentEntry(g);
      FragmentKey(g.key);
      UniqueEntry(selection, f, g);
      if g == f {
        SelfEnds(v, f.values);
      } else {
        forall h | h in selection && ParentKey(h.key) == ParentKey(g.key) && FragmentEntry(h) ensures h == g {
          FragmentKey(h.key);
          UniqueEntry(selection, h, g);
        }
        OtherValue(selection, g);
        SelfEnds(OneValue(selection, ParentKey(g.key)), g.values);
      }
    }
    HoldsByMember(selection, p);
    OneValueSlash(selection, true);
    OneValueSlash(selection, false);
    ValueSlash(f, v);
    AbsolutePathsStand(p);
  }

  lemma ValueSlash(f: Entry, v: string)
    requires FragmentEntry(f) && v in f.values
    ensures '/' in v
  {
    assert NameValue(v);
    assert v[0] == '/';
  }

  lemma OtherValue(selection: Selection, g: Entry)
    requires Fragment(selection) && g in selection && g.values != []
    ensures OneValue(selection, ParentKey(g.key)) in g.values
  {
    hide ParentKey, ImageKey, OneValue;
    assert FragmentEntry(g);
    FragmentKey(g.key);
    var parent := ParentKey(g.key);
    forall f | f in selection && (if parent then ParentKey(f.key) else ImageKey(f.key)) ensures f == g {
      UniqueEntry(selection, f, g);
    }
    OneValueOf(selection, g, parent);
  }

  /** Where a merge loses an entry's condition, some process shows it. */
  lemma MergeLoses(blocks: seq<Block>) returns (p: Process)
    requires AllMappings(blocks) && Fragment(Merged(blocks)) && !MergeKept(blocks)
    ensures SelectionHolds(Merged(blocks), p) && !(forall b :: b in blocks ==> BlockHolds(b, p)) && RootedProcess(p) == p
  {
    hide Merged, Entries, SomeValueEnds, BlockHolds, SelectionHolds, Described, Fragment;
    var merged := Merged(blocks);
    var e, f :| e in Entries(blocks) && f in merged && e.key == f.key && !Within(f.values, e.values);
    var i :| 0 <= i < |f.values| && !SomeValueEnds(f.values[i], e.values);
    p := Described(merged, f, f.values[i]);
    DescribedHolds(merged, f, f.values[i]);
    AllHoldByEntry(blocks, p);
    assert !EntryHolds(e, p) by { DescribedFails(merged, f, f.values[i], e); }
  }

  lemma DescribedFails(selection: Selection, f: Entry, v: string, e: Entry)
    requires e.key == f.key && !SomeValueEnds(v, e.values)
    ensures !EntryHolds(e, Described(selection, f, v))
  {
    hide SomeValueEnds, OneValue;
  }

  lemma NothingUnsupported(blocks: seq<Block>)
    requires AllMappings(blocks) && Fragment(Merged(blocks))
    ensures !SomeUnsupported(blocks)
  {
    hide Merged, Entries, ImageKey, ParentKey, Unsupported, Fragment, Drawn;
    EntryMembers(blocks);
    MergedMembers(blocks);
    forall e | e in Entries(blocks) ensures !Unsupported(e.key) {
      var f :| f in Merged(blocks) && f.key == e.key;
      SupportedEntry(Merged(blocks), e, f);
    }
    forall i, j | 0 <= i < |blocks| && 0 <= j < |blocks[i].entries| ensures !Unsupported(blocks[i].entries[j].key) {
      assert blocks[i] in blocks && blocks[i].entries[j] in blocks[i].entries;
    }
  }

  lemma SupportedEntry(merged: Selection, e: Entry, f: Entry)
    requires Fragment(merged) && f in merged && f.key == e.key
    ensures !Unsupported(e.key)
  {
    hide ImageKey, ParentKey, Unsupported;
    var i :| 0 <= i < |merged| && merged[i] == f;
    assert FragmentEntry(merged[i]);
    FragmentKey(f.key);
  }

  /** The rules of a merge fire exactly where the merged mapping holds. */
  lemma MergeCompiles(blocks: seq<Block>, description: string, nothing: string, p: Process)
    requires !SomeUnsupported(blocks) && Fragment(Merged(blocks))
    ensures Fires(TranslateMerged(blocks, description, nothing).Rules(), p)
       <==> HasImage(Merged(blocks)) && SelectionHolds(Merged(blocks), RootedProcess(p))
  {
    hide Merged, SomeUnsupported, SelectionHolds, Translated, Fires, Fragment;
    SelectionExact(Merged(blocks), description, p);
    NothingFires(p);
  }

  /** Reading `and` as a merge keeps the conjunction on every process exactly when the merge keeps every condition. */
  lemma MergeExact(blocks: seq<Block>, description: string, nothing: string)
    requires AllMappings(blocks) && Fragment(Merged(blocks)) && HasImage(Merged(blocks))
    ensures (forall p: Process :: Fires(TranslateMerged(blocks, description, nothing).Rules(), p)
                             <==> forall b :: b in blocks ==> BlockHolds(b, RootedProcess(p)))
       <==> MergeKept(blocks)
  {
    hide Merged, SelectionHolds, BlockHolds, Fires, Fragment, TranslateMerged, MergeKept, SomeUnsupported;
    NothingUnsupported(blocks);
    if MergeKept(blocks) {
      forall p: Process ensures Fires(TranslateMerged(blocks, description, nothing).Rules(), p)
                           <==> forall b :: b in blocks ==> BlockHolds(b, RootedProcess(p)) {
        MergeCompiles(blocks, description, nothing, p);
        MergedHolds(blocks, RootedProcess(p));
      }
    } else {
      var p := MergeLoses(blocks);
      MergeCompiles(blocks, description, nothing, p);
      assert Fires(TranslateMerged(blocks, description, nothing).Rules(), p);
    }
  }

  lemma MergeFires(blocks: seq<Block>, description: string, nothing: string, p: Process)
    requires GoodMerge(blocks)
    ensures Fires(TranslateMerged(blocks, description, nothing).Rules(), p)
       <==> forall b :: b in blocks ==> BlockHolds(b, RootedProcess(p))
  {
    hide Merged, MergeKept, SelectionHolds, BlockHolds, Fires, Fragment, TranslateMerged, SomeUnsupported;
    NothingUnsupported(blocks);
    MergedHolds(blocks, RootedProcess(p));
    MergeCompiles(blocks, description, nothing, p);
  }

  // ---- the main result ----

  lemma NamedFires(blocks: seq<Named>, name: string, description: string, p: Process)
    requires Find(blocks, name).Some? ==> GoodBlock(Find(blocks, name).value)
    ensures Fires(TranslateNamed(Find(blocks, name), name, description).Rules(), p)
       <==> NamedHolds(blocks, name, RootedProcess(p))
  {
    hide Translated, Fires, SelectionHolds, Find, Fragment, HasImage;
    NothingFires(p);
    if Find(blocks, name).Some? { SelectionExact(Find(blocks, name).value.entries, description, p); }
  }

  lemma OneOfFires(blocks: seq<Named>, target: Target, excluded: bool, description: string, p: Process)
    requires InFragment(OneOf(target), blocks)
    ensures Fires(Translate(OneOf(target), blocks, description).Rules(), p)
       <==> Holds(OneOf(target), blocks, excluded, RootedProcess(p))
  {
    hide EachTranslated, Covered, BlockHolds, GoodBlock, Fires, Covers, SigmaCovers;
    CoveredMembers(blocks, target);
    EachFires(Covered(blocks, target), description, p);
    NothingFires(p);
    CoversSame(blocks, target);
  }

  lemma CoversSame(blocks: seq<Named>, target: Target)
    requires CoversAgree(target, blocks)
    ensures forall b :: b in blocks ==> (Covers(target, b.name) <==> SigmaCovers(target, b.name))
  {
    forall b | b in blocks && target.UnderscoredSelections? && SigmaCovers(target, b.name)
      ensures StartsWith(b.name, "selection")
    {
      assert b.name[..9] == b.name[..10][..9] == "selection_"[..9] == "selection";
    }
  }

  lemma OrFires(blocks: seq<Named>, names: seq<string>, excluded: bool, description: string, p: Process)
    requires InFragment(Or(names), blocks)
    ensures Fires(Translate(Or(names), blocks, description).Rules(), p)
       <==> Holds(Or(names), blocks, excluded, RootedProcess(p))
  {
    hide EachTranslated, Called, BlockHolds, GoodBlock, Fires, Find;
    CalledMembers(blocks, names);
    EachFires(Called(blocks, names), description, p);
    NothingFires(p);
    forall name | name in names && NamedHolds(blocks, name, RootedProcess(p))
      ensures Find(blocks, name).value in Called(blocks, names)
    {
      assert Find(blocks, name) == Some(Find(blocks, name).value);
    }
  }

  lemma AllOfFires(blocks: seq<Named>, target: Target, excluded: bool, description: string, p: Process)
    requires InFragment(AllOf(target), blocks)
    ensures Fires(Translate(AllOf(target), blocks, description).Rules(), p)
       <==> Holds(AllOf(target), blocks, excluded, RootedProcess(p))
  {
    hide Covered, BlockHolds, GoodMerge, Fires, Covers, SigmaCovers, TranslateMerged;
    var covered := Covered(blocks, target);
    CoveredMembers(blocks, target);
    NothingFires(p);
    CoversSame(blocks, target);
    forall n | n in blocks && Covers(target, n.name) ensures n.block in covered {
    }
    if covered != [] {
      assert covered[0] in covered;
      var n :| n in blocks && Covers(target, n.name) && n.block == covered[0];
      assert SigmaCovers(target, n.name);
      MergeFires(covered, description, "untranslatable AND-combined selection", p);
    }
  }

  lemma AndFires(blocks: seq<Named>, names: seq<string>, excluded: bool, description: string, p: Process)
    requires InFragment(And(names), blocks)
    ensures Fires(Translate(And(names), blocks, description).Rules(), p)
       <==> Holds(And(names), blocks, excluded, RootedProcess(p))
  {
    hide Called, BlockHolds, GoodMerge, Fires, Find, TranslateMerged;
    CalledMembers(blocks, names);
    NothingFires(p);
    if AllFound(blocks, names) {
      forall name | name in names ensures Find(blocks, name).Some? && Find(blocks, name).value in Called(blocks, names) {
        assert Find(blocks, name) == Some(Find(blocks, name).value);
      }
      MergeFires(Called(blocks, names), description, "no selection blocks in AND", p);
    } else {
      var i :| 0 <= i < |names| && Find(blocks, names[i]).None?;
      assert names[i] in names;
    }
  }

  /**
   * The compiled rules of a Sigma rule in the fragment fire exactly when its condition holds; for `and not`, which the
   * compiler reads without its second half, exactly when the first half does.
   */
  lemma CompiledMeansSigma(c: Condition, blocks: seq<Named>, excluded: bool, description: string, p: Process)
    requires InFragment(c, blocks)
    ensures Fires(Translate(c, blocks, description).Rules(), p)
       <==> Holds(Positive(c), blocks, excluded, RootedProcess(p))
    ensures Holds(c, blocks, excluded, RootedProcess(p)) ==> Fires(Translate(c, blocks, description).Rules(), p)
  {
    hide Fires, BlockHolds;
    match c
    case Simple(name) => NamedFires(blocks, name, description, p);
    case AndNot(name) => NamedFires(blocks, name, description, p);
    case OneOf(target) => OneOfFires(blocks, target, excluded, description, p);
    case AllOf(target) => AllOfFires(blocks, target, excluded, description, p);
    case Or(names) => OrFires(blocks, names, excluded, description, p);
    case And(names) => AndFires(blocks, names, excluded, description, p);
  }

  /** Where every path has a slash, nothing is reread. */
  lemma AbsolutePathsStand(p: Process)
    requires forall i :: 0 <= i < |p| ==> '/' in p[i].image
    ensures RootedProcess(p) == p
  {
  }
}

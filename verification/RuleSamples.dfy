/** Exactly when a compiled rule means what its Sigma condition does, decided on processes made of the rule's own values. */
module RuleSamples {
  import opened RuleCompiler
  import opened RuleMeaning
  import opened RuleProofs
  import opened RuleConditions
  import opened Text

  /** A conjunction of entries, and an alternative of conjunctions. */
  type Conjunction = seq<Entry>

  type Form = seq<Conjunction>

  predicate AllEntriesHold(c: Conjunction, p: Process) { forall e :: e in c ==> EntryHolds(e, p) }

  predicate FormHolds(form: Form, p: Process) { exists c :: c in form && AllEntriesHold(c, p) }

  predicate InTerms(c: Conjunction) { forall e :: e in c ==> FragmentEntry(e) }

  predicate FormInTerms(form: Form) { forall c :: c in form ==> InTerms(c) }

  // ---- sample processes ----

  predicate OnField(e: Entry, parent: bool) { if parent then ParentKey(e.key) else ImageKey(e.key) }

  predicate Asks(c: Conjunction, parent: bool) { exists e :: e in c && OnField(e, parent) }

  predicate Offers(c: Conjunction, parent: bool, v: string) { exists e :: e in c && OnField(e, parent) && v in e.values }

  /** A process made of the conjunction's own values, on which it holds: an image value as its path, or "/" without one,
      and below a parent value when a parent is asked for. */
  predicate Sample(c: Conjunction, q: Process) {
    && (if Asks(c, false) then Offers(c, false, Own(q)) else Own(q) == "/")
    && (if Asks(c, true) then |q| == 2 && Offers(c, true, Parent(q)) else |q| == 1)
    && (forall i :: 0 <= i < |q| ==> q[i].special == {}) && AllEntriesHold(c, q)
  }

  // ---- the samples of a conjunction, one by one ----

  function ValuesOn(c: Conjunction, parent: bool): seq<string> {
    if c == [] then []
    else ValuesOn(c[..|c| - 1], parent) + if OnField(c[|c| - 1], parent) then c[|c| - 1].values else []
  }

  function Owns(c: Conjunction): seq<string> { if Asks(c, false) then ValuesOn(c, false) else ["/"] }

  function Below(tops: seq<string>, own: string): seq<Process> {
    if tops == [] then [] else Below(tops[..|tops| - 1], own) + [Plainly([tops[|tops| - 1], own])]
  }

  function AllBelow(tops: seq<string>, owns: seq<string>): seq<Process> {
    if owns == [] then [] else AllBelow(tops, owns[..|owns| - 1]) + Below(tops, owns[|owns| - 1])
  }

  function Alone(owns: seq<string>): seq<Process> {
    if owns == [] then [] else Alone(owns[..|owns| - 1]) + [Plainly([owns[|owns| - 1]])]
  }

  function Holding(c: Conjunction, qs: seq<Process>): seq<Process> {
    if qs == [] then []
    else Holding(c, qs[..|qs| - 1]) + if AllEntriesHold(c, qs[|qs| - 1]) then [qs[|qs| - 1]] else []
  }

  function Samples(c: Conjunction): seq<Process> {
    Holding(c, if Asks(c, true) then AllBelow(ValuesOn(c, true), Owns(c)) else Alone(Owns(c)))
  }

  lemma {:induction false} ValuesOnExact(c: Conjunction, parent: bool)
    ensures forall v :: v in ValuesOn(c, parent) <==> Offers(c, parent, v)
    decreases |c|
  {
    hide OnField;
    if c == [] {
    } else {
      var init, last := c[..|c| - 1], c[|c| - 1];
      ValuesOnExact(init, parent);
      assert c == init + [last];
    }
  }

  lemma {:induction false} BelowExact(tops: seq<string>, own: string)
    ensures forall q :: q in Below(tops, own) <==> exists t :: t in tops && q == Plainly([t, own])
    decreases |tops|
  {
    hide Plainly;
    if tops == [] {
    } else {
      BelowExact(tops[..|tops| - 1], own);
      assert tops == tops[..|tops| - 1] + [tops[|tops| - 1]];
    }
  }

  lemma {:induction false} AllBelowExact(tops: seq<string>, owns: seq<string>)
    ensures forall q :: q in AllBelow(tops, owns) <==> exists t, o :: t in tops && o in owns && q == Plainly([t, o])
    decreases |owns|
  {
    hide Plainly, Below;
    if owns == [] {
    } else {
      var init, last := owns[..|owns| - 1], owns[|owns| - 1];
      AllBelowExact(tops, init);
      BelowExact(tops, last);
      assert owns == init + [last];
    }
  }

  lemma {:induction false} AloneExact(owns: seq<string>)
    ensures forall q :: q in Alone(owns) <==> exists o :: o in owns && q == Plainly([o])
    decreases |owns|
  {
    hide Plainly;
    if owns == [] {
    } else {
      AloneExact(owns[..|owns| - 1]);
      assert owns == owns[..|owns| - 1] + [owns[|owns| - 1]];
    }
  }

  lemma {:induction false} HoldingExact(c: Conjunction, qs: seq<Process>)
    ensures forall q :: q in Holding(c, qs) <==> q in qs && AllEntriesHold(c, q)
    decreases |qs|
  {
    hide AllEntriesHold;
    if qs == [] {
    } else {
      HoldingExact(c, qs[..|qs| - 1]);
      assert qs == qs[..|qs| - 1] + [qs[|qs| - 1]];
    }
  }

  lemma PlainlyExact(q: Process)
    requires forall i :: 0 <= i < |q| ==> q[i].special == {}
    ensures |q| == 1 ==> q == Plainly([Own(q)])
    ensures |q| == 2 ==> q == Plainly([Parent(q), Own(q)])
  {
  }

  /** The list holds exactly the samples. */
  lemma SamplesExact(c: Conjunction, q: Process)
    ensures q in Samples(c) <==> Sample(c, q)
  {
    hide AllEntriesHold, Offers, Asks, ValuesOn, AllBelow, Alone, Holding;
    var owns, tops := Owns(c), ValuesOn(c, true);
    ValuesOnExact(c, false);
    ValuesOnExact(c, true);
    AllBelowExact(tops, owns);
    AloneExact(owns);
    HoldingExact(c, if Asks(c, true) then AllBelow(tops, owns) else Alone(owns));
    if forall i :: 0 <= i < |q| ==> q[i].special == {} { PlainlyExact(q); }
  }

  lemma OfferedSlash(c: Conjunction, parent: bool, v: string)
    requires InTerms(c) && Offers(c, parent, v)
    ensures '/' in v
  {
    hide FragmentEntry, OnField;
    var e :| e in c && OnField(e, parent) && v in e.values;
    ValueSlash(e, v);
  }

  lemma SampleRooted(c: Conjunction, q: Process)
    requires InTerms(c) && Sample(c, q)
    ensures RootedProcess(q) == q
  {
    hide InTerms, Asks, Offers, AllEntriesHold;
    if Asks(c, false) { OfferedSlash(c, false, Own(q)); } else { assert "/"[0] == '/'; }
    if Asks(c, true) { OfferedSlash(c, true, Parent(q)); }
    AbsolutePathsStand(q);
  }

  /** Two name values that end one path are the same name. */
  lemma SameEnd(path: string, v: string, u: string)
    requires NameValue(v) && NameValue(u) && EndsWith(Lower(path), Lower(v)) && EndsWith(Lower(path), Lower(u))
    ensures Lower(v) == Lower(u)
  {
    var s, a, b := Lower(path), Lower(v), Lower(u);
    SlashAtFront(v);
    SlashAtFront(u);
    var x, y := s[..|s| - |a|], s[..|s| - |b|];
    assert s == x + ['/'] + a[1..] && s == y + ['/'] + b[1..];
    LastPart('/', x, a[1..], y, b[1..]);
    assert a == ['/'] + a[1..] && b == ['/'] + b[1..];
  }

  lemma SlashAtFront(v: string)
    requires NameValue(v)
    ensures Lower(v)[0] == '/' && Without('/', Lower(v)[1..])
  {
    forall i | 0 <= i < |v| - 1 ensures Lower(v)[1..][i] != '/' {
      assert v[1..][i] == v[1 + i];
      assert v[1..][i] in v[1..];
    }
  }

  lemma SameEnds(path: string, v: string, values: seq<string>)
    requires NameValue(v) && (forall i :: 0 <= i < |values| ==> NameValue(values[i]))
    requires EndsWith(Lower(path), Lower(v)) && SomeValueEnds(path, values)
    ensures SomeValueEnds(v, values)
  {
    hide Lower;
    var i :| 0 <= i < |values| && EndsWith(Lower(path), Lower(values[i]));
    SameEnd(path, v, values[i]);
    assert EndsWith(Lower(v), Lower(values[i]));
  }

  /** What ends the value ends the path it ends. */
  lemma EndsBelow(path: string, v: string, values: seq<string>)
    requires EndsWith(Lower(path), Lower(v)) && SomeValueEnds(v, values)
    ensures SomeValueEnds(path, values)
  {
    hide Lower;
    var i :| 0 <= i < |values| && EndsWith(Lower(v), Lower(values[i]));
    EndTransitive(Lower(path), Lower(v), Lower(values[i]));
  }

  lemma SlashEndsNothing(values: seq<string>)
    requires forall i :: 0 <= i < |values| ==> NameValue(values[i])
    ensures !SomeValueEnds("/", values)
  {
  }

  /** The path a sample puts for `path`: a value of an entry of the kind that ends it, or what stands for none. */
  lemma SamplePath(c: Conjunction, p: Process, parent: bool) returns (v: string)
    requires InTerms(c) && AllEntriesHold(c, p)
    requires Asks(c, parent)
    ensures parent ==> |p| >= 2
    ensures Offers(c, parent, v)
    ensures NameValue(v) && EndsWith(Lower(if parent then Parent(p) else Own(p)), Lower(v))
  {
    hide Lower, EndsWith, NameValue;
    var e :| e in c && OnField(e, parent);
    FragmentKey(e.key);
    assert EntryHolds(e, p);
    var path := if parent then Parent(p) else Own(p);
    var i :| 0 <= i < |e.values| && EndsWith(Lower(path), Lower(e.values[i]));
    v := e.values[i];
  }

  /** Where a conjunction holds, one of its samples stands for the process: whatever holds of it holds of the process. */
  lemma SampleBelow(c: Conjunction, p: Process) returns (q: Process)
    requires InTerms(c) && AllEntriesHold(c, p)
    ensures Sample(c, q)
    ensures forall e :: FragmentEntry(e) && EntryHolds(e, q) ==> EntryHolds(e, p)
  {
    hide SomeValueEnds, NameValue, EndsWith, Lower, ImageKey, ParentKey, EntryHolds;
    var own := "/";
    var asked := Asks(c, false);
    if asked { own := SamplePath(c, p, false); }
    if Asks(c, true) {
      var above := SamplePath(c, p, true);
      q := Plainly([above, own]);
    } else {
      q := Plainly([own]);
    }
    forall e | e in c ensures EntryHolds(e, q) { AsksFor(c, e); OntoSample(c, p, q, e, asked); }
    forall e | FragmentEntry(e) && EntryHolds(e, q) ensures EntryHolds(e, p) { FromSample(p, q, e, asked); }
  }

  /** `q` has a value ending the process's own path, or "/", and above it one ending the parent's path, or nothing. */
  predicate Stands(p: Process, q: Process, asked: bool) {
    && (if asked then NameValue(Own(q)) && EndsWith(Lower(Own(p)), Lower(Own(q))) else Own(q) == "/")
    && |q| <= 2 && (|q| == 2 ==> |p| >= 2 && NameValue(Parent(q)) && EndsWith(Lower(Parent(p)), Lower(Parent(q))))
  }

  lemma AsksFor(c: Conjunction, e: Entry)
    requires e in c
    ensures (ImageKey(e.key) ==> Asks(c, false)) && (ParentKey(e.key) ==> Asks(c, true))
  {
    assert ImageKey(e.key) ==> OnField(e, false);
    assert ParentKey(e.key) ==> OnField(e, true);
  }

  lemma OntoSample(c: Conjunction, p: Process, q: Process, e: Entry, asked: bool)
    requires InTerms(c) && e in c && EntryHolds(e, p) && Stands(p, q, asked)
    requires (ImageKey(e.key) ==> asked) && (ParentKey(e.key) ==> |q| == 2)
    ensures EntryHolds(e, q)
  {
    hide SomeValueEnds, NameValue, EndsWith, Lower;
    FragmentKey(e.key);
    if ParentKey(e.key) { SameEnds(Parent(p), Parent(q), e.values); } else { SameEnds(Own(p), Own(q), e.values); }
  }

  lemma FromSample(p: Process, q: Process, e: Entry, asked: bool)
    requires FragmentEntry(e) && EntryHolds(e, q) && Stands(p, q, asked)
    ensures EntryHolds(e, p)
  {
    hide SomeValueEnds, NameValue, EndsWith, Lower;
    FragmentKey(e.key);
    if ParentKey(e.key) {
      EndsBelow(Parent(p), Parent(q), e.values);
    } else {
      if !asked { SlashEndsNothing(e.values); }
      assert asked;
      EndsBelow(Own(p), Own(q), e.values);
    }
  }

  // ---- comparing forms ----

  /** Every sample of the one form satisfies the other. */
  predicate Contained(form: Form, other: Form) {
    forall c :: c in form ==> forall q :: q in Samples(c) ==> FormHolds(other, q)
  }

  lemma ContainedHolds(form: Form, other: Form, p: Process)
    requires FormInTerms(form) && FormInTerms(other) && Contained(form, other) && FormHolds(form, p)
    ensures FormHolds(other, p)
  {
    hide EntryHolds, FragmentEntry, Sample, Samples;
    var c :| c in form && AllEntriesHold(c, p);
    var q := SampleBelow(c, p);
    SamplesExact(c, q);
    var d :| d in other && AllEntriesHold(d, q);
    assert InTerms(d) && AllEntriesHold(d, p);
  }

  /** One form holds wherever the other does exactly when it holds on the other's samples. */
  lemma ContainedExact(form: Form, other: Form)
    requires FormInTerms(form) && FormInTerms(other)
    ensures Contained(form, other) <==> forall p: Process :: FormHolds(form, RootedProcess(p)) ==> FormHolds(other, RootedProcess(p))
  {
    hide FormHolds, Sample, Samples, InTerms;
    if Contained(form, other) {
      forall p: Process | FormHolds(form, RootedProcess(p)) ensures FormHolds(other, RootedProcess(p)) {
        ContainedHolds(form, other, RootedProcess(p));
      }
    } else {
      var c, q: Process :| c in form && q in Samples(c) && !FormHolds(other, q);
      SamplesExact(c, q);
      SampleRooted(c, q);
      SampleHolds(form, c, q);
      assert FormHolds(form, RootedProcess(q)) && !FormHolds(other, RootedProcess(q));
    }
  }

  lemma SampleHolds(form: Form, c: Conjunction, q: Process)
    requires c in form && q in Samples(c)
    ensures FormHolds(form, q)
  {
    hide Samples;
    SamplesExact(c, q);
  }
}

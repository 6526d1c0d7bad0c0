/** From a whole Sigma rule to blocklist rules: conditions, merging, deduplication and the blast shield. */
module RuleTranslator {
  import opened Options
  import opened RuleCompiler
  import opened Text

  // ---- the condition ----

  /** The length of the leading stretch without blanks. */
  function Stretch(text: string): (n: nat)
    ensures n <= |text| && (text != "" && !Blank(text[0]) ==> n > 0)
  {
    if text == "" || Blank(text[0]) then 0 else 1 + Stretch(text[1..])
  }

  /** The condition's words; every expression the reader matches separates its parts by blanks. */
  function Words(text: string): seq<string> {
    if text == "" then []
    else if Blank(text[0]) then Words(text[1..])
    else [text[..Stretch(text)]] + Words(text[Stretch(text)..])
  }

  predicate WordChar(c: char) { 'a' <= c <= 'z' || 'A' <= c <= 'Z' || '0' <= c <= '9' || c == '_' }

  /** `\w+` */
  predicate Word(s: string) { |s| > 0 && forall i :: 0 <= i < |s| ==> WordChar(s[i]) }

  function TargetOf(token: string): Option<Target> {
    if StartsWith(token, "selection_*") then Some(UnderscoredSelections)
    else if StartsWith(token, "selection*") then Some(Selections)
    else if StartsWith(token, "them") then Some(Them)
    else None
  }

  predicate Separated(tokens: seq<string>, separator: string) {
    && |tokens| >= 3 && |tokens| % 2 == 1
    && forall i :: 0 <= i < |tokens| ==> if i % 2 == 1 then tokens[i] == separator else Word(tokens[i])
  }

  function EverySecond(tokens: seq<string>): seq<string> {
    if tokens == [] then [] else [tokens[0]] + if |tokens| == 1 then [] else EverySecond(tokens[2..])
  }

  function ReadWords(tokens: seq<string>, text: string): Condition {
    if |tokens| >= 3 && tokens[0] == "1" && tokens[1] == "of" && TargetOf(tokens[2]).Some? then
      OneOf(TargetOf(tokens[2]).value)
    else if |tokens| >= 3 && tokens[0] == "all" && tokens[1] == "of" && TargetOf(tokens[2]).Some? then
      AllOf(TargetOf(tokens[2]).value)
    else if |tokens| >= 4 && Word(tokens[0]) && tokens[1] == "and" && tokens[2] == "not" then AndNot(tokens[0])
    else if |tokens| == 1 && Word(tokens[0]) then Simple(tokens[0])
    else if Separated(tokens, "or") then Or(EverySecond(tokens))
    else if Separated(tokens, "and") then And(EverySecond(tokens))
    else Complex(text)
  }

  function ParseCondition(text: string): Condition { ReadWords(Words(text), text) }

  // ---- blocks ----

  function Find(blocks: seq<Named>, name: string): Option<Block> {
    if blocks == [] then None
    else if blocks[0].name == name then Some(blocks[0].block)
    else Find(blocks[1..], name)
  }

  /** Both `selection*` and `selection_*` cover every name that starts with "selection". */
  predicate Covers(target: Target, name: string) { target.Them? || StartsWith(name, "selection") }

  function Covered(blocks: seq<Named>, target: Target): seq<Block> {
    if blocks == [] then []
    else
      var last := blocks[|blocks| - 1];
      Covered(blocks[..|blocks| - 1], target) + if Covers(target, last.name) then [last.block] else []
  }

  /** The blocks called by name that exist. */
  function Called(blocks: seq<Named>, names: seq<string>): seq<Block> {
    if names == [] then []
    else
      var last := Find(blocks, names[|names| - 1]);
      Called(blocks, names[..|names| - 1]) + if last.Some? then [last.value] else []
  }

  predicate AllFound(blocks: seq<Named>, names: seq<string>) {
    forall i :: 0 <= i < |names| ==> Find(blocks, names[i]).Some?
  }

  predicate BlockHasUnsupportedFields(block: Block) {
    match block
    case One(entries) => HasUnsupportedFields(entries)
    case Many(alternatives) => exists i :: 0 <= i < |alternatives| && HasUnsupportedFields(alternatives[i])
  }

  predicate SomeUnsupported(blocks: seq<Block>) {
    exists i :: 0 <= i < |blocks| && BlockHasUnsupportedFields(blocks[i])
  }

  // ---- `dict.update` ----

  function Put(selection: Selection, e: Entry): Selection {
    if selection == [] then [e]
    else if selection[0].key == e.key then [e] + selection[1..]
    else [selection[0]] + Put(selection[1..], e)
  }

  function Update(selection: Selection, entries: Selection): Selection {
    if entries == [] then selection
    else Put(Update(selection, entries[..|entries| - 1]), entries[|entries| - 1])
  }

  function Merged(blocks: seq<Block>): Selection {
    if blocks == [] then []
    else
      var last := blocks[|blocks| - 1];
      if last.One? then Update(Merged(blocks[..|blocks| - 1]), last.entries) else Merged(blocks[..|blocks| - 1])
  }

  // ---- one rule ----

  function EachTranslated(blocks: seq<Block>, description: string): seq<Rule> {
    if blocks == [] then []
    else
      var last := blocks[|blocks| - 1];
      EachTranslated(blocks[..|blocks| - 1], description) + if last.One? then Translated(last.entries, description) else []
  }

  function OrSkip(rules: seq<Rule>, reason: string): Outcome { if rules == [] then Skipped(reason) else Compiled(rules) }

  function TranslateNamed(block: Option<Block>, name: string, description: string): Outcome {
    if block.None? || !block.value.One? then Skipped("selection '" + name + "' not found or not a dict")
    else OrSkip(Translated(block.value.entries, description), "unsupported fields in selection")
  }

  function TranslateMerged(blocks: seq<Block>, description: string, nothing: string): Outcome {
    if SomeUnsupported(blocks) then Skipped("unsupported fields in AND-combined selection")
    else if Merged(blocks) == [] then Skipped(nothing)
    else OrSkip(Translated(Merged(blocks), description), "untranslatable AND-combined selection")
  }

  function FirstMissing(blocks: seq<Named>, names: seq<string>): string {
    if names == [] then "" else if Find(blocks, names[0]).None? then names[0] else FirstMissing(blocks, names[1..])
  }

  function Translate(c: Condition, blocks: seq<Named>, description: string): Outcome {
    match c
    case Simple(name) => TranslateNamed(Find(blocks, name), name, description)
    case AndNot(name) => TranslateNamed(Find(blocks, name), name, description)
    case OneOf(target) => OrSkip(EachTranslated(Covered(blocks, target), description), "no translatable selection blocks")
    case AllOf(target) =>
      if Covered(blocks, target) == [] then Skipped("no selection blocks found")
      else TranslateMerged(Covered(blocks, target), description, "untranslatable AND-combined selection")
    case Or(names) => OrSkip(EachTranslated(Called(blocks, names), description), "no translatable selections in OR")
    case And(names) =>
      if !AllFound(blocks, names) then Skipped("selection '" + FirstMissing(blocks, names) + "' not found")
      else TranslateMerged(Called(blocks, names), description, "no selection blocks in AND")
    case Complex(text) => Skipped("complex condition: " + text)
  }

  method MergeBlocks(blocks: seq<Block>) returns (merged: Selection)
    ensures merged == Merged(blocks)
  {
    merged := [];
    for i := 0 to |blocks|
      invariant merged == Merged(blocks[..i])
    {
      assert blocks[..i + 1][..i] == blocks[..i];
      if blocks[i].One? {
        merged := Update(merged, blocks[i].entries);
      }
    }
    assert blocks[..|blocks|] == blocks;
  }

  method TranslateEach(blocks: seq<Block>, description: string) returns (rules: seq<Rule>)
    ensures rules == EachTranslated(blocks, description)
  {
    hide Translated;
    rules := [];
    for i := 0 to |blocks|
      invariant rules == EachTranslated(blocks[..i], description)
    {
      assert blocks[..i + 1][..i] == blocks[..i];
      if blocks[i].One? {
        var more := TranslateSelection(blocks[i].entries, description);
        rules := rules + more;
      }
    }
    assert blocks[..|blocks|] == blocks;
  }

  method CoveredBlocks(blocks: seq<Named>, target: Target) returns (covered: seq<Block>)
    ensures covered == Covered(blocks, target)
  {
    covered := [];
    for i := 0 to |blocks|
      invariant covered == Covered(blocks[..i], target)
    {
      assert blocks[..i + 1][..i] == blocks[..i];
      if Covers(target, blocks[i].name) {
        covered := covered + [blocks[i].block];
      }
    }
    assert blocks[..|blocks|] == blocks;
  }

  /** The blocks called by name, up to the first that is missing. */
  method CallBlocks(blocks: seq<Named>, names: seq<string>) returns (called: seq<Block>, missing: Option<string>)
    ensures missing == if AllFound(blocks, names) then None else Some(FirstMissing(blocks, names))
    ensures missing.None? ==> called == Called(blocks, names)
  {
    called := [];
    for i := 0 to |names|
      invariant called == Called(blocks, names[..i])
      invariant forall j :: 0 <= j < i ==> Find(blocks, names[j]).Some?
      invariant FirstMissing(blocks, names[i..]) == FirstMissing(blocks, names)
    {
      assert names[..i + 1][..i] == names[..i];
      assert names[i..][0] == names[i] && names[i..][1..] == names[i + 1..];
      var block := Find(blocks, names[i]);
      if block.None? {
        return called, Some(names[i]);
      }
      called := called + [block.value];
    }
    assert names[..|names|] == names;
    missing := None;
  }

  method TranslateAnd(blocks: seq<Block>, description: string, nothing: string) returns (out: Outcome)
    ensures out == TranslateMerged(blocks, description, nothing)
  {
    hide Translated;
    if SomeUnsupported(blocks) {
      return Skipped("unsupported fields in AND-combined selection");
    }
    var merged := MergeBlocks(blocks);
    if merged == [] {
      return Skipped(nothing);
    }
    var rules := TranslateSelection(merged, description);
    out := OrSkip(rules, "untranslatable AND-combined selection");
  }

  method TranslateOr(blocks: seq<Named>, names: seq<string>, description: string) returns (rules: seq<Rule>)
    ensures rules == EachTranslated(Called(blocks, names), description)
  {
    hide Translated;
    rules := [];
    for i := 0 to |names|
      invariant rules == EachTranslated(Called(blocks, names[..i]), description)
    {
      assert names[..i + 1][..i] == names[..i];
      var block := Find(blocks, names[i]);
      ghost var before, after := Called(blocks, names[..i]), Called(blocks, names[..i + 1]);
      assert after == before + if block.Some? then [block.value] else [];
      if block.Some? {
        assert after[..|after| - 1] == before;
        assert rules + [] == rules;
        if block.value.One? {
          var more := TranslateSelection(block.value.entries, description);
          rules := rules + more;
        }
      } else {
        assert after == before;
      }
    }
    assert names[..|names|] == names;
  }

  method TranslateRule(c: Condition, blocks: seq<Named>, description: string) returns (out: Outcome)
    ensures out == Translate(c, blocks, description)
  {
    hide Translated, EachTranslated, Covered, Called, Merged;
    match c
    case Simple(name) =>
      out := TranslateOne(Find(blocks, name), name, description);
    case AndNot(name) =>
      out := TranslateOne(Find(blocks, name), name, description);
    case OneOf(target) =>
      var covered := CoveredBlocks(blocks, target);
      var rules := TranslateEach(covered, description);
      out := OrSkip(rules, "no translatable selection blocks");
    case AllOf(target) =>
      var covered := CoveredBlocks(blocks, target);
      if covered == [] {
        return Skipped("no selection blocks found");
      }
      out := TranslateAnd(covered, description, "untranslatable AND-combined selection");
    case Or(names) =>
      var rules := TranslateOr(blocks, names, description);
      out := OrSkip(rules, "no translatable selections in OR");
    case And(names) =>
      var called, missing := CallBlocks(blocks, names);
      if missing.Some? {
        return Skipped("selection '" + missing.value + "' not found");
      }
      out := TranslateAnd(called, description, "no selection blocks in AND");
    case Complex(text) =>
      out := Skipped("complex condition: " + text);
  }

  method TranslateOne(block: Option<Block>, name: string, description: string) returns (out: Outcome)
    ensures out == TranslateNamed(block, name, description)
  {
    hide Translated;
    if block.None? || !block.value.One? {
      return Skipped("selection '" + name + "' not found or not a dict");
    }
    var rules := TranslateSelection(block.value.entries, description);
    out := OrSkip(rules, "unsupported fields in selection");
  }

  // ---- all rules ----

  datatype SigmaRule = SigmaRule(status: string, level: string, category: string, product: string,
                                 condition: string, blocks: seq<Named>, description: string)

  /** The command line's filters, lowered as it lowers them. */
  datatype Wanted = Wanted(minLevel: string, statuses: seq<string>, categories: seq<string>, products: seq<string>)

  const LEVELS: seq<string> := ["informational", "low", "medium", "high", "critical"]

  /** The level's place in the order, or `other` when it has none. */
  function Rank(level: string, other: int): int {
    if level == LEVELS[0] then 0 else if level == LEVELS[1] then 1 else if level == LEVELS[2] then 2
    else if level == LEVELS[3] then 3 else if level == LEVELS[4] then 4 else other
  }

  predicate FilterRule(r: SigmaRule, w: Wanted) {
    && Lower(r.status) in w.statuses
    && Rank(Lower(r.level), -1) >= Rank(w.minLevel, 0)
    && (w.categories != [] ==> Lower(r.category) in w.categories)
    && (w.products != [] ==> Lower(r.product) in w.products)
  }

  function TranslateSource(r: SigmaRule): Outcome {
    if r.condition == "" then Skipped("no condition")
    else Translate(ParseCondition(r.condition), r.blocks, r.description)
  }

  function AllTranslated(sources: seq<SigmaRule>, w: Wanted): seq<Rule> {
    if sources == [] then []
    else
      var last := sources[|sources| - 1];
      AllTranslated(sources[..|sources| - 1], w) + if FilterRule(last, w) then TranslateSource(last).Rules() else []
  }

  predicate SameKey(a: Rule, b: Rule) { a.kind == b.kind && a.pattern == b.pattern && a.chain == b.chain }

  predicate KeyIn(r: Rule, rules: seq<Rule>) { exists i :: 0 <= i < |rules| && SameKey(rules[i], r) }

  /** Each key's first rule, in order. */
  function Deduped(rules: seq<Rule>): seq<Rule> {
    if rules == [] then []
    else
      var init, last := rules[..|rules| - 1], rules[|rules| - 1];
      Deduped(init) + if KeyIn(last, init) then [] else [last]
  }

  const UNSCOPED_DANGER_BINARIES: seq<string> := [
    "rm", "unlink", "john", "bash", "sh", "python", "python3", "perl", "awk", "sed", "systemctl", "journalctl",
    "*teamserver*", "httpx", "legion", "nuclei", "*sniper*", "hashcat"]

  predicate Shielded(r: Rule) {
    r.kind.ProcessName? && r.chain == "" && Lower(r.pattern) in UNSCOPED_DANGER_BINARIES
  }

  function Safe(rules: seq<Rule>): seq<Rule> {
    if rules == [] then []
    else Safe(rules[..|rules| - 1]) + if Shielded(rules[|rules| - 1]) then [] else [rules[|rules| - 1]]
  }

  function Dropped(rules: seq<Rule>): seq<Rule> {
    if rules == [] then []
    else Dropped(rules[..|rules| - 1]) + if Shielded(rules[|rules| - 1]) then [rules[|rules| - 1]] else []
  }

  method Deduplicate(rules: seq<Rule>) returns (unique: seq<Rule>)
    ensures unique == Deduped(rules)
  {
    var seen: set<(Kind, string, string)> := {};
    unique := [];
    for i := 0 to |rules|
      invariant unique == Deduped(rules[..i])
      invariant forall r: Rule :: (r.kind, r.pattern, r.chain) in seen <==> KeyIn(r, rules[..i])
    {
      var r := rules[i];
      var key := (r.kind, r.pattern, r.chain);
      assert rules[..i + 1][..i] == rules[..i];
      KeyInGrows(rules, i);
      if key !in seen {
        seen := seen + {key};
        unique := unique + [r];
      }
    }
    assert rules[..|rules|] == rules;
  }

  lemma KeyInGrows(rules: seq<Rule>, i: nat)
    requires i < |rules|
    ensures forall r :: KeyIn(r, rules[..i + 1]) <==> KeyIn(r, rules[..i]) || SameKey(rules[i], r)
  {
    forall r | KeyIn(r, rules[..i]) || SameKey(rules[i], r) ensures KeyIn(r, rules[..i + 1]) {
      if SameKey(rules[i], r) {
        assert SameKey(rules[..i + 1][i], r);
      } else {
        var j :| 0 <= j < i && SameKey(rules[..i][j], r);
        assert SameKey(rules[..i + 1][j], r);
      }
    }
    forall r | KeyIn(r, rules[..i + 1]) && !SameKey(rules[i], r) ensures KeyIn(r, rules[..i]) {
      var j :| 0 <= j < i + 1 && SameKey(rules[..i + 1][j], r);
      assert SameKey(rules[..i][j], r);
    }
  }

  method BlastShield(rules: seq<Rule>) returns (safe: seq<Rule>, shielded: seq<Rule>)
    ensures safe == Safe(rules) && shielded == Dropped(rules)
  {
    hide Shielded;
    safe, shielded := [], [];
    for i := 0 to |rules|
      invariant safe == Safe(rules[..i]) && shielded == Dropped(rules[..i])
    {
      assert rules[..i + 1][..i] == rules[..i];
      if Shielded(rules[i]) {
        shielded := shielded + [rules[i]];
      } else {
        safe := safe + [rules[i]];
      }
    }
    assert rules[..|rules|] == rules;
  }

  /** The compiler's main loop, its deduplication and its shield. */
  method CompileRules(sources: seq<SigmaRule>, w: Wanted) returns (rules: seq<Rule>, shielded: seq<Rule>)
    ensures rules == Safe(Deduped(AllTranslated(sources, w)))
    ensures shielded == Dropped(Deduped(AllTranslated(sources, w)))
  {
    hide Translate, ParseCondition, FilterRule;
    var compiled: seq<Rule> := [];
    for i := 0 to |sources|
      invariant compiled == AllTranslated(sources[..i], w)
    {
      assert sources[..i + 1][..i] == sources[..i];
      if !FilterRule(sources[i], w) {
        continue;
      }
      var out := Skipped("no condition");
      if sources[i].condition != "" {
        out := TranslateRule(ParseCondition(sources[i].condition), sources[i].blocks, sources[i].description);
      }
      compiled := compiled + out.Rules();
    }
    assert sources[..|sources|] == sources;
    var unique := Deduplicate(compiled);
    rules, shielded := BlastShield(unique);
  }
}

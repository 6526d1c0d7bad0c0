/** Compiling Sigma detections into native blocklist rules. */
module RuleCompiler {
  import opened Options
  import opened Text

  /** A selection key, split at its bars: the field and its modifiers. */
  type Key = parts: seq<string> | |parts| > 0 witness [""]

  /** One item of a selection block; a scalar value is a list of one. */
  datatype Entry = Entry(key: Key, values: seq<string>)

  type Selection = seq<Entry>

  /** A block is a mapping, or a list of mappings of which one must hold. */
  datatype Block = One(entries: Selection) | Many(alternatives: seq<Selection>)

  datatype Named = Named(name: string, block: Block)

  datatype Kind = ProcessName | FilePath

  /** `chain` is the chain filter's text; empty when the rule is unscoped. */
  datatype Rule = Rule(kind: Kind, pattern: string, chain: string, description: string)

  datatype Target = Them | Selections | UnderscoredSelections

  datatype Condition =
    | Simple(name: string)
    | AndNot(name: string)
    | OneOf(target: Target)
    | AllOf(target: Target)
    | Or(names: seq<string>)
    | And(names: seq<string>)
    | Complex(text: string)

  datatype Outcome = Compiled(rules: seq<Rule>) | Skipped(reason: string)
  {
    function Rules(): seq<Rule> { if Compiled? then rules else [] }
  }

  // ---- fields and modifiers ----

  const IMAGE := "image"
  const PARENT := "parentimage"
  const FILE := "targetfilename"

  predicate MatchesValue(modifier: string) { modifier in ["endswith", "contains", "startswith", "re"] }

  function FirstModifier(parts: seq<string>): string {
    if parts == [] then ""
    else if MatchesValue(Lower(parts[0])) then Lower(parts[0])
    else FirstModifier(parts[1..])
  }

  function Field(key: Key): string { Lower(key[0]) }

  function Modifier(key: Key): string { FirstModifier(key[1..]) }

  function NonEmpty(s: string): Option<string> { if s == "" then None else Some(s) }

  function SigmaModifierToFnmatch(value: string, modifier: string, isImage: bool): Option<string> {
    var base := Basename(value);
    if modifier == "endswith" then if isImage then NonEmpty(base) else Some("*" + value)
    else if modifier == "contains" then
      if isImage then if base == "" then None else Some("*" + base + "*") else Some("*" + value + "*")
    else if modifier == "startswith" then
      if isImage then if base == "" then None else Some(base + "*") else Some(value + "*")
    else if modifier == "re" then None
    else if isImage then NonEmpty(base)
    else Some(value)
  }

  function BuildChainFilter(parent: string, child: string): string { "** > " + parent + " > " + child }

  predicate IsCondition(key: Key) { key == ["condition"] }

  predicate Unsupported(key: Key) {
    !IsCondition(key) && (Field(key) !in [IMAGE, PARENT, FILE] || Modifier(key) == "re")
  }

  predicate HasUnsupportedFields(selection: Selection) {
    exists i :: 0 <= i < |selection| && Unsupported(selection[i].key)
  }

  // ---- one selection ----

  function ValuePatterns(values: seq<string>, modifier: string, isImage: bool): seq<string> {
    if values == [] then []
    else
      var last := SigmaModifierToFnmatch(values[|values| - 1], modifier, isImage);
      ValuePatterns(values[..|values| - 1], modifier, isImage) + if last.Some? then [last.value] else []
  }

  predicate Mentions(e: Entry, field: string) { !IsCondition(e.key) && Field(e.key) == field }

  /** The patterns the entries on `field` give, in order. */
  function Patterns(selection: Selection, field: string): seq<string> {
    if selection == [] then []
    else
      var last := selection[|selection| - 1];
      Patterns(selection[..|selection| - 1], field)
      + if Mentions(last, field) then ValuePatterns(last.values, Modifier(last.key), field != FILE) else []
  }

  predicate Present(selection: Selection, field: string) {
    exists i :: 0 <= i < |selection| && Mentions(selection[i], field)
  }

  function ScopedRules(image: string, parents: seq<string>, description: string): seq<Rule> {
    if parents == [] then []
    else
      ScopedRules(image, parents[..|parents| - 1], description)
      + [Rule(ProcessName, image, BuildChainFilter(parents[|parents| - 1], image), description)]
  }

  function ImageRules(images: seq<string>, parents: seq<string>, description: string): seq<Rule> {
    if images == [] then []
    else
      var image := images[|images| - 1];
      ImageRules(images[..|images| - 1], parents, description)
      + if parents == [] then [Rule(ProcessName, image, "", description)] else ScopedRules(image, parents, description)
  }

  function FileRules(files: seq<string>, description: string): seq<Rule> {
    if files == [] then []
    else FileRules(files[..|files| - 1], description) + [Rule(FilePath, files[|files| - 1], "", description)]
  }

  /** The rules of one selection: none unless every field is supported and every present field has a pattern. */
  function Translated(selection: Selection, description: string): seq<Rule> {
    var images, parents, files := Patterns(selection, IMAGE), Patterns(selection, PARENT), Patterns(selection, FILE);
    if HasUnsupportedFields(selection)
       || (Present(selection, IMAGE) && images == [])
       || (Present(selection, PARENT) && parents == [])
       || (Present(selection, FILE) && files == [])
       || (images == [] && files == [])
    then []
    else ImageRules(images, parents, description) + FileRules(files, description)
  }

  method CollectPatterns(values: seq<string>, modifier: string, isImage: bool) returns (patterns: seq<string>)
    ensures patterns == ValuePatterns(values, modifier, isImage)
  {
    patterns := [];
    for i := 0 to |values|
      invariant patterns == ValuePatterns(values[..i], modifier, isImage)
    {
      assert values[..i + 1][..i] == values[..i];
      var pattern := SigmaModifierToFnmatch(values[i], modifier, isImage);
      if pattern.Some? {
        patterns := patterns + [pattern.value];
      }
    }
    assert values[..|values|] == values;
  }

  method CollectImageRules(images: seq<string>, parents: seq<string>, description: string) returns (rules: seq<Rule>)
    ensures rules == ImageRules(images, parents, description)
  {
    rules := [];
    for i := 0 to |images|
      invariant rules == ImageRules(images[..i], parents, description)
    {
      assert images[..i + 1][..i] == images[..i];
      if parents != [] {
        var scoped := [];
        for j := 0 to |parents|
          invariant scoped == ScopedRules(images[i], parents[..j], description)
        {
          assert parents[..j + 1][..j] == parents[..j];
          scoped := scoped + [Rule(ProcessName, images[i], BuildChainFilter(parents[j], images[i]), description)];
        }
        assert parents[..|parents|] == parents;
        rules := rules + scoped;
      } else {
        rules := rules + [Rule(ProcessName, images[i], "", description)];
      }
    }
    assert images[..|images|] == images;
  }

  method CollectFileRules(files: seq<string>, description: string) returns (rules: seq<Rule>)
    ensures rules == FileRules(files, description)
  {
    rules := [];
    for i := 0 to |files|
      invariant rules == FileRules(files[..i], description)
    {
      assert files[..i + 1][..i] == files[..i];
      rules := rules + [Rule(FilePath, files[i], "", description)];
    }
    assert files[..|files|] == files;
  }

  method TranslateSelection(selection: Selection, description: string) returns (rules: seq<Rule>)
    ensures rules == Translated(selection, description)
  {
    hide SigmaModifierToFnmatch, ValuePatterns, ImageRules, FileRules;
    if HasUnsupportedFields(selection) {
      return [];
    }
    var images, parents, files := [], [], [];
    var hasImage, hasParent, hasFile := false, false, false;
    for i := 0 to |selection|
      invariant images == Patterns(selection[..i], IMAGE) && hasImage == Present(selection[..i], IMAGE)
      invariant parents == Patterns(selection[..i], PARENT) && hasParent == Present(selection[..i], PARENT)
      invariant files == Patterns(selection[..i], FILE) && hasFile == Present(selection[..i], FILE)
    {
      var entry := selection[i];
      PresentGrows(selection, i);
      assert selection[..i + 1][..i] == selection[..i];
      if !IsCondition(entry.key) {
        var field, modifier := Field(entry.key), Modifier(entry.key);
        var patterns := CollectPatterns(entry.values, modifier, field != FILE);
        if field == IMAGE {
          hasImage := true;
          images := images + patterns;
        } else if field == PARENT {
          hasParent := true;
          parents := parents + patterns;
        } else if field == FILE {
          hasFile := true;
          files := files + patterns;
        }
      }
    }
    assert selection[..|selection|] == selection;
    if (hasImage && images == []) || (hasParent && parents == []) || (hasFile && files == []) {
      return [];
    }
    if images == [] && files == [] {
      return [];
    }
    var imageRules := CollectImageRules(images, parents, description);
    var fileRules := CollectFileRules(files, description);
    rules := imageRules + fileRules;
  }

  lemma PresentGrows(selection: Selection, i: nat)
    requires i < |selection|
    ensures forall field :: Present(selection[..i + 1], field) <==> Present(selection[..i], field) || Mentions(selection[i], field)
  {
    forall field | Present(selection[..i], field) || Mentions(selection[i], field)
      ensures Present(selection[..i + 1], field)
    {
      if Mentions(selection[i], field) {
        assert Mentions(selection[..i + 1][i], field);
      } else {
        var j :| 0 <= j < i && Mentions(selection[..i][j], field);
        assert Mentions(selection[..i + 1][j], field);
      }
    }
    forall field | Present(selection[..i + 1], field) && !Mentions(selection[i], field)
      ensures Present(selection[..i], field)
    {
      var j :| 0 <= j < i + 1 && Mentions(selection[..i + 1][j], field);
      assert Mentions(selection[..i][j], field);
    }
  }
}

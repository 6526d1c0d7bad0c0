/** Reading a condition back from its text. */
module ConditionText {
  import opened Options
  import opened RuleCompiler
  import opened RuleTranslator
  import opened Text

  // ---- words ----

  predicate Unbroken(token: string) { token != "" && forall i :: 0 <= i < |token| ==> !Blank(token[i]) }

  lemma {:induction false} WholeStretch(token: string, rest: string)
    requires (forall i :: 0 <= i < |token| ==> !Blank(token[i])) && (rest == "" || Blank(rest[0]))
    ensures Stretch(token + rest) == |token|
    decreases |token|
  {
    if token == "" {
      assert token + rest == rest;
    } else {
      assert (token + rest)[1..] == token[1..] + rest;
      WholeStretch(token[1..], rest);
    }
  }

  lemma FirstWord(token: string, rest: string)
    requires Unbroken(token) && (rest == "" || Blank(rest[0]))
    ensures Words(token + rest) == [token] + Words(rest)
  {
    var text := token + rest;
    WholeStretch(token, rest);
    assert text[|token|..] == rest && text[..|token|] == token;
  }

  lemma OneWord(token: string)
    requires Unbroken(token)
    ensures Words(token) == [token]
  {
    assert token + "" == token;
    FirstWord(token, "");
  }

  lemma {:induction false} StretchStops(text: string)
    ensures forall i :: 0 <= i < Stretch(text) ==> !Blank(text[i])
    ensures Stretch(text) < |text| ==> Blank(text[Stretch(text)])
    decreases |text|
  {
    if text == "" || Blank(text[0]) {
    } else {
      StretchStops(text[1..]);
      forall i | 0 <= i < Stretch(text) ensures !Blank(text[i]) {
        if i > 0 { assert text[i] == text[1..][i - 1]; }
      }
    }
  }

  /** A blank separates the words on its two sides. */
  lemma {:induction false} WordsJoin(a: string, blank: char, b: string)
    requires Blank(blank)
    ensures Words(a + [blank] + b) == Words(a) + Words(b)
    decreases |a|
  {
    hide Words;
    NoWords();
    if a == "" {
      BlankFirst(blank, b);
      assert a + [blank] + b == [blank] + b;
    } else if Blank(a[0]) {
      WordsJoin(a[1..], blank, b);
      BlankFirst(a[0], a[1..]);
      BlankFirst(a[0], a[1..] + [blank] + b);
      assert a == [a[0]] + a[1..] && a + [blank] + b == [a[0]] + (a[1..] + [blank] + b);
    } else {
      var word, left := a[..Stretch(a)], a[Stretch(a)..];
      StretchStops(a);
      FirstWord(word, left);
      FirstWord(word, left + [blank] + b);
      WordsJoin(left, blank, b);
      assert a == word + left && a + [blank] + b == word + (left + [blank] + b);
    }
  }

  lemma NoWords()
    ensures Words("") == []
  {
  }

  lemma BlankFirst(blank: char, rest: string)
    requires Blank(blank)
    ensures Words([blank] + rest) == Words(rest)
  {
    assert ([blank] + rest)[1..] == rest;
  }

  lemma {:induction false} WordsOfJoined(tokens: seq<string>)
    requires forall t :: t in tokens ==> Unbroken(t)
    ensures Words(Join(tokens, " ")) == tokens
    decreases |tokens|
  {
    hide Unbroken, Blank, Words;
    if tokens == [] {
      NoWords();
    } else if |tokens| == 1 {
      OneWord(tokens[0]);
    } else {
      var init, last := tokens[..|tokens| - 1], tokens[|tokens| - 1];
      SpaceIsBlank();
      WordsOfJoined(init);
      WordsJoin(Join(init, " "), ' ', last);
      OneWord(last);
      assert Join(tokens, " ") == Join(init, " ") + [' '] + last;
      assert tokens == init + [last];
    }
  }

  lemma SpaceIsBlank()
    ensures Blank(' ')
  {
  }

  // ---- writing a condition ----

  function TargetText(t: Target): string {
    match t
    case Them => "them"
    case Selections => "selection*"
    case UnderscoredSelections => "selection_*"
  }

  function Interleaved(names: seq<string>, word: string): seq<string> {
    if names == [] then [] else [names[0]] + if |names| == 1 then [] else [word] + Interleaved(names[1..], word)
  }

  function Render(c: Condition, tail: seq<string>): seq<string> {
    match c
    case Simple(name) => [name]
    case AndNot(name) => [name, "and", "not"] + tail
    case OneOf(target) => ["1", "of", TargetText(target)] + tail
    case AllOf(target) => ["all", "of", TargetText(target)] + tail
    case Or(names) => Interleaved(names, "or")
    case And(names) => Interleaved(names, "and")
    case Complex(_) => []
  }

  predicate Readable(c: Condition, tail: seq<string>) {
    match c
    case Simple(name) => Word(name)
    case AndNot(name) => Word(name) && tail != []
    case OneOf(_) => true
    case AllOf(_) => true
    case Or(names) => |names| >= 2 && forall n :: n in names ==> Word(n)
    case And(names) => |names| >= 2 && names[1] != "not" && forall n :: n in names ==> Word(n)
    case Complex(_) => false
  }

  lemma {:induction false} InterleavedShape(names: seq<string>, word: string)
    requires names != [] && forall n :: n in names ==> Word(n)
    ensures var ts := Interleaved(names, word);
      && |ts| == 2 * |names| - 1 && ts[0] == names[0] && (|names| >= 2 ==> ts[1] == word && ts[2] == names[1])
      && forall i :: 0 <= i < |ts| ==> if i % 2 == 1 then ts[i] == word else Word(ts[i])
    decreases |names|
  {
    hide Word;
    var ts := Interleaved(names, word);
    assert names[0] in names;
    if |names| <= 1 {
    } else {
      var rest := Interleaved(names[1..], word);
      InterleavedShape(names[1..], word);
      assert ts == [names[0], word] + rest;
      forall i | 0 <= i < |ts| ensures if i % 2 == 1 then ts[i] == word else Word(ts[i]) {
        if i >= 2 { assert ts[i] == rest[i - 2]; }
      }
    }
  }

  lemma {:induction false} InterleavedReads(names: seq<string>, word: string)
    ensures EverySecond(Interleaved(names, word)) == names
    decreases |names|
  {
    if names == [] {
    } else if |names| == 1 {
      assert Interleaved(names, word) == names;
    } else {
      InterleavedReads(names[1..], word);
      PairRead(names[0], word, Interleaved(names[1..], word));
      assert Interleaved(names, word) == [names[0], word] + Interleaved(names[1..], word);
    }
  }

  lemma PairRead(name: string, word: string, rest: seq<string>)
    ensures EverySecond([name, word] + rest) == [name] + EverySecond(rest)
  {
    assert ([name, word] + rest)[2..] == rest;
  }

  // ---- reading it back ----

  lemma WordUnbroken(name: string)
    requires Word(name)
    ensures Unbroken(name)
  {
  }

  lemma KeywordsUnbroken(t: Target)
    ensures Unbroken("1") && Unbroken("of") && Unbroken("all") && Unbroken("and") && Unbroken("or") && Unbroken("not")
    ensures Unbroken(TargetText(t))
  {
  }

  lemma {:induction false} InterleavedUnbroken(names: seq<string>, word: string)
    requires Unbroken(word) && forall n :: n in names ==> Word(n)
    ensures forall t :: t in Interleaved(names, word) ==> Unbroken(t)
    decreases |names|
  {
    hide Word, Unbroken;
    if names == [] {
    } else {
      WordUnbroken(names[0]);
      InterleavedUnbroken(names[1..], word);
    }
  }

  lemma RenderedUnbroken(c: Condition, tail: seq<string>)
    requires Readable(c, tail) && forall t :: t in tail ==> Unbroken(t)
    ensures forall t :: t in Render(c, tail) ==> Unbroken(t)
  {
    hide Word, Unbroken;
    KeywordsUnbroken(if c.OneOf? || c.AllOf? then c.target else Them);
    match c
    case Simple(name) => WordUnbroken(name);
    case AndNot(name) => WordUnbroken(name);
    case OneOf(target) =>
    case AllOf(target) =>
    case Or(names) => InterleavedUnbroken(names, "or");
    case And(names) => InterleavedUnbroken(names, "and");
  }

  /** The six readable forms read back; whatever follows `1 of` and `all of` a target is not read at all. */
  lemma WordsReadBack(c: Condition, tail: seq<string>, text: string)
    requires Readable(c, tail)
    ensures ReadWords(Render(c, tail), text) == c
  {
    hide Word;
    match c
    case Simple(name) =>
    case AndNot(name) => KeywordsDiffer();
    case OneOf(target) => TargetReads(target);
    case AllOf(target) => TargetReads(target);
    case Or(names) =>
      KeywordsDiffer();
      InterleavedShape(names, "or");
      InterleavedReads(names, "or");
    case And(names) =>
      KeywordsDiffer();
      InterleavedShape(names, "and");
      InterleavedReads(names, "and");
      assert Render(c, tail)[1] != "or";
  }

  /** However the words are spaced, a text made of a readable condition's words reads as that condition. */
  lemma AnySpacingReads(c: Condition, tail: seq<string>, text: string)
    requires Readable(c, tail) && Words(text) == Render(c, tail)
    ensures ParseCondition(text) == c
  {
    WordsReadBack(c, tail, text);
  }

  /** A readable condition written out with single blanks reads as itself, whatever follows a target or an `and not`. */
  lemma ConditionRoundTrip(c: Condition, tail: seq<string>)
    requires Readable(c, tail) && forall t :: t in tail ==> Unbroken(t)
    ensures ParseCondition(Join(Render(c, tail), " ")) == c
  {
    hide Unbroken, Readable, Render, Words, ReadWords;
    RenderedUnbroken(c, tail);
    WordsOfJoined(Render(c, tail));
    AnySpacingReads(c, tail, Join(Render(c, tail), " "));
  }

  lemma KeywordsDiffer()
    ensures "and" != "of" && "or" != "of" && "and" != "or"
  {
    assert |"and"| == 3 && "or"[1] == 'r' && "of"[1] == 'f';
  }

  lemma TargetReads(t: Target)
    ensures TargetOf(TargetText(t)) == Some(t)
    ensures "1" != "all"
  {
    var text := TargetText(t);
    assert |"1"| == 1 && |"all"| == 3;
    if t.UnderscoredSelections? {
      assert text[..11] == text;
    } else if t.Selections? {
      assert text[..10] == text && |text| == 10;
    } else {
      assert text[..4] == text && |text| == 4;
    }
  }
}

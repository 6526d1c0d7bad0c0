/** The text of a chain filter and the steps that the agent reads from it. */
module ChainFilter {
  import opened RuleCompiler
  import opened Text

  // ---- splitting and stripping ----

  /** `text.split(">")`. */
  function Split(text: string): (parts: seq<string>)
    ensures |parts| > 0
  {
    if text == "" then [""]
    else
      var rest := Split(text[1..]);
      if text[0] == '>' then [""] + rest else [[text[0]] + rest[0]] + rest[1..]
  }

  function TrimLeft(s: string): string { if s != "" && Blank(s[0]) then TrimLeft(s[1..]) else s }

  function TrimRight(s: string): string { if s != "" && Blank(s[|s| - 1]) then TrimRight(s[..|s| - 1]) else s }

  function Strip(s: string): string { TrimRight(TrimLeft(s)) }

  function Stripped(parts: seq<string>): (r: seq<string>)
    ensures |r| == |parts| && forall i :: 0 <= i < |parts| ==> r[i] == Strip(parts[i])
  {
    seq(|parts|, i requires 0 <= i < |parts| => Strip(parts[i]))
  }

  /** The steps of a filter, as the agent reads them. */
  function Steps(filter: string): (steps: seq<string>)
    ensures |steps| > 0
  {
    Stripped(Split(filter))
  }

  // ---- names that survive ----

  /** Neither a separator inside nor a blank at either end. */
  predicate Clear(name: string) {
    '>' !in name && (name != "" ==> !Blank(name[0]) && !Blank(name[|name| - 1]))
  }

  /** The prefixes that turn a step into a test of the command line, the container or a regular expression. */
  predicate Prefixed(step: string) {
    StartsWith(step, "cmd_re:") || StartsWith(step, "cmd:") || StartsWith(step, "ctr:") || StartsWith(step, "re:")
  }

  /** A name that a filter can carry. */
  predicate Legible(name: string) { Clear(name) && !Prefixed(name) }

  lemma {:induction false} SplitWhole(text: string)
    ensures |Split(text)| == 1 <==> '>' !in text
    ensures '>' !in text ==> Split(text) == [text]
    decreases |text|
  {
    if text == "" {
    } else {
      SplitWhole(text[1..]);
      assert text == [text[0]] + text[1..];
      if text[0] != '>' && '>' !in text[1..] { assert Split(text) == [[text[0]] + text[1..]] + []; }
    }
  }

  lemma SplitFirst(c: char, rest: string)
    ensures Split([c] + rest)
         == if c == '>' then [""] + Split(rest) else [[c] + Split(rest)[0]] + Split(rest)[1..]
  {
    assert ([c] + rest)[1..] == rest;
  }

  lemma FirstApart(a: string, after: string)
    requires a != ""
    ensures a == [a[0]] + a[1..] && a + after == [a[0]] + (a[1..] + after)
  {
  }

  lemma {:induction false} SplitJoin(a: string, b: string)
    ensures Split(a + (">" + b)) == Split(a) + Split(b)
    decreases |a|
  {
    hide Split;
    var sep := '>';
    if a == "" {
      SplitWhole("");
      SplitFirst(sep, b);
      assert a + (">" + b) == [sep] + b;
    } else {
      var c, rest := a[0], a[1..];
      FirstApart(a, ">" + b);
      SplitJoin(rest, b);
      SplitFirst(c, rest);
      SplitFirst(c, rest + (">" + b));
      FirstOfJoin(c, Split(rest), Split(b));
    }
  }

  lemma FirstOfJoin(c: char, x: seq<string>, y: seq<string>)
    requires x != []
    ensures [[c] + (x + y)[0]] + (x + y)[1..] == [[c] + x[0]] + x[1..] + y
    ensures [""] + (x + y) == [""] + x + y
  {
    assert (x + y)[1..] == x[1..] + y;
  }

  lemma {:induction false} TrimLeftEnd(s: string, c: char)
    requires Blank(c)
    ensures TrimRight(TrimLeft(s + [c])) == TrimRight(TrimLeft(s))
    decreases |s|
  {
    if s == "" {
      assert (s + [c])[1..] == "" && s + [c] == [c];
    } else if Blank(s[0]) {
      TrimLeftEnd(s[1..], c);
      assert (s + [c])[1..] == s[1..] + [c];
    } else {
      assert (s + [c])[..|s|] == s;
    }
  }

  lemma StripBlanks(s: string)
    ensures Strip(" " + s) == Strip(s) && Strip(" " + s + " ") == Strip(s)
  {
    assert (" " + s)[1..] == s && " " + s + " " == (" " + s) + [' '];
    TrimLeftEnd(" " + s, ' ');
  }

  lemma {:induction false} TrimRightEnds(s: string)
    ensures TrimRight(s) <= s && (TrimRight(s) != "" ==> !Blank(TrimRight(s)[|TrimRight(s)| - 1]))
    ensures TrimRight(s) == s <==> s == "" || !Blank(s[|s| - 1])
    decreases |s|
  {
    if s != "" && Blank(s[|s| - 1]) { TrimRightEnds(s[..|s| - 1]); }
  }

  lemma {:induction false} TrimLeftEnds(s: string)
    ensures |TrimLeft(s)| <= |s| && TrimLeft(s) == s[|s| - |TrimLeft(s)|..]
    ensures TrimLeft(s) != "" ==> !Blank(TrimLeft(s)[0])
    decreases |s|
  {
    if s != "" && Blank(s[0]) { TrimLeftEnds(s[1..]); }
  }

  lemma PartOf(part: string, whole: string, from: nat)
    requires from + |part| <= |whole| && part == whole[from..from + |part|]
    ensures forall c :: c in part ==> c in whole
    ensures |part| == |whole| ==> part == whole
  {
    forall c | c in part ensures c in whole {
      var i :| 0 <= i < |part| && part[i] == c;
      assert whole[from + i] == c;
    }
    if |part| == |whole| { assert whole[0..|whole|] == whole; }
  }

  /** Stripping takes characters off the ends until none there is blank, and nothing when none is. */
  lemma StripEnds(s: string)
    ensures |Strip(s)| <= |s| && (|Strip(s)| == |s| ==> Strip(s) == s)
    ensures Strip(s) == s <==> s == "" || (!Blank(s[0]) && !Blank(s[|s| - 1]))
    ensures '>' !in s ==> Clear(Strip(s))
  {
    hide TrimLeft, TrimRight, Blank;
    var left, both := TrimLeft(s), Strip(s);
    TrimLeftEnds(s);
    TrimRightEnds(left);
    PartOf(both, s, |s| - |left|);
    if s != "" && !Blank(s[0]) { NothingTrimmed(s); }
  }

  lemma NothingTrimmed(s: string)
    requires s != "" && !Blank(s[0])
    ensures TrimLeft(s) == s
  {
  }

  /** What a filter is split into, in terms of its two names. */
  lemma FilterSplits(parent: string, child: string)
    ensures Split(BuildChainFilter(parent, child)) == ["** "] + Split(" " + parent + " ") + Split(" " + child)
  {
    var text := BuildChainFilter(parent, child);
    assert text == "** " + (">" + (" " + parent + " " + (">" + (" " + child))));
    SplitJoin("** ", " " + parent + " " + (">" + (" " + child)));
    SplitJoin(" " + parent + " ", " " + child);
    SplitWhole("** ");
    assert Split("** ") == ["** "];
  }

  /** Steps that hold one name each: the filter had no separator but its own. */
  lemma ThreeSteps(parent: string, child: string)
    ensures |Steps(BuildChainFilter(parent, child))| >= 3 && Steps(BuildChainFilter(parent, child))[0] == "**"
    ensures |Steps(BuildChainFilter(parent, child))| == 3 <==> '>' !in parent && '>' !in child
    ensures '>' !in parent && '>' !in child ==> Steps(BuildChainFilter(parent, child)) == ["**", Strip(parent), Strip(child)]
  {
    hide BuildChainFilter, Split, Strip;
    var p, c := " " + parent + " ", " " + child;
    FilterSplits(parent, child);
    SplitWhole(p);
    SplitWhole(c);
    StripBlanks(parent);
    StripBlanks(child);
    assert "**" + " " == "** ";
    StarsStrip();
    assert '>' in p <==> '>' in parent by { assert forall x :: x in p <==> x in parent || x == ' '; }
    assert '>' in c <==> '>' in child;
  }

  lemma StarsStrip()
    ensures Strip("** ") == "**"
  {
    assert "** "[..2] == "**";
  }

  /** A chain filter reads back as written exactly when neither name holds a separator or begins or ends in a blank. */
  lemma FilterReadsBack(parent: string, child: string)
    ensures Steps(BuildChainFilter(parent, child)) == ["**", parent, child] <==> Clear(parent) && Clear(child)
  {
    hide BuildChainFilter, Split, Strip, Steps;
    ThreeSteps(parent, child);
    StripEnds(parent);
    StripEnds(child);
  }

  lemma ClearIgnoresCase(a: string, b: string)
    requires Lower(a) == Lower(b) && Clear(a)
    ensures Clear(b)
  {
    forall i | 0 <= i < |b| ensures b[i] != '>' && (Blank(b[i]) <==> Blank(a[i])) {
      assert Lower(a)[i] == Lower(b)[i];
      assert a[i] in a;
    }
  }
}

/** Strings as sequences of characters: the few library operations that several files use. */
module Text {

  function LowerChar(c: char): char {
    if 'A' <= c <= 'Z' then ((c as int) - ('A' as int) + ('a' as int)) as char else c
  }

  function Lower(s: string): (r: string)
    ensures |r| == |s|
    ensures forall i :: 0 <= i < |s| ==> r[i] == LowerChar(s[i])
  {
    seq(|s|, i requires 0 <= i < |s| => LowerChar(s[i]))
  }

  function Join(parts: seq<string>, sep: string): string {
    if parts == [] then ""
    else if |parts| == 1 then parts[0]
    else Join(parts[..|parts| - 1], sep) + sep + parts[|parts| - 1]
  }

  /** White space, in ASCII. */
  predicate Blank(c: char) { c == ' ' || 9 as char <= c <= 13 as char || 28 as char <= c <= 31 as char }

  predicate StartsWith(s: string, start: string) { |start| <= |s| && s[..|start|] == start }

  /** `value.rsplit("/", 1)[-1]`. */
  function Basename(value: string): (base: string)
    ensures |base| <= |value| && value[|value| - |base|..] == base
    ensures '/' !in base
    ensures |base| < |value| ==> value[|value| - |base| - 1] == '/'
  {
    if value == "" || value[|value| - 1] == '/' then ""
    else Basename(value[..|value| - 1]) + [value[|value| - 1]]
  }

  predicate Without(c: char, s: string) { forall i :: 0 <= i < |s| ==> s[i] != c }

  /** What stands before the first `c` is determined. */
  lemma FirstPart(c: char, a: string, x: string, b: string, y: string)
    requires Without(c, a) && Without(c, b) && a + [c] + x == b + [c] + y
    ensures a == b && x == y
  {
    var s := a + [c] + x;
    assert s[|a|] == c && s[|b|] == c;
    forall i | 0 <= i < |a| ensures s[i] != c { assert s[i] == a[i]; }
    forall i | 0 <= i < |b| ensures s[i] != c { assert s[i] == b[i]; }
    assert a == s[..|a|] && x == s[|a| + 1..] && y == s[|b| + 1..];
  }

  /** What stands behind the last `c` is determined. */
  lemma LastPart(c: char, a: string, x: string, b: string, y: string)
    requires Without(c, x) && Without(c, y) && a + [c] + x == b + [c] + y
    ensures a == b && x == y
  {
    var s := a + [c] + x;
    assert s[|a|] == c && s[|b|] == c;
    forall i | |a| < i < |s| ensures s[i] != c { assert s[i] == x[i - |a| - 1]; }
    forall i | |b| < i < |s| ensures s[i] != c { assert s[i] == y[i - |b| - 1]; }
    assert a == s[..|a|] && x == s[|a| + 1..] && y == s[|b| + 1..];
  }
}

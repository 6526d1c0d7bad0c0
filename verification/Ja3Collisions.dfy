/** Exactly when two ClientHellos have the same fingerprint text. */
module Ja3Collisions {
  import opened Options
  import opened Text
  import opened Words
  import opened ClientHello
  import opened ClientHelloProofs

  // ---- the text determines the five lists ----

  predicate Digits(s: string) { |s| > 0 && forall i :: 0 <= i < |s| ==> '0' <= s[i] <= '9' }

  predicate AllDigits(parts: seq<string>) { forall i :: 0 <= i < |parts| ==> Digits(parts[i]) }

  lemma {:induction false} DecIsDigits(n: nat)
    ensures Digits(Dec(n))
    decreases n
  {
    if n < 10 {
    } else {
      DecIsDigits(n / 10);
    }
  }

  lemma {:induction false} DecInjective(m: nat, n: nat)
    requires Dec(m) == Dec(n)
    ensures m == n
    decreases m
  {
    DecIsDigits(m / 10);
    DecIsDigits(n / 10);
    var s := Dec(m);
    assert s[|s| - 1] as int - '0' as int == m % 10 == n % 10;
    if m < 10 {
    } else {
      assert Dec(m / 10) == s[..|s| - 1] == Dec(n / 10);
      DecInjective(m / 10, n / 10);
    }
  }

  lemma {:induction false} JoinWithoutComma(parts: seq<string>)
    requires AllDigits(parts)
    ensures Without(',', Join(parts, "-"))
    ensures parts != [] ==> |Join(parts, "-")| > 0
  {
    if |parts| <= 1 {
    } else {
      JoinWithoutComma(parts[..|parts| - 1]);
    }
  }

  lemma {:induction false} JoinInjective(a: seq<string>, b: seq<string>)
    requires AllDigits(a) && AllDigits(b) && Join(a, "-") == Join(b, "-")
    ensures a == b
    decreases |a|
  {
    JoinWithoutComma(a);
    JoinWithoutComma(b);
    if |a| > 1 && |b| > 1 {
      var m, n := |a| - 1, |b| - 1;
      LastPart('-', Join(a[..m], "-"), a[m], Join(b[..n], "-"), b[n]);
      JoinInjective(a[..m], b[..n]);
      assert a == a[..m] + [a[m]] && b == b[..n] + [b[n]];
    } else if |a| > 1 && |b| == 1 {
      OneIsNotMany(b[0], a);
    } else if |a| == 1 && |b| > 1 {
      OneIsNotMany(a[0], b);
    }
  }

  lemma OneIsNotMany(one: string, many: seq<string>)
    requires Digits(one) && |many| > 1
    ensures one != Join(many, "-")
  {
    var front := Join(many[..|many| - 1], "-");
    assert Join(many, "-")[|front|] == '-';
  }

  predicate Numeric(l: Lists) { AllDigits(l.exts) && AllDigits(l.curves) && AllDigits(l.formats) }

  lemma TextInjective(v: u16, cs: seq<string>, l: Lists, w: u16, ds: seq<string>, k: Lists)
    requires AllDigits(cs) && AllDigits(ds) && Numeric(l) && Numeric(k) && Ja3Text(v, cs, l) == Ja3Text(w, ds, k)
    ensures v == w && cs == ds && l == k
  {
    hide Dec, Join;
    DecIsDigits(v);
    DecIsDigits(w);
    JoinWithoutComma(cs); JoinWithoutComma(ds);
    JoinWithoutComma(l.exts); JoinWithoutComma(k.exts);
    JoinWithoutComma(l.curves); JoinWithoutComma(k.curves);
    FivePartsInjective(Dec(v), Join(cs, "-"), Join(l.exts, "-"), Join(l.curves, "-"), Join(l.formats, "-"),
                       Dec(w), Join(ds, "-"), Join(k.exts, "-"), Join(k.curves, "-"), Join(k.formats, "-"));
    DecInjective(v, w);
    JoinInjective(cs, ds);
    JoinInjective(l.exts, k.exts);
    JoinInjective(l.curves, k.curves);
    JoinInjective(l.formats, k.formats);
  }

  lemma FivePartsInjective(a: string, b: string, c: string, d: string, e: string,
                           p: string, q: string, r: string, s: string, t: string)
    requires Without(',', a) && Without(',', b) && Without(',', c) && Without(',', d)
    requires Without(',', p) && Without(',', q) && Without(',', r) && Without(',', s)
    requires a + "," + b + "," + c + "," + d + "," + e == p + "," + q + "," + r + "," + s + "," + t
    ensures a == p && b == q && c == r && d == s && e == t
  {
    var x3, y3 := d + "," + e, s + "," + t;
    var x2, y2 := c + "," + x3, r + "," + y3;
    var x1, y1 := b + "," + x2, q + "," + y2;
    assert a + "," + b + "," + c + "," + d + "," + e == a + "," + x1;
    assert p + "," + q + "," + r + "," + s + "," + t == p + "," + y1;
    FirstPart(',', a, x1, p, y1);
    FirstPart(',', b, x2, q, y2);
    FirstPart(',', c, x3, r, y3);
    FirstPart(',', d, e, s, t);
  }

  // ---- in terms of what the hello carries ----

  /** The values the mask test keeps. */
  function Kept(values: seq<u16>): (r: seq<u16>) {
    if values == [] then [] else (if Grease(values[0]) then [] else [values[0]]) + Kept(values[1..])
  }

  function Kinds(es: seq<Extension>): seq<u16> { if es == [] then [] else [Kind(es[0])] + Kinds(es[1..]) }

  function AllGroups(es: seq<Extension>): seq<u16> {
    if es == [] then [] else (if es[0].Groups? then es[0].groups else []) + AllGroups(es[1..])
  }

  function AllFormats(es: seq<Extension>): seq<byte> {
    if es == [] then [] else (if es[0].PointFormats? then es[0].formats else []) + AllFormats(es[1..])
  }

  lemma {:induction false} ShownIsKept(values: seq<u16>)
    ensures ShownAll(values) == DecWords(Kept(values))
  {
    if values == [] {
    } else {
      ShownIsKept(values[1..]);
      var rest := Kept(values[1..]);
      if Grease(values[0]) {
        assert Kept(values) == rest;
      } else {
        assert Kept(values) == [values[0]] + rest;
        assert Kept(values)[1..] == rest;
      }
    }
  }

  function DecWords(ns: seq<u16>): seq<string> { if ns == [] then [] else [Dec(ns[0])] + DecWords(ns[1..]) }

  lemma {:induction false} DecWordsInjective(a: seq<u16>, b: seq<u16>)
    requires DecWords(a) == DecWords(b)
    ensures a == b
    decreases |a|
  {
    if a == [] || b == [] {
    } else {
      assert Dec(a[0]) == DecWords(a)[0] == DecWords(b)[0] == Dec(b[0]);
      DecInjective(a[0], b[0]);
      assert DecWords(a[1..]) == DecWords(a)[1..] == DecWords(b)[1..] == DecWords(b[1..]);
      DecWordsInjective(a[1..], b[1..]);
      assert a == [a[0]] + a[1..] && b == [b[0]] + b[1..];
    }
  }

  lemma {:induction false} DecAllIsDecWords(bs: seq<byte>, ns: seq<u16>)
    requires |bs| == |ns| && forall i :: 0 <= i < |bs| ==> bs[i] == ns[i]
    ensures DecAll(bs) == DecWords(ns)
    decreases |bs|
  {
    if bs == [] {
    } else {
      DecAllIsDecWords(bs[1..], ns[1..]);
    }
  }

  lemma DecAllInjective(a: seq<byte>, b: seq<byte>)
    requires DecAll(a) == DecAll(b)
    ensures a == b
  {
    var m: seq<u16>, n: seq<u16> := seq(|a|, i requires 0 <= i < |a| => a[i]), seq(|b|, i requires 0 <= i < |b| => b[i]);
    DecAllIsDecWords(a, m);
    DecAllIsDecWords(b, n);
    DecWordsInjective(m, n);
    assert forall i :: 0 <= i < |a| ==> a[i] == m[i];
  }

  lemma {:induction false} DecWordsNumeric(ns: seq<u16>)
    ensures AllDigits(DecWords(ns))
  {
    if ns == [] {
    } else {
      DecIsDigits(ns[0]);
      DecWordsNumeric(ns[1..]);
    }
  }

  lemma {:induction false} DecAllNumeric(bs: seq<byte>)
    ensures AllDigits(DecAll(bs))
  {
    if bs == [] {
    } else {
      DecIsDigits(bs[0]);
      DecAllNumeric(bs[1..]);
    }
  }

  lemma {:induction false} ShownAppends(a: seq<u16>, b: seq<u16>)
    ensures ShownAll(a + b) == ShownAll(a) + ShownAll(b)
    decreases |a|
  {
    hide Shown;
    if a == [] {
      assert a + b == b;
    } else {
      ShownAppends(a[1..], b);
      assert (a + b)[1..] == a[1..] + b;
      assert Shown(a[0]) + (ShownAll(a[1..]) + ShownAll(b)) == Shown(a[0]) + ShownAll(a[1..]) + ShownAll(b);
    }
  }

  lemma DecAllFirst(b: byte, rest: seq<byte>)
    ensures DecAll([b] + rest) == [Dec(b)] + DecAll(rest)
  {
    assert ([b] + rest)[1..] == rest;
  }

  lemma {:induction false} DecAllAppends(a: seq<byte>, b: seq<byte>)
    ensures DecAll(a + b) == DecAll(a) + DecAll(b)
    decreases |a|
  {
    hide Dec;
    if a == [] {
      assert a + b == b;
    } else {
      DecAllAppends(a[1..], b);
      DecAllFirst(a[0], a[1..]);
      DecAllFirst(a[0], a[1..] + b);
      assert a == [a[0]] + a[1..] && a + b == [a[0]] + (a[1..] + b);
    }
  }

  lemma {:induction false} ContributionsByField(es: seq<Extension>)
    ensures Contributions(es).exts == ShownAll(Kinds(es))
    ensures Contributions(es).curves == ShownAll(AllGroups(es))
    ensures Contributions(es).formats == DecAll(AllFormats(es))
  {
    if es == [] {
    } else {
      var e, rest := es[0], es[1..];
      ContributionsByField(rest);
      assert Kinds(es)[1..] == Kinds(rest);
      ShownAppends(if e.Groups? then e.groups else [], AllGroups(rest));
      DecAllAppends(if e.PointFormats? then e.formats else [], AllFormats(rest));
    }
  }

  lemma ContributionsNumeric(es: seq<Extension>)
    ensures Numeric(Contributions(es))
  {
    ContributionsByField(es);
    ShownNumeric(Kinds(es));
    ShownNumeric(AllGroups(es));
    DecAllNumeric(AllFormats(es));
  }

  lemma ShownNumeric(values: seq<u16>)
    ensures AllDigits(ShownAll(values))
  {
    ShownIsKept(values);
    DecWordsNumeric(Kept(values));
  }

  lemma ShownSame(a: seq<u16>, b: seq<u16>)
    ensures ShownAll(a) == ShownAll(b) <==> Kept(a) == Kept(b)
  {
    ShownIsKept(a);
    ShownIsKept(b);
    if ShownAll(a) == ShownAll(b) { DecWordsInjective(Kept(a), Kept(b)); }
  }

  lemma ContributionsSame(a: seq<Extension>, b: seq<Extension>)
    ensures Contributions(a) == Contributions(b)
       <==> Kept(Kinds(a)) == Kept(Kinds(b)) && Kept(AllGroups(a)) == Kept(AllGroups(b)) && AllFormats(a) == AllFormats(b)
  {
    ContributionsByField(a);
    ContributionsByField(b);
    ShownSame(Kinds(a), Kinds(b));
    ShownSame(AllGroups(a), AllGroups(b));
    if DecAll(AllFormats(a)) == DecAll(AllFormats(b)) { DecAllInjective(AllFormats(a), AllFormats(b)); }
  }

  /**
   * Two hellos share a fingerprint text exactly when they agree on the version, on the unmasked ciphers, extension types
   * and groups, each in order, and on the point formats.
   */
  lemma SameFingerprintIff(a: Hello, b: Hello)
    requires WellFormed(a) && WellFormed(b)
    ensures Ja3(Encode(a)) == Ja3(Encode(b))
       <==> && a.version == b.version && Kept(a.ciphers) == Kept(b.ciphers)
            && Kept(Kinds(ExtensionsOf(a))) == Kept(Kinds(ExtensionsOf(b)))
            && Kept(AllGroups(ExtensionsOf(a))) == Kept(AllGroups(ExtensionsOf(b)))
            && AllFormats(ExtensionsOf(a)) == AllFormats(ExtensionsOf(b))
  {
    hide Ja3, Encode, Contributions, ShownAll, Kept, Ja3Text;
    var l, k := Contributions(ExtensionsOf(a)), Contributions(ExtensionsOf(b));
    Ja3OfHello(a);
    Ja3OfHello(b);
    ShownNumeric(a.ciphers);
    ShownNumeric(b.ciphers);
    ContributionsNumeric(ExtensionsOf(a));
    ContributionsNumeric(ExtensionsOf(b));
    ShownSame(a.ciphers, b.ciphers);
    ContributionsSame(ExtensionsOf(a), ExtensionsOf(b));
    if Ja3(Encode(a)) == Ja3(Encode(b)) {
      TextInjective(a.version, ShownAll(a.ciphers), l, b.version, ShownAll(b.ciphers), k);
    }
  }

  // ---- the mask against the reserved values ----

  /** Every value that the mask drops is reserved. */
  predicate Clean(values: seq<u16>) { forall v :: v in values && Grease(v) ==> Reserved(v) }

  lemma {:induction false} KeptIsShorter(values: seq<u16>)
    ensures |Kept(values)| <= |Bare(values)|
  {
    hide Grease, Reserved;
    if values == [] {
    } else {
      KeptIsShorter(values[1..]);
      ReservedIsGrease(values[0]);
    }
  }

  /** The mask leaves of a list what dropping the reserved values leaves exactly when it drops reserved values only. */
  lemma {:induction false} MaskExact(values: seq<u16>)
    ensures Kept(values) == Bare(values) <==> Clean(values)
  {
    hide Grease, Reserved;
    if values == [] {
    } else {
      var first, rest := values[0], values[1..];
      MaskExact(rest);
      KeptIsShorter(rest);
      ReservedIsGrease(first);
      assert values == [first] + rest;
      assert Kept(values) == (if Grease(first) then [] else [first]) + Kept(rest);
      assert Bare(values) == (if Reserved(first) then [] else [first]) + Bare(rest);
      SameFront(if Grease(first) then [] else [first], Kept(rest), Bare(rest));
    }
  }

  lemma SameFront(front: seq<u16>, a: seq<u16>, b: seq<u16>)
    ensures front + a == front + b <==> a == b
  {
    assert (front + a)[|front|..] == a && (front + b)[|front|..] == b;
  }

  /** The text that dropping exactly the reserved values would give. */
  function IntendedText(h: Hello): string {
    var es := ExtensionsOf(h);
    Ja3Text(h.version, DecWords(Bare(h.ciphers)),
            Lists(DecWords(Bare(Kinds(es))), DecWords(Bare(AllGroups(es))), DecAll(AllFormats(es))))
  }

  lemma WordsSame(values: seq<u16>)
    ensures AllDigits(ShownAll(values)) && AllDigits(DecWords(Bare(values)))
    ensures ShownAll(values) == DecWords(Bare(values)) <==> Clean(values)
  {
    ShownIsKept(values);
    DecWordsNumeric(Kept(values));
    DecWordsNumeric(Bare(values));
    MaskExact(values);
    if ShownAll(values) == DecWords(Bare(values)) { DecWordsInjective(Kept(values), Bare(values)); }
  }

  /** A well-formed hello has the intended text exactly when the mask drops none but reserved ciphers, types and groups. */
  lemma IntendedExact(h: Hello)
    requires WellFormed(h)
    ensures Ja3(Encode(h)) == Some(IntendedText(h))
       <==> Clean(h.ciphers) && Clean(Kinds(ExtensionsOf(h))) && Clean(AllGroups(ExtensionsOf(h)))
  {
    hide Ja3, Encode, Contributions, ShownAll, Kept, Bare, Clean, Ja3Text, DecWords, DecAll, AllDigits;
    var es := ExtensionsOf(h);
    var meant := Lists(DecWords(Bare(Kinds(es))), DecWords(Bare(AllGroups(es))), DecAll(AllFormats(es)));
    Ja3OfHello(h);
    ContributionsByField(es);
    ContributionsNumeric(es);
    WordsSame(h.ciphers);
    WordsSame(Kinds(es));
    WordsSame(AllGroups(es));
    DecAllNumeric(AllFormats(es));
    if Ja3(Encode(h)) == Some(IntendedText(h)) {
      TextInjective(h.version, ShownAll(h.ciphers), Contributions(es), h.version, DecWords(Bare(h.ciphers)), meant);
    }
  }
}

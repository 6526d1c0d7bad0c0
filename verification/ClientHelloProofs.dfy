/** Encoding a ClientHello, and what the walkers read back from the encoding. */
module ClientHelloProofs {
  import opened Options
  import opened Words
  import opened ClientHello

  /** `more` stands for further entries of the server name list (section 3 of RFC 6066). */
  datatype Extension =
    | ServerName(host: string, more: seq<byte>)
    | Groups(groups: seq<u16>)
    | PointFormats(formats: seq<byte>)
    | Plain(kind: u16, body: seq<byte>)

  /** Section 7.4.1.2 of RFC 5246. `record` and `length` are the four and three header bytes no walker reads. */
  datatype Hello = Hello(record: seq<byte>, length: seq<byte>, version: u16, random: seq<byte>, session: seq<byte>,
                         ciphers: seq<u16>, compression: seq<byte>, extensions: Option<seq<Extension>>)

  function Kind(e: Extension): u16 {
    match e
    case ServerName(_, _) => 0
    case Groups(_) => 10
    case PointFormats(_) => 11
    case Plain(kind, _) => kind
  }

  predicate Fits(e: Extension) {
    match e
    case ServerName(host, more) => |host| + |more| + 5 < 0x1_0000 && forall i :: 0 <= i < |host| ==> host[i] < 128 as char
    case Groups(groups) => 2 * |groups| + 2 < 0x1_0000
    case PointFormats(formats) => |formats| < 256
    case Plain(kind, body) => |body| < 0x1_0000 && kind !in {0, 10, 11}
  }

  predicate AllFit(es: seq<Extension>) { forall i :: 0 <= i < |es| ==> Fits(es[i]) }

  function EncAll(values: seq<u16>): (r: seq<byte>)
    ensures |r| == 2 * |values|
  {
    if values == [] then [] else Enc16(values[0]) + EncAll(values[1..])
  }

  function Octets(s: string): (r: seq<byte>)
    requires forall i :: 0 <= i < |s| ==> s[i] < 128 as char
    ensures |r| == |s| && forall i :: 0 <= i < |s| ==> r[i] == s[i] as int
  {
    seq(|s|, i requires 0 <= i < |s| => s[i] as int)
  }

  function Body(e: Extension): (r: seq<byte>)
    requires Fits(e)
    ensures |r| < 0x1_0000
  {
    match e
    case ServerName(host, more) => Enc16(3 + |host| + |more|) + [0] + Enc16(|host|) + Octets(host) + more
    case Groups(groups) => Enc16(2 * |groups|) + EncAll(groups)
    case PointFormats(formats) => [|formats|] + formats
    case Plain(_, body) => body
  }

  function EncOne(e: Extension): (r: seq<byte>)
    requires Fits(e)
    ensures |r| == 4 + |Body(e)|
  {
    Enc16(Kind(e)) + Enc16(|Body(e)|) + Body(e)
  }

  function EncExtensions(es: seq<Extension>): seq<byte>
    requires AllFit(es)
  {
    if es == [] then [] else EncOne(es[0]) + EncExtensions(es[1..])
  }

  predicate WellFormed(h: Hello) {
    && |h.record| == 4 && |h.length| == 3 && |h.random| == 32
    && |h.session| < 256 && 2 * |h.ciphers| < 0x1_0000 && |h.compression| < 256
    && (h.extensions.Some? ==>
          && AllFit(h.extensions.value)
          && |EncExtensions(h.extensions.value)| < 0x1_0000)
  }

  function Head(h: Hello): (r: seq<byte>)
    requires WellFormed(h)
    ensures |r| == 43
  {
    [0x16] + h.record + [1] + h.length + Enc16(h.version) + h.random
  }

  function UpToCiphers(h: Hello): seq<byte>
    requires WellFormed(h)
  {
    Head(h) + ([|h.session|] + h.session)
  }

  function UpToCompression(h: Hello): seq<byte>
    requires WellFormed(h)
  {
    UpToCiphers(h) + (Enc16(2 * |h.ciphers|) + EncAll(h.ciphers))
  }

  function UpToExtensions(h: Hello): seq<byte>
    requires WellFormed(h)
  {
    UpToCompression(h) + ([|h.compression|] + h.compression)
  }

  function Encode(h: Hello): seq<byte>
    requires WellFormed(h)
  {
    UpToExtensions(h)
    + match h.extensions
      case None => []
      case Some(es) => Enc16(|EncExtensions(es)|) + EncExtensions(es)
  }

  // ---- reading inside a longer string ----

  lemma U16Inside(before: seq<byte>, n: u16, after: seq<byte>)
    ensures U16(before + Enc16(n) + after, |before|) == n
  {
    var p := before + Enc16(n) + after;
    assert p[|before|] == Enc16(n)[0] && p[|before| + 1] == Enc16(n)[1];
  }

  lemma U16Prefix(p: seq<byte>, q: seq<byte>, i: nat)
    requires i + 2 <= |p| && p <= q
    ensures U16(q, i) == U16(p, i)
  {
    assert q[i] == p[i] && q[i + 1] == p[i + 1];
  }

  function ShownAll(values: seq<u16>): seq<string> {
    if values == [] then [] else Shown(values[0]) + ShownAll(values[1..])
  }

  function DecAll(bs: seq<byte>): seq<string> {
    if bs == [] then [] else [Dec(bs[0])] + DecAll(bs[1..])
  }

  lemma {:induction false} ValuesInside(before: seq<byte>, values: seq<u16>, after: seq<byte>)
    ensures Values(before + EncAll(values) + after, |before|, |before| + 2 * |values|) == ShownAll(values)
    decreases |values|
  {
    if values == [] {
    } else {
      var rest := values[1..];
      var front := before + Enc16(values[0]);
      assert before + EncAll(values) + after == front + EncAll(rest) + after;
      assert front + EncAll(rest) + after == before + Enc16(values[0]) + (EncAll(rest) + after);
      U16Inside(before, values[0], EncAll(rest) + after);
      ValuesInside(front, rest, after);
    }
  }

  lemma {:induction false} BytesInside(before: seq<byte>, bs: seq<byte>)
    ensures Bytes(before + bs, |before|, |before| + |bs|) == DecAll(bs)
    decreases |bs|
  {
    if bs == [] {
    } else {
      assert before + bs == (before + [bs[0]]) + bs[1..];
      assert (before + bs)[|before|] == bs[0];
      BytesInside(before + [bs[0]], bs[1..]);
    }
  }

  // ---- where the fields stand ----

  lemma HeadLayout(h: Hello)
    requires WellFormed(h)
    ensures Head(h)[0] == 0x16 && Head(h)[5] == 1 && U16(Head(h), 9) == h.version
  {
    var before := [0x16] + h.record + [1] + h.length;
    assert |before| == 9 && before[0] == 0x16 && before[5] == 1;
    U16Inside(before, h.version, h.random);
  }

  lemma PrefixLayout(h: Hello)
    requires WellFormed(h)
    ensures Head(h) <= UpToCiphers(h) <= UpToCompression(h) <= UpToExtensions(h) <= Encode(h)
    ensures |UpToCiphers(h)| == 44 + |h.session|
    ensures |UpToCompression(h)| == |UpToCiphers(h)| + 2 + 2 * |h.ciphers|
    ensures |UpToExtensions(h)| == |UpToCompression(h)| + 1 + |h.compression|
  {
  }

  lemma FieldLayout(h: Hello)
    requires WellFormed(h)
    ensures UpToCiphers(h)[43] == |h.session|
    ensures U16(UpToCompression(h), |UpToCiphers(h)|) == 2 * |h.ciphers|
    ensures UpToExtensions(h)[|UpToCompression(h)|] == |h.compression|
  {
    var ciphers := UpToCiphers(h);
    U16Inside(ciphers, 2 * |h.ciphers|, EncAll(h.ciphers));
    assert UpToCompression(h) == ciphers + Enc16(2 * |h.ciphers|) + EncAll(h.ciphers);
  }

  /** The fields stand where both walkers look for them. */
  lemma Layout(h: Hello, p: seq<byte>)
    requires WellFormed(h) && p == Encode(h)
    ensures |p| >= 47 && p[0] == 0x16 && p[5] == 1 && U16(p, 9) == h.version
    ensures CiphersAt(p) == |UpToCiphers(h)|
    ensures |UpToCompression(h)| == CiphersAt(p) + 2 + 2 * |h.ciphers| < |UpToExtensions(h)| <= |p|
    ensures U16(p, CiphersAt(p)) == 2 * |h.ciphers|
    ensures |UpToExtensions(h)| == |UpToCompression(h)| + 1 + |h.compression|
    ensures p[|UpToCompression(h)|] == |h.compression|
  {
    PrefixLayout(h);
    HeadLayout(h);
    FieldLayout(h);
    U16Prefix(Head(h), p, 9);
    U16Prefix(UpToCompression(h), p, |UpToCiphers(h)|);
    assert p[0] == Head(h)[0] && p[5] == Head(h)[5];
    assert p[43] == UpToCiphers(h)[43];
    assert p[|UpToCompression(h)|] == UpToExtensions(h)[|UpToCompression(h)|];
  }

  lemma ExtensionLayout(h: Hello, p: seq<byte>)
    requires WellFormed(h) && p == Encode(h) && h.extensions.Some?
    ensures var c, bs := |UpToExtensions(h)|, EncExtensions(h.extensions.value);
      c + 2 <= |p| && U16(p, c) == |bs| && |p| == c + 2 + |bs|
      && p == p[..c + 2] + bs
  {
    var bs := EncExtensions(h.extensions.value);
    assert p == UpToExtensions(h) + Enc16(|bs|) + bs;
    U16Inside(UpToExtensions(h), |bs|, bs);
    assert p[..|UpToExtensions(h)| + 2] == UpToExtensions(h) + Enc16(|bs|);
  }

  lemma TypeAndSize(before: seq<byte>, kind: u16, size: u16, after: seq<byte>, p: seq<byte>)
    requires p == before + Enc16(kind) + Enc16(size) + after
    ensures U16(p, |before|) == kind && U16(p, |before| + 2) == size
    ensures |p| == |before| + 4 + |after| && p[|before| + 4..] == after
  {
    assert p == before + Enc16(kind) + (Enc16(size) + after);
    U16Inside(before, kind, Enc16(size) + after);
    U16Inside(before + Enc16(kind), size, after);
  }

  /** Extension `e` stands at `at`. */
  predicate Stands(p: seq<byte>, at: nat, e: Extension)
    requires Fits(e)
  {
    && at + 4 + |Body(e)| <= |p|
    && U16(p, at) == Kind(e) && U16(p, at + 2) == |Body(e)|
    && p[at + 4..at + 4 + |Body(e)|] == Body(e)
  }

  /** The first extension as the walkers meet it behind `before`. */
  lemma FirstExtension(before: seq<byte>, es: seq<Extension>, p: seq<byte>)
    requires es != [] && AllFit(es) && p == before + EncExtensions(es)
    ensures AllFit(es[1..]) && Stands(p, |before|, es[0])
    ensures p == before + EncOne(es[0]) + EncExtensions(es[1..])
  {
    var kind, body, rest := Kind(es[0]), Body(es[0]), EncExtensions(es[1..]);
    SplitExtension(before, kind, body, rest);
    TypeAndSize(before, kind, |body|, body + rest, p);
    assert p[|before| + 4..|before| + 4 + |body|] == p[|before| + 4..][..|body|];
  }

  lemma SplitExtension(before: seq<byte>, kind: u16, body: seq<byte>, rest: seq<byte>)
    requires |body| < 0x1_0000
    ensures var one := Enc16(kind) + Enc16(|body|) + body;
      before + (one + rest) == before + one + rest
      && before + (one + rest) == before + Enc16(kind) + Enc16(|body|) + (body + rest)
  {
  }

  // ---- the server name ----

  /** The name of the first server_name extension. */
  function FirstName(es: seq<Extension>): Option<string> {
    if es == [] then None
    else if es[0].ServerName? then Some(es[0].host)
    else FirstName(es[1..])
  }

  lemma {:induction false} AsciiOfOctets(s: string)
    requires forall i :: 0 <= i < |s| ==> s[i] < 128 as char
    ensures Ascii(Octets(s)) == s
  {
    if s == [] {
    } else {
      var init := s[..|s| - 1];
      AsciiOfOctets(init);
      assert Octets(s)[..|s| - 1] == Octets(init);
      assert s == init + [s[|s| - 1]];
    }
  }

  lemma NameOfBody(host: string, more: seq<byte>)
    requires Fits(ServerName(host, more))
    ensures SniName(Body(ServerName(host, more))) == Some(host)
  {
    var d := Body(ServerName(host, more));
    var front := Enc16(3 + |host| + |more|) + [0];
    assert d == front + Enc16(|host|) + (Octets(host) + more);
    U16Inside(front, |host|, Octets(host) + more);
    assert d[5..5 + |host|] == Octets(host);
    AsciiOfOctets(host);
  }

  lemma SniWalkStep(p: seq<byte>, at: nat, kind: u16, body: seq<byte>)
    requires at + 4 + |body| <= |p| && U16(p, at) == kind && U16(p, at + 2) == |body|
    requires p[at + 4..at + 4 + |body|] == body
    ensures SniWalk(p, at, |p|) == if kind == 0 then SniName(body) else SniWalk(p, at + 4 + |body|, |p|)
  {
  }

  lemma SniWalkOne(p: seq<byte>, at: nat, e: Extension)
    requires Fits(e) && Stands(p, at, e)
    ensures SniWalk(p, at, |p|) == if e.ServerName? then Some(e.host) else SniWalk(p, at + |EncOne(e)|, |p|)
  {
    SniWalkStep(p, at, Kind(e), Body(e));
    if e.ServerName? {
      NameOfBody(e.host, e.more);
    }
  }

  lemma SniWalkEnd(p: seq<byte>)
    ensures SniWalk(p, |p|, |p|) == None
  {
  }

  lemma {:induction false} SniWalkFinds(before: seq<byte>, es: seq<Extension>, p: seq<byte>, at: nat)
    requires AllFit(es) && p == before + EncExtensions(es) && at == |before|
    ensures SniWalk(p, at, |p|) == FirstName(es)
    decreases |es|
  {
    hide SniWalk, Stands;
    if es == [] {
      SniWalkEnd(p);
      assert p == before;
    } else {
      FirstExtension(before, es, p);
      SniWalkOne(p, at, es[0]);
      SniWalkFinds(before + EncOne(es[0]), es[1..], p, at + |EncOne(es[0])|);
    }
  }

  lemma SniOfLayout(p: seq<byte>, a: nat, b: nat, c: nat)
    requires |p| >= 47 && p[0] == 0x16 && p[5] == 1 && CiphersAt(p) == a && a + 2 <= b < c <= |p|
    requires U16(p, a) == b - a - 2 && p[b] == c - b - 1
    ensures c == |p| ==> Sni(p) == None
    ensures c + 2 <= |p| && U16(p, c) == |p| - c - 2 ==> Sni(p) == SniWalk(p, c + 2, |p|)
  {
  }

  /** The walker returns the name of the first server_name extension, whatever stands before it, and None without one. */
  lemma SniRoundTrip(h: Hello)
    requires WellFormed(h)
    ensures Sni(Encode(h)) == if h.extensions.Some? then FirstName(h.extensions.value) else None
  {
    hide Sni, SniWalk, Head, FirstName;
    var p, c := Encode(h), |UpToExtensions(h)|;
    SniOfHello(h, p, c);
    if h.extensions.Some? {
      var es := h.extensions.value;
      ExtensionLayout(h, p);
      SniWalkFinds(p[..c + 2], es, p, c + 2);
    } else {
      NothingFollows(h, p);
    }
  }

  lemma SniOfHello(h: Hello, p: seq<byte>, c: nat)
    requires WellFormed(h) && p == Encode(h) && c == |UpToExtensions(h)|
    ensures c == |p| ==> Sni(p) == None
    ensures c + 2 <= |p| && U16(p, c) == |p| - c - 2 ==> Sni(p) == SniWalk(p, c + 2, |p|)
  {
    Layout(h, p);
    SniOfLayout(p, CiphersAt(p), |UpToCompression(h)|, c);
  }

  // ---- the fingerprint ----

  /** What one extension contributes to the fingerprint. */
  function Contribution(e: Extension): Lists {
    Lists(Shown(Kind(e)), if e.Groups? then ShownAll(e.groups) else [], if e.PointFormats? then DecAll(e.formats) else [])
  }

  function Contributions(es: seq<Extension>): Lists {
    if es == [] then Lists([], [], []) else Plus(Contribution(es[0]), Contributions(es[1..]))
  }

  function ExtensionsOf(h: Hello): seq<Extension> { if h.extensions.Some? then h.extensions.value else [] }

  lemma BodyContribution(e: Extension)
    requires Fits(e)
    ensures ExtLists(Kind(e), Body(e)) == Contribution(e)
  {
    if e.Groups? {
      var size: u16 := 2 * |e.groups|;
      assert Body(e) == [] + Enc16(size) + EncAll(e.groups) == Enc16(size) + EncAll(e.groups) + [];
      U16Inside([], size, EncAll(e.groups));
      ValuesInside(Enc16(size), e.groups, []);
    } else if e.PointFormats? {
      BytesInside([|e.formats|], e.formats);
    }
  }

  lemma Ja3WalkOne(p: seq<byte>, at: nat, e: Extension)
    requires Fits(e) && Stands(p, at, e)
    ensures Ja3Walk(p, at, |p|) == Plus(Contribution(e), Ja3Walk(p, at + |EncOne(e)|, |p|))
  {
    hide Ja3Walk, ExtLists, Contribution, Plus;
    BodyContribution(e);
    Ja3WalkStep(p, at, Kind(e), Body(e));
  }

  lemma Ja3WalkStep(p: seq<byte>, at: nat, kind: u16, body: seq<byte>)
    requires at + 4 + |body| <= |p| && U16(p, at) == kind && U16(p, at + 2) == |body|
    requires p[at + 4..at + 4 + |body|] == body
    ensures Ja3Walk(p, at, |p|) == Plus(ExtLists(kind, body), Ja3Walk(p, at + 4 + |body|, |p|))
  {
    hide ExtLists, Plus;
  }

  lemma Ja3WalkFirst(before: seq<byte>, es: seq<Extension>, p: seq<byte>, at: nat)
    requires es != [] && AllFit(es) && p == before + EncExtensions(es) && at == |before|
    ensures Ja3Walk(p, at, |p|) == Plus(Contribution(es[0]), Ja3Walk(p, at + |EncOne(es[0])|, |p|))
  {
    hide Ja3Walk, Contribution, Stands, Plus;
    FirstExtension(before, es, p);
    Ja3WalkOne(p, at, es[0]);
  }

  lemma Ja3WalkRest(p: seq<byte>, at: nat, next: nat, es: seq<Extension>)
    requires es != [] && at <= |p|
    requires Ja3Walk(p, at, |p|) == Plus(Contribution(es[0]), Ja3Walk(p, next, |p|))
    requires Ja3Walk(p, next, |p|) == Contributions(es[1..])
    ensures Ja3Walk(p, at, |p|) == Contributions(es)
  {
    var rest := Contributions(es[1..]);
    assert Contributions(es) == Plus(Contribution(es[0]), rest);
  }

  lemma Ja3WalkEnd(p: seq<byte>)
    ensures Ja3Walk(p, |p|, |p|) == Contributions([])
  {
  }

  lemma {:induction false} Ja3WalkCollects(before: seq<byte>, es: seq<Extension>, p: seq<byte>, at: nat)
    requires AllFit(es) && p == before + EncExtensions(es) && at == |before|
    ensures Ja3Walk(p, at, |p|) == Contributions(es)
    decreases |es|
  {
    hide Ja3Walk, Contributions, Contribution, Plus, Stands;
    if es == [] {
      Ja3WalkEnd(p);
      assert p == before;
    } else {
      FirstExtension(before, es, p);
      var next := at + |EncOne(es[0])|;
      Ja3WalkFirst(before, es, p, at);
      Ja3WalkCollects(before + EncOne(es[0]), es[1..], p, next);
      Ja3WalkRest(p, at, next, es);
    }
  }

  lemma CiphersOfHello(h: Hello, p: seq<byte>, a: nat)
    requires WellFormed(h) && p == Encode(h) && a == |UpToCiphers(h)|
    ensures Values(p, a + 2, a + 2 + 2 * |h.ciphers|) == ShownAll(h.ciphers)
  {
    var before := UpToCiphers(h) + Enc16(2 * |h.ciphers|);
    var after := p[|UpToCompression(h)|..];
    PrefixLayout(h);
    assert UpToCompression(h) == before + EncAll(h.ciphers);
    assert p == UpToCompression(h) + after;
    ValuesInside(before, h.ciphers, after);
  }

  lemma ExtensionsOfHello(h: Hello, p: seq<byte>, c: nat)
    requires WellFormed(h) && p == Encode(h) && c == |UpToExtensions(h)|
    ensures ExtensionLists(p, c) == Contributions(ExtensionsOf(h))
  {
    hide Ja3Walk, Contribution, Plus, UpToExtensions;
    if h.extensions.Some? {
      ExtensionLayout(h, p);
      Ja3WalkCollects(p[..c + 2], h.extensions.value, p, c + 2);
    } else {
      NothingFollows(h, p);
    }
  }

  lemma NothingFollows(h: Hello, p: seq<byte>)
    requires WellFormed(h) && p == Encode(h) && h.extensions.None?
    ensures p == UpToExtensions(h)
  {
  }

  /** The fingerprint text of a well-formed hello is the five joined lists of what it carries. */
  lemma Ja3OfHello(h: Hello)
    requires WellFormed(h)
    ensures Ja3(Encode(h))
         == Some(Ja3Text(h.version, ShownAll(h.ciphers), Contributions(ExtensionsOf(h))))
  {
    hide Encode, Values, ExtensionLists, Contributions, ShownAll, Ja3Text;
    var p := Encode(h);
    Layout(h, p);
    CiphersOfHello(h, p, CiphersAt(p));
    ExtensionsOfHello(h, p, |UpToExtensions(h)|);
  }

  // ---- GREASE ----

  function Bare(values: seq<u16>): (r: seq<u16>) {
    if values == [] then []
    else (if Reserved(values[0]) then [] else [values[0]]) + Bare(values[1..])
  }

  /** The extensions without the reserved ones, supported groups without reserved values. */
  function BareExtensions(es: seq<Extension>): seq<Extension> {
    if es == [] then []
    else
      (if Reserved(Kind(es[0])) then []
       else if es[0].Groups? then [Groups(Bare(es[0].groups))]
       else [es[0]])
      + BareExtensions(es[1..])
  }

  lemma ReservedIsHidden(n: u16)
    requires Reserved(n)
    ensures Shown(n) == []
  {
    hide Dec;
    ReservedIsGrease(n);
  }

  lemma {:induction false} BareShowsSame(values: seq<u16>)
    ensures ShownAll(Bare(values)) == ShownAll(values)
  {
    hide Reserved, Shown;
    if values == [] {
    } else {
      BareShowsSame(values[1..]);
      if Reserved(values[0]) {
        ReservedIsHidden(values[0]);
        assert Bare(values) == Bare(values[1..]);
      } else {
        assert Bare(values)[1..] == Bare(values[1..]);
      }
    }
  }

  lemma ReservedContributesNothing(e: Extension)
    requires Reserved(Kind(e))
    ensures Contribution(e) == Lists([], [], [])
  {
    hide Shown;
    ReservedIsHidden(Kind(e));
  }

  /** What is left of one extension contributes the same. */
  lemma BareContribution(e: Extension)
    ensures e.Groups? ==> Contribution(Groups(Bare(e.groups))) == Contribution(e)
  {
    hide Bare, Shown;
    if e.Groups? { BareShowsSame(e.groups); }
  }

  lemma ContributionsJoin(e: Extension, rest: seq<Extension>)
    ensures Contributions([e] + rest) == Plus(Contribution(e), Contributions(rest))
  {
    assert ([e] + rest)[1..] == rest;
  }

  lemma {:induction false} BareContributesSame(es: seq<Extension>)
    ensures Contributions(BareExtensions(es)) == Contributions(es)
  {
    hide Bare, Contribution, Reserved;
    if es == [] {
    } else {
      var e, rest := es[0], BareExtensions(es[1..]);
      BareContributesSame(es[1..]);
      if Reserved(Kind(e)) {
        ReservedContributesNothing(e);
        assert BareExtensions(es) == rest;
      } else {
        var bare := if e.Groups? then Groups(Bare(e.groups)) else e;
        BareContribution(e);
        ContributionsJoin(bare, rest);
        assert BareExtensions(es) == [bare] + rest;
      }
    }
  }

  /**
   * Two hellos that differ only in reserved values, anywhere in the ciphers, the extensions or the supported groups,
   * have the same fingerprint text.
   */
  lemma GreaseInvariance(a: Hello, b: Hello)
    requires WellFormed(a) && WellFormed(b) && a.version == b.version && Bare(a.ciphers) == Bare(b.ciphers)
    requires BareExtensions(ExtensionsOf(a)) == BareExtensions(ExtensionsOf(b))
    ensures Ja3(Encode(a)) == Ja3(Encode(b))
  {
    Ja3OfHello(a);
    Ja3OfHello(b);
    BareShowsSame(a.ciphers);
    BareShowsSame(b.ciphers);
    BareContributesSame(ExtensionsOf(a));
    BareContributesSame(ExtensionsOf(b));
  }
}

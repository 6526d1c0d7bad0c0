/** The TLS ClientHello walkers: the server name, and the text behind the JA3 fingerprint. */
module ClientHello {
  import opened Numbers
  import opened Options
  import opened Text
  import opened Words

  function U16(p: seq<byte>, i: nat): u16
    requires i + 2 <= |p|
  {
    var high: int, low: int := p[i], p[i + 1];
    high * 256 + low
  }

  function Enc16(n: u16): (r: seq<byte>)
    ensures |r| == 2 && U16(r, 0) == n
  {
    [n / 256, n % 256]
  }

  /** `bytes.decode("ascii", errors="ignore")`. */
  function Ascii(bs: seq<byte>): string {
    if bs == [] then ""
    else Ascii(bs[..|bs| - 1]) + if bs[|bs| - 1] < 128 then [bs[|bs| - 1] as char] else []
  }

  // ---- the server name ----

  /** The name inside a server_name extension, if its declared length fits. */
  function SniName(d: seq<byte>): Option<string> {
    if |d| >= 5 && |d| >= 5 + U16(d, 3) then Some(Ascii(d[5..5 + U16(d, 3)])) else None
  }

  function SniWalk(p: seq<byte>, offset: nat, end: nat): Option<string>
    requires end <= |p|
    decreases |p| - offset
  {
    if offset + 4 > end then None
    else
      var len := U16(p, offset + 2);
      if U16(p, offset) == 0 && offset + 4 + len <= end then SniName(p[offset + 4..offset + 4 + len])
      else SniWalk(p, offset + 4 + len, end)
  }

  /** Where the cipher-suite length stands. */
  function CiphersAt(p: seq<byte>): nat
    requires |p| >= 44
  {
    var session: int := p[43];
    44 + session
  }

  function Sni(p: seq<byte>): Option<string> {
    if |p| < 44 || p[0] != 0x16 || p[5] != 1 then None
    else
      var a := CiphersAt(p);
      if a + 2 > |p| then None
      else
        var b := a + 2 + U16(p, a);
        if b >= |p| then None
        else
          var c := b + 1 + p[b];
          if c + 2 > |p| then None
          else SniWalk(p, c + 2, Min(c + 2 + U16(p, c), |p|))
  }

  /** Total on every byte string: each read is in bounds, so nothing is ever raised. */
  method ExtractSniFromClientHello(p: seq<byte>) returns (name: Option<string>)
    ensures name == Sni(p)
  {
    if |p| < 44 || p[0] != 0x16 {
      return None;
    }
    var offset: nat := 5;
    if p[offset] != 1 {
      return None;
    }
    offset := offset + 4 + 2 + 32;
    offset := offset + 1 + p[offset];
    if offset + 2 > |p| {
      return None;
    }
    offset := offset + 2 + U16(p, offset);
    if offset >= |p| {
      return None;
    }
    offset := offset + 1 + p[offset];
    if offset + 2 > |p| {
      return None;
    }
    var len := U16(p, offset);
    offset := offset + 2;
    name := FindServerName(p, offset, Min(offset + len, |p|));
  }

  method FindServerName(p: seq<byte>, start: nat, end: nat) returns (name: Option<string>)
    requires end <= |p|
    ensures name == SniWalk(p, start, end)
  {
    var offset := start;
    while offset + 4 <= end
      invariant SniWalk(p, start, end) == SniWalk(p, offset, end)
      decreases |p| - offset
    {
      var kind, size := U16(p, offset), U16(p, offset + 2);
      if kind == 0 && offset + 4 + size <= end {
        var d := p[offset + 4..offset + 4 + size];
        if |d| >= 5 {
          var n: nat := U16(d, 3);
          if |d| >= 5 + n {
            return Some(Ascii(d[5..5 + n]));
          }
        }
        return None;
      }
      offset := offset + 4 + size;
    }
    return None;
  }

  // ---- the fingerprint ----

  /** The code's mask test: both low nibbles are 0xA. */
  predicate Grease(n: u16) { n / 256 % 16 == 0xA && n % 16 == 0xA }

  /** The values reserved by section 2 of RFC 8701: 0x0A0A, 0x1A1A, ..., 0xFAFA. */
  predicate Reserved(n: u16) { n / 256 == n % 256 && n % 16 == 0xA }

  /** The mask catches every reserved value, and besides them exactly the values whose high nibbles differ, as 0x0A1A. */
  lemma ReservedIsGrease(n: u16)
    ensures Reserved(n) <==> Grease(n) && n / 256 / 16 == n % 256 / 16
    ensures Grease(0x0A1A) && !Reserved(0x0A1A)
  {
    var high, low := n / 256, n % 256;
    assert n == 16 * (16 * high + low / 16) + low % 16;
  }

  function Dec(n: nat): string
    decreases n
  {
    if n < 10 then [('0' as int + n) as char] else Dec(n / 10) + [('0' as int + n % 10) as char]
  }

  function Shown(n: u16): seq<string> { if Grease(n) then [] else [Dec(n)] }

  /** Two-byte values at `from`, `from + 2`, ... below `to` that lie wholly inside `p`, GREASE skipped. */
  function Values(p: seq<byte>, from: nat, to: nat): seq<string>
    decreases to - from
  {
    if from >= to then []
    else (if from + 2 <= |p| then Shown(U16(p, from)) else []) + Values(p, from + 2, to)
  }

  function Bytes(d: seq<byte>, from: nat, to: nat): seq<string>
    requires from <= to <= |d|
    decreases |d| - from
  {
    if from >= to then [] else [Dec(d[from])] + Bytes(d, from + 1, to)
  }

  datatype Lists = Lists(exts: seq<string>, curves: seq<string>, formats: seq<string>)

  function Plus(a: Lists, b: Lists): Lists {
    Lists(a.exts + b.exts, a.curves + b.curves, a.formats + b.formats)
  }

  function CurvesOf(d: seq<byte>): seq<string> {
    if |d| >= 2 then Values(d, 2, Min(2 + U16(d, 0), |d|)) else []
  }

  function FormatsOf(d: seq<byte>): seq<string> {
    if |d| >= 1 then Bytes(d, 1, Min(1 + (d[0] as nat), |d|)) else []
  }

  /** What one extension contributes. */
  function ExtLists(kind: u16, d: seq<byte>): Lists {
    Lists(Shown(kind), if kind == 10 then CurvesOf(d) else [], if kind == 11 then FormatsOf(d) else [])
  }

  function Slice(p: seq<byte>, from: nat, to: nat): seq<byte>
    requires from <= |p| && from <= to
  {
    p[from..Min(to, |p|)]
  }

  function Ja3Walk(p: seq<byte>, offset: nat, end: nat): Lists
    requires end <= |p|
    decreases |p| - offset
  {
    if offset + 4 > end then Lists([], [], [])
    else
      var len := U16(p, offset + 2);
      Plus(ExtLists(U16(p, offset), Slice(p, offset + 4, offset + 4 + len)), Ja3Walk(p, offset + 4 + len, end))
  }

  function Ja3Text(version: u16, ciphers: seq<string>, l: Lists): string {
    Dec(version) + "," + Join(ciphers, "-") + "," + Join(l.exts, "-") + "," + Join(l.curves, "-") + ","
    + Join(l.formats, "-")
  }

  /** The text for a hello whose cipher-suite length stands at `a`; None where a read past the end raises. */
  function Ja3From(p: seq<byte>, a: nat): Option<string>
    requires |p| >= 44
  {
    if a + 2 > |p| then None
    else
      var b := a + 2 + U16(p, a);
      if b >= |p| then None
      else Some(Ja3Text(U16(p, 9), Values(p, a + 2, b), ExtensionLists(p, b + 1 + p[b])))
  }

  function Ja3(p: seq<byte>): Option<string> {
    if |p| < 44 || p[5] != 1 then None else Ja3From(p, CiphersAt(p))
  }

  lemma ValuesUnfold(p: seq<byte>, from: nat, to: nat)
    ensures Values(p, from, to)
         == if from >= to then []
            else (if from + 2 <= |p| then Shown(U16(p, from)) else []) + Values(p, from + 2, to)
  {
  }

  lemma AppendInTurn(done: seq<string>, one: seq<string>, rest: seq<string>)
    ensures done + (one + rest) == (done + one) + rest
  {
  }

  method CollectValues(p: seq<byte>, from: nat, to: nat) returns (r: seq<string>)
    ensures r == Values(p, from, to)
  {
    hide Values, Dec, Grease;
    r := [];
    var i := from;
    ghost var all := Values(p, from, to);
    assert r + all == all;
    while i < to
      invariant r + Values(p, i, to) == all
    {
      ValuesUnfold(p, i, to);
      ghost var rest := Values(p, i + 2, to);
      var one: seq<string> := [];
      if i + 2 <= |p| {
        var v := U16(p, i);
        if !Grease(v) { one := [Dec(v)]; }
      }
      AppendInTurn(r, one, rest);
      r := r + one;
      i := i + 2;
    }
    ValuesUnfold(p, i, to);
  }

  method CollectBytes(d: seq<byte>, from: nat, to: nat) returns (r: seq<string>)
    requires from <= to <= |d|
    ensures r == Bytes(d, from, to)
  {
    r := [];
    var i := from;
    ghost var all := Bytes(d, from, to);
    assert r + all == all;
    while i < to
      invariant from <= i <= to
      invariant r + Bytes(d, i, to) == all
    {
      r := r + [Dec(d[i])];
      i := i + 1;
    }
  }

  /** The `elif` chain over one extension. */
  method ReadExtension(kind: u16, d: seq<byte>) returns (one: Lists)
    ensures one == ExtLists(kind, d)
  {
    one := Lists([], [], []);
    if !Grease(kind) { one := one.(exts := [Dec(kind)]); }
    if kind == 10 && |d| >= 2 {
      var curves := CollectValues(d, 2, Min(2 + U16(d, 0), |d|));
      one := one.(curves := curves);
    } else if kind == 11 && |d| >= 1 {
      var formats := CollectBytes(d, 1, Min(1 + (d[0] as nat), |d|));
      one := one.(formats := formats);
    }
  }

  method CollectExtensions(p: seq<byte>, c: nat) returns (l: Lists)
    ensures l == ExtensionLists(p, c)
  {
    hide ExtLists, Plus, Ja3Walk;
    l := Lists([], [], []);
    if c + 2 > |p| {
      return;
    }
    var start, end := c + 2, Min(c + 2 + U16(p, c), |p|);
    var offset := start;
    ghost var all := Ja3Walk(p, start, end);
    PlusNothing(all);
    while offset + 4 <= end
      invariant Plus(l, Ja3Walk(p, offset, end)) == all
      decreases |p| - offset
    {
      var kind, len := U16(p, offset), U16(p, offset + 2);
      var one := ReadExtension(kind, Slice(p, offset + 4, offset + 4 + len));
      Ja3WalkUnfolds(p, offset, end);
      PlusAssociates(l, one, Ja3Walk(p, offset + 4 + len, end));
      l := Plus(l, one);
      offset := offset + 4 + len;
    }
    Ja3WalkUnfolds(p, offset, end);
    PlusNothing(l);
  }

  lemma PlusNothing(l: Lists)
    ensures Plus(Lists([], [], []), l) == l == Plus(l, Lists([], [], []))
  {
  }

  lemma Ja3WalkUnfolds(p: seq<byte>, offset: nat, end: nat)
    requires end <= |p|
    ensures offset + 4 > end ==> Ja3Walk(p, offset, end) == Lists([], [], [])
    ensures offset + 4 <= end ==>
              var next := offset + 4 + U16(p, offset + 2);
              Ja3Walk(p, offset, end) == Plus(ExtLists(U16(p, offset), Slice(p, offset + 4, next)), Ja3Walk(p, next, end))
  {
    hide ExtLists, Plus;
  }

  lemma PlusAssociates(a: Lists, b: Lists, c: Lists)
    ensures Plus(a, Plus(b, c)) == Plus(Plus(a, b), c)
  {
  }

  /** What follows the compression methods, if anything does. */
  function ExtensionLists(p: seq<byte>, c: nat): Lists {
    if c + 2 <= |p| then Ja3Walk(p, c + 2, Min(c + 2 + U16(p, c), |p|)) else Lists([], [], [])
  }

  method ComputeJa3(p: seq<byte>) returns (text: Option<string>)
    ensures text == Ja3(p)
  {
    hide Ja3From;
    if |p| < 44 {
      return None;
    }
    var offset: nat := 5;
    if p[offset] != 1 {
      return None;
    }
    offset := offset + 4;
    var version := U16(p, offset);
    offset := offset + 2 + 32;
    offset := offset + 1 + p[offset];
    text := FingerprintFrom(p, version, offset);
  }

  /** The second half of `compute_ja3`, from the cipher suites on. */
  method FingerprintFrom(p: seq<byte>, version: u16, at: nat) returns (text: Option<string>)
    requires |p| >= 44 && version == U16(p, 9)
    ensures text == Ja3From(p, at)
  {
    hide Ja3Text, Values, ExtensionLists;
    if at + 2 > |p| {
      return None;
    }
    var size := U16(p, at);
    var ciphers := CollectValues(p, at + 2, at + 2 + size);
    var offset := at + 2 + size;
    if offset >= |p| {
      return None;
    }
    var l := CollectExtensions(p, offset + 1 + p[offset]);
    return Some(Ja3Text(version, ciphers, l));
  }
}

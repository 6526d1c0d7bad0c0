/** Splitting a netlink datagram into audit messages, and buffering the events read from them. */
module Netlink {
  import opened Numbers
  import opened Text
  import opened Words

  const HEADER := 16
  const AUDIT_EXECVE := 1309
  const BUFFER_MAX := 10_000

  type u32 = x: int | 0 <= x < 0x1_0000_0000

  /** One message: `rest` is the flags, sequence number and sender, `pad` the bytes up to the next message. */
  datatype Message = Message(kind: u16, rest: seq<byte>, payload: seq<byte>, pad: seq<byte>)

  function Le16(d: seq<byte>, i: nat): u16
    requires i + 2 <= |d|
  {
    var low: int, high: int := d[i], d[i + 1];
    low + 256 * high
  }

  function Le32(d: seq<byte>, i: nat): nat
    requires i + 4 <= |d|
  {
    var low: int, high: int := Le16(d, i), Le16(d, i + 2);
    low + 0x1_0000 * high
  }

  /** `(n + 3) & ~3`. */
  function Aligned(n: nat): (r: nat)
    ensures n <= r < n + 4 && r % 4 == 0
  {
    (n + 3) / 4 * 4
  }

  /** A whole message stands at `offset`. */
  predicate MessageAt(d: seq<byte>, offset: nat) {
    offset + HEADER <= |d| && HEADER <= Le32(d, offset) && offset + Le32(d, offset) <= |d|
  }

  function Next(d: seq<byte>, offset: nat): (next: nat)
    requires MessageAt(d, offset)
    ensures offset < next
  {
    offset + Aligned(Le32(d, offset))
  }

  function ReadMessage(d: seq<byte>, offset: nat): Message
    requires MessageAt(d, offset)
  {
    var end := offset + Le32(d, offset);
    Message(Le16(d, offset + 4), d[offset + 6..offset + HEADER], d[offset + HEADER..end], d[end..Min(Next(d, offset), |d|)])
  }

  /** The messages from `offset` on. */
  function Messages(d: seq<byte>, offset: nat): seq<Message>
    decreases |d| - offset
  {
    if !MessageAt(d, offset) then [] else [ReadMessage(d, offset)] + Messages(d, Next(d, offset))
  }

  // ---- the collector ----

  datatype Event = Event(source: string, text: string, fields: map<string, string>, host: string)

  /** What the collector is given: UTF-8 decoding with replacement, stripped of NULs and blanks; the key=value pairs that the
      regular expression finds in a text, the last of a key counting; and the host's name. */
  datatype Reader = Reader(text: seq<byte> -> string, pairs: string -> map<string, string>, host: string)

  /** The pairs under the common names: a `pid` when there are arguments, a `name` from the executable or the command. */
  function CommonNames(pairs: map<string, string>): map<string, string> {
    var fields := if "pid" !in pairs && "a0" in pairs then pairs["pid" := "0"] else pairs;
    if "exe" in fields then fields["name" := Basename(fields["exe"])]
    else if "comm" in fields && "name" !in fields then fields["name" := fields["comm"]]
    else fields
  }

  /** The last `BUFFER_MAX` entries. */
  function Newest<T>(s: seq<T>): seq<T> { if |s| > BUFFER_MAX then s[|s| - BUFFER_MAX..] else s }

  function EventsOf(kind: u16, payload: seq<byte>, r: Reader): seq<Event> {
    var t := r.text(payload);
    if t == "" then []
    else [Event(if kind == AUDIT_EXECVE then "auditd_execve" else "auditd_syscall", t, CommonNames(r.pairs(t)), r.host)]
  }

  function AllEvents(ms: seq<Message>, r: Reader): seq<Event> {
    if ms == [] then [] else EventsOf(ms[0].kind, ms[0].payload, r) + AllEvents(ms[1..], r)
  }

  /** Cutting early loses nothing that a later cut would keep. */
  lemma NewestTwice<T>(a: seq<T>, b: seq<T>)
    ensures Newest(Newest(a) + b) == Newest(a + b)
  {
  }

  lemma NewestStep<T>(a: seq<T>, b: seq<T>, c: seq<T>)
    ensures Newest(Newest(a + b) + c) == Newest(a + (b + c))
  {
    NewestTwice(a + b, c);
    assert a + (b + c) == a + b + c;
  }

  lemma NewestEnd<T>(a: seq<T>)
    requires |a| <= BUFFER_MAX
    ensures Newest(a + []) == a
  {
    assert a + [] == a;
  }

  class AuditdCollector {
    var buffer: seq<Event>
    const reader: Reader

    constructor (reader: Reader)
      ensures buffer == [] && this.reader == reader
    {
      this.reader := reader;
      buffer := [];
    }

    /** The bounded deque's append. */
    method Append(e: Event)
      modifies this
      ensures buffer == Newest(old(buffer) + [e])
    {
      buffer := buffer + [e];
      if |buffer| > BUFFER_MAX { buffer := buffer[|buffer| - BUFFER_MAX..]; }
    }

    method HandleAuditMessage(kind: u16, payload: seq<byte>)
      requires |buffer| <= BUFFER_MAX
      modifies this
      ensures |buffer| <= BUFFER_MAX
      ensures buffer == Newest(old(buffer) + EventsOf(kind, payload, reader))
    {
      var t := reader.text(payload);
      if t == "" {
        assert old(buffer) + [] == old(buffer);
        return;
      }
      var fields := CommonNames(reader.pairs(t));
      Append(Event(if kind == AUDIT_EXECVE then "auditd_execve" else "auditd_syscall", t, fields, reader.host));
    }

    /** Every message is handled in order; on any bytes at all the loop ends and every slice is in bounds. */
    method ParseNetlinkMessages(d: seq<byte>)
      requires |buffer| <= BUFFER_MAX
      modifies this
      ensures buffer == Newest(old(buffer) + AllEvents(Messages(d, 0), reader))
    {
      hide Messages, AllEvents, Newest, EventsOf;
      ghost var before, all := buffer, AllEvents(Messages(d, 0), reader);
      var offset: nat := 0;
      assert buffer + all == before + all;
      while offset < |d|
        invariant |buffer| <= BUFFER_MAX
        invariant Newest(buffer + AllEvents(Messages(d, offset), reader)) == Newest(before + all)
        decreases |d| - offset
      {
        EventsUnfold(d, offset, reader);
        if offset + HEADER > |d| {
          break;
        }
        var size := Le32(d, offset);
        if size < HEADER || offset + size > |d| {
          break;
        }
        var kind, payload := Le16(d, offset + 4), d[offset + HEADER..offset + size];
        ghost var held, events, rest := buffer, EventsOf(kind, payload, reader), AllEvents(Messages(d, Next(d, offset)), reader);
        HandleAuditMessage(kind, payload);
        NewestStep(held, events, rest);
        offset := offset + (size + 3) / 4 * 4;
      }
      EventsUnfold(d, offset, reader);
      NewestEnd(buffer);
    }
  }

  lemma EventsUnfold(d: seq<byte>, offset: nat, r: Reader)
    ensures AllEvents(Messages(d, offset), r)
         == if !MessageAt(d, offset) then []
            else EventsOf(ReadMessage(d, offset).kind, ReadMessage(d, offset).payload, r) + AllEvents(Messages(d, Next(d, offset)), r)
  {
    if MessageAt(d, offset) {
      assert Messages(d, offset)[1..] == Messages(d, Next(d, offset));
    }
  }

  // ---- encoding ----

  function EncLe16(n: u16): seq<byte> { [n % 256, n / 256] }

  function EncLe32(n: u32): seq<byte> { EncLe16(n % 0x1_0000) + EncLe16(n / 0x1_0000) }

  predicate WellFormed(m: Message) { |m.rest| == 10 && HEADER + |m.payload| < 0x1_0000_0000 }

  function Size(m: Message): nat { HEADER + |m.payload| }

  /** Padded up to the next multiple of four; the last message may be padded less. */
  predicate AreMessages(ms: seq<Message>) {
    && (forall i :: 0 <= i < |ms| ==> WellFormed(ms[i]) && Size(ms[i]) + |ms[i].pad| <= Aligned(Size(ms[i])))
    && (forall i :: 0 <= i < |ms| - 1 ==> Size(ms[i]) + |ms[i].pad| == Aligned(Size(ms[i])))
  }

  function Enc(m: Message): (r: seq<byte>)
    requires WellFormed(m)
    ensures |r| == Size(m) + |m.pad|
  {
    EncLe32(Size(m)) + EncLe16(m.kind) + m.rest + m.payload + m.pad
  }

  function EncAll(ms: seq<Message>): seq<byte>
    requires forall i :: 0 <= i < |ms| ==> WellFormed(ms[i])
  {
    if ms == [] then [] else Enc(ms[0]) + EncAll(ms[1..])
  }

  // ---- reading inside a longer string ----

  lemma Le16Inside(before: seq<byte>, n: u16, after: seq<byte>, d: seq<byte>)
    requires d == before + EncLe16(n) + after
    ensures |before| + 2 <= |d| && Le16(d, |before|) == n
  {
    assert d[|before|] == EncLe16(n)[0] && d[|before| + 1] == EncLe16(n)[1];
  }

  lemma Le32Inside(before: seq<byte>, n: u32, after: seq<byte>, d: seq<byte>)
    requires d == before + EncLe32(n) + after
    ensures |before| + 4 <= |d| && Le32(d, |before|) == n
  {
    var low, high := EncLe16(n % 0x1_0000), EncLe16(n / 0x1_0000);
    assert d == before + low + (high + after) == (before + low) + high + after;
    Le16Inside(before, n % 0x1_0000, high + after, d);
    Le16Inside(before + low, n / 0x1_0000, after, d);
  }

  lemma SplitEncoding(before: seq<byte>, m: Message, after: seq<byte>)
    requires WellFormed(m)
    ensures var d, size, kind := before + Enc(m) + after, EncLe32(Size(m)), EncLe16(m.kind);
      && d == before + size + (kind + m.rest + m.payload + m.pad + after)
      && d == (before + size) + kind + (m.rest + m.payload + m.pad + after)
      && d == (before + size + kind) + m.rest + (m.payload + m.pad + after)
      && d == (before + size + kind + m.rest) + m.payload + (m.pad + after)
      && d == (before + size + kind + m.rest + m.payload) + m.pad + after
  {
  }

  lemma SliceInside(before: seq<byte>, s: seq<byte>, after: seq<byte>, d: seq<byte>)
    requires d == before + s + after
    ensures d[|before|..|before| + |s|] == s
  {
  }

  lemma FieldsStand(before: seq<byte>, m: Message, after: seq<byte>, d: seq<byte>)
    requires WellFormed(m) && d == before + Enc(m) + after
    ensures var at, end := |before|, |before| + Size(m);
      && MessageAt(d, at) && Le32(d, at) == Size(m) && Le16(d, at + 4) == m.kind
      && d[at + 6..at + HEADER] == m.rest && d[at + HEADER..end] == m.payload && d[end..end + |m.pad|] == m.pad
  {
    var size, kind := EncLe32(Size(m)), EncLe16(m.kind);
    SplitEncoding(before, m, after);
    Le32Inside(before, Size(m), kind + m.rest + m.payload + m.pad + after, d);
    Le16Inside(before + size, m.kind, m.rest + m.payload + m.pad + after, d);
    SliceInside(before + size + kind, m.rest, m.payload + m.pad + after, d);
    SliceInside(before + size + kind + m.rest, m.payload, m.pad + after, d);
    SliceInside(before + size + kind + m.rest + m.payload, m.pad, after, d);
  }

  lemma MessagesUnfold(d: seq<byte>, offset: nat)
    ensures Messages(d, offset)
         == if !MessageAt(d, offset) then [] else [ReadMessage(d, offset)] + Messages(d, Next(d, offset))
  {
  }

  lemma {:induction false} SplitOfEncoding(before: seq<byte>, ms: seq<Message>, d: seq<byte>)
    requires AreMessages(ms) && d == before + EncAll(ms)
    ensures Messages(d, |before|) == ms
    decreases |ms|
  {
    hide Messages, Le32, Le16, Enc;
    MessagesUnfold(d, |before|);
    if ms == [] {
      assert d == before;
    } else {
      var m, rest := ms[0], EncAll(ms[1..]);
      assert d == before + Enc(m) + rest;
      FieldsStand(before, m, rest, d);
      if |ms| == 1 {
        assert rest == [];
        MessagesUnfold(d, Next(d, |before|));
      } else {
        SplitOfEncoding(before + Enc(m), ms[1..], d);
      }
      assert ReadMessage(d, |before|) == m;
    }
  }

  /** Splitting the concatenation of padded messages yields exactly those messages. */
  lemma SplitRoundTrip(ms: seq<Message>)
    requires AreMessages(ms)
    ensures Messages(EncAll(ms), 0) == ms
  {
    assert EncAll(ms) == [] + EncAll(ms);
    SplitOfEncoding([], ms, EncAll(ms));
  }

  // ---- any bytes at all ----

  lemma Le16Writes(d: seq<byte>, i: nat)
    requires i + 2 <= |d|
    ensures EncLe16(Le16(d, i)) == d[i..i + 2]
  {
  }

  lemma Halves(low: u16, high: u16)
    ensures var n := (low as int) + 0x1_0000 * (high as int);
      n < 0x1_0000_0000 && n % 0x1_0000 == low && n / 0x1_0000 == high
  {
  }

  lemma Le32Writes(d: seq<byte>, i: nat)
    requires i + 4 <= |d|
    ensures Le32(d, i) < 0x1_0000_0000 && EncLe32(Le32(d, i)) == d[i..i + 4]
  {
    hide Le16, EncLe16;
    Le16Writes(d, i);
    Le16Writes(d, i + 2);
    Halves(Le16(d, i), Le16(d, i + 2));
    assert d[i..i + 2] + d[i + 2..i + 4] == d[i..i + 4];
  }

  lemma ReadIsEncoded(d: seq<byte>, offset: nat)
    requires MessageAt(d, offset)
    ensures var m := ReadMessage(d, offset);
      WellFormed(m) && Enc(m) == d[offset..Min(Next(d, offset), |d|)]
  {
    hide Le32, Le16, EncLe16, EncLe32;
    var m, end, stop := ReadMessage(d, offset), offset + Le32(d, offset), Min(Next(d, offset), |d|);
    Le32Writes(d, offset);
    Le16Writes(d, offset + 4);
    assert d[offset..offset + 4] + d[offset + 4..offset + 6] == d[offset..offset + 6];
    assert d[offset..offset + 6] + m.rest == d[offset..offset + HEADER];
    assert d[offset..offset + HEADER] + m.payload == d[offset..end];
    assert d[offset..end] + m.pad == d[offset..stop];
  }

  lemma EncCons(m: Message, rest: seq<Message>)
    requires WellFormed(m) && AreMessages(rest) && Size(m) + |m.pad| <= Aligned(Size(m))
    requires rest != [] ==> Size(m) + |m.pad| == Aligned(Size(m))
    ensures AreMessages([m] + rest) && EncAll([m] + rest) == Enc(m) + EncAll(rest)
  {
    assert ([m] + rest)[1..] == rest;
  }

  lemma JoinSlices(d: seq<byte>, a: nat, b: nat, c: nat)
    requires a <= b <= c <= |d|
    ensures d[a..b] + d[b..c] == d[a..c]
  {
  }

  /** `ms` are whole messages at `offset`, and no further one stands behind them. */
  predicate SplitAt(d: seq<byte>, offset: nat, ms: seq<Message>) {
    && AreMessages(ms) && offset + |EncAll(ms)| <= |d| && d[offset..offset + |EncAll(ms)|] == EncAll(ms)
    && !MessageAt(d, offset + |EncAll(ms)|)
  }

  lemma NothingSplit(d: seq<byte>, offset: nat)
    requires offset <= |d| && !MessageAt(d, offset)
    ensures SplitAt(d, offset, [])
  {
    assert EncAll([]) == [];
  }

  lemma OneMoreSplit(d: seq<byte>, offset: nat, rest: seq<Message>)
    requires MessageAt(d, offset) && Next(d, offset) <= |d| && SplitAt(d, Next(d, offset), rest)
    ensures SplitAt(d, offset, [ReadMessage(d, offset)] + rest)
  {
    hide MessageAt, AreMessages, Enc, Le32, Le16, ReadMessage;
    var m, next := ReadMessage(d, offset), Next(d, offset);
    ReadIsEncoded(d, offset);
    ReadSize(d, offset);
    EncCons(m, rest);
    JoinSlices(d, offset, next, next + |EncAll(rest)|);
  }

  lemma LastSplit(d: seq<byte>, offset: nat)
    requires offset <= |d| && MessageAt(d, offset) && Next(d, offset) > |d|
    ensures SplitAt(d, offset, [ReadMessage(d, offset)])
  {
    hide Le32, Le16, ReadMessage, Enc;
    var m := ReadMessage(d, offset);
    ReadIsEncoded(d, offset);
    ReadSize(d, offset);
    EncCons(m, []);
    assert [m] + [] == [m] && EncAll([]) == [] && EncAll([m]) == Enc(m) + [] == Enc(m);
  }

  /** A message read takes its aligned size, cut off at the end of the bytes. */
  lemma ReadSize(d: seq<byte>, offset: nat)
    requires MessageAt(d, offset)
    ensures var m := ReadMessage(d, offset);
      && WellFormed(m) && |Enc(m)| == Size(m) + |m.pad| <= Aligned(Size(m))
      && offset <= Min(Next(d, offset), |d|) && |Enc(m)| == Min(Next(d, offset), |d|) - offset
      && (Next(d, offset) <= |d| ==> |Enc(m)| == Aligned(Size(m)))
  {
    ReadIsEncoded(d, offset);
  }

  lemma {:induction false} SplitLosesNothing(d: seq<byte>, offset: nat)
    requires offset <= |d|
    ensures SplitAt(d, offset, Messages(d, offset))
    decreases |d| - offset
  {
    hide Messages, SplitAt;
    MessagesUnfold(d, offset);
    if !MessageAt(d, offset) {
      NothingSplit(d, offset);
    } else {
      var m, next := ReadMessage(d, offset), Next(d, offset);
      if next <= |d| {
        SplitLosesNothing(d, next);
        OneMoreSplit(d, offset, Messages(d, next));
      } else {
        MessagesUnfold(d, next);
        LastSplit(d, offset);
        assert [m] + [] == [m];
      }
    }
  }

  /** The messages read from any bytes re-encode to a prefix of them, and no whole message stands behind that prefix. */
  lemma SplitIsMaximal(d: seq<byte>)
    ensures var ms := Messages(d, 0);
      AreMessages(ms) && EncAll(ms) <= d && !MessageAt(d, |EncAll(ms)|)
  {
    SplitLosesNothing(d, 0);
  }
}

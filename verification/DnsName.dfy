/** Reading the query name of a raw DNS message. */
module DnsName {
  import opened Numbers
  import opened Words
  import opened Text

  const MAX_LABELS := 32
  const HEADER := 12

  /** The top two bits are set, or the length is past 63: a compression pointer or an invalid length. */
  predicate Refused(n: byte) { n > 63 || n / 64 != 0 }

  /** `bytes.decode("ascii", errors="replace")`. */
  function Replaced(bs: seq<byte>): (s: string)
    ensures |s| == |bs|
    ensures forall i :: 0 <= i < |bs| ==> s[i] == if bs[i] < 128 then bs[i] as char else '\U{FFFD}'
  {
    seq(|bs|, i requires 0 <= i < |bs| => if bs[i] < 128 then bs[i] as char else '\U{FFFD}')
  }

  /** Whether a whole label stands at `pos`. */
  predicate LabelAt(p: seq<byte>, pos: nat) {
    pos < |p| && p[pos] != 0 && !Refused(p[pos]) && pos + 1 + (p[pos] as nat) <= |p|
  }

  /** At most `left` labels from `pos` on. */
  function Labels(p: seq<byte>, pos: nat, left: nat): seq<string>
    decreases left
  {
    if left == 0 || !LabelAt(p, pos) then []
    else
      var next := pos + 1 + (p[pos] as nat);
      [Replaced(p[pos + 1..next])] + Labels(p, next, left - 1)
  }

  function QueryLabels(p: seq<byte>): seq<string> { Labels(p, HEADER, MAX_LABELS) }

  method ParseDnsQname(p: seq<byte>) returns (name: string)
    ensures name == Join(QueryLabels(p), ".")
  {
    hide Labels;
    if |p| < 13 {
      LabelsUnfold(p, HEADER, MAX_LABELS);
      return "";
    }
    var pos: nat := 12;
    var labels: seq<string> := [];
    var tries := 0;
    while tries < MAX_LABELS
      invariant 0 <= tries <= MAX_LABELS
      invariant labels + Labels(p, pos, MAX_LABELS - tries) == QueryLabels(p)
    {
      LabelsUnfold(p, pos, MAX_LABELS - tries);
      if pos >= |p| {
        break;
      }
      var size: nat := p[pos];
      if size == 0 {
        break;
      }
      if size > 63 || size / 64 != 0 {
        break;
      }
      pos := pos + 1;
      if pos + size > |p| {
        break;
      }
      labels := labels + [Replaced(p[pos..pos + size])];
      pos := pos + size;
      tries := tries + 1;
    }
    if tries == MAX_LABELS { LabelsUnfold(p, pos, 0); }
    assert labels == QueryLabels(p);
    name := Join(labels, ".");
  }

  lemma LabelsUnfold(p: seq<byte>, pos: nat, left: nat)
    ensures Labels(p, pos, left)
         == if left == 0 || !LabelAt(p, pos) then []
            else [Replaced(p[pos + 1..pos + 1 + (p[pos] as nat)])] + Labels(p, pos + 1 + (p[pos] as nat), left - 1)
  {
  }

  // ---- section 4.1.2 of RFC 1035 ----

  /** A label of one to 63 ASCII characters. */
  predicate IsLabel(s: string) { 1 <= |s| <= 63 && forall i :: 0 <= i < |s| ==> s[i] < 128 as char }

  predicate AreLabels(name: seq<string>) { forall i :: 0 <= i < |name| ==> IsLabel(name[i]) }

  function EncLabel(s: string): (r: seq<byte>)
    requires IsLabel(s)
    ensures |r| == 1 + |s|
  {
    [|s|] + seq(|s|, i requires 0 <= i < |s| => s[i] as int)
  }

  function EncName(name: seq<string>): seq<byte>
    requires AreLabels(name)
  {
    if name == [] then [0] else EncLabel(name[0]) + EncName(name[1..])
  }

  lemma LabelStands(before: seq<byte>, s: string, after: seq<byte>, p: seq<byte>)
    requires IsLabel(s) && p == before + EncLabel(s) + after
    ensures LabelAt(p, |before|) && p[|before|] == |s|
    ensures Replaced(p[|before| + 1..|before| + 1 + |s|]) == s
  {
    assert p[|before|] == EncLabel(s)[0];
    var bs := p[|before| + 1..|before| + 1 + |s|];
    forall i | 0 <= i < |s| ensures bs[i] == s[i] as int {
      assert bs[i] == p[|before| + 1 + i] == EncLabel(s)[1 + i];
    }
  }

  lemma {:induction false} LabelsOfName(before: seq<byte>, name: seq<string>, after: seq<byte>, p: seq<byte>, left: nat)
    requires AreLabels(name) && p == before + EncName(name) + after
    ensures Labels(p, |before|, left) == name[..Min(left, |name|)]
    decreases |name|
  {
    hide Labels, LabelAt, Replaced;
    LabelsUnfold(p, |before|, left);
    if name == [] {
      RootStands(before, after);
    } else if left > 0 {
      var one, rest := EncLabel(name[0]), EncName(name[1..]);
      Regrouped(before, one, rest, after);
      LabelStands(before, name[0], rest + after, p);
      LabelsOfName(before + one, name[1..], after, p, left - 1);
      FirstLabels(name, left);
    }
  }

  lemma RootStands(before: seq<byte>, after: seq<byte>)
    ensures !LabelAt(before + EncName([]) + after, |before|)
  {
    assert (before + EncName([]) + after)[|before|] == 0;
  }

  lemma Regrouped(before: seq<byte>, one: seq<byte>, rest: seq<byte>, after: seq<byte>)
    ensures before + (one + rest) + after == before + one + (rest + after) == (before + one) + rest + after
  {
  }

  lemma FirstLabels(name: seq<string>, left: nat)
    requires name != [] && left > 0
    ensures [name[0]] + name[1..][..Min(left - 1, |name| - 1)] == name[..Min(left, |name|)]
  {
  }

  /** An encoded name reads back as its first 32 labels, dotted: the whole name when it has no more than 32. */
  lemma NameRoundTrip(header: seq<byte>, name: seq<string>, after: seq<byte>)
    requires |header| == HEADER && AreLabels(name)
    ensures var labels := QueryLabels(header + EncName(name) + after);
      labels == name[..Min(MAX_LABELS, |name|)] && (|name| <= MAX_LABELS ==> Join(labels, ".") == Join(name, "."))
  {
    LabelsOfName(header, name, after, header + EncName(name) + after, MAX_LABELS);
    if |name| <= MAX_LABELS { assert name[..Min(MAX_LABELS, |name|)] == name; }
  }

  lemma {:induction false} TruncationKeepsWholeLabels(p: seq<byte>, k: nat, pos: nat, left: nat)
    requires k <= |p|
    ensures Labels(p[..k], pos, left) <= Labels(p, pos, left)
    ensures forall i :: 0 <= i < |Labels(p[..k], pos, left)| ==> Labels(p[..k], pos, left)[i] == Labels(p, pos, left)[i]
    decreases left
  {
    hide Labels;
    var q := p[..k];
    LabelsUnfold(p, pos, left);
    LabelsUnfold(q, pos, left);
    if left == 0 || !LabelAt(q, pos) {
    } else {
      var next := pos + 1 + (p[pos] as nat);
      assert q[pos] == p[pos] && q[pos + 1..next] == p[pos + 1..next];
      TruncationKeepsWholeLabels(p, k, next, left - 1);
    }
  }

  /** Any truncation of any message yields a prefix made of whole labels. */
  lemma TruncatedName(p: seq<byte>, k: nat)
    requires k <= |p|
    ensures QueryLabels(p[..k]) <= QueryLabels(p)
  {
    TruncationKeepsWholeLabels(p, k, HEADER, MAX_LABELS);
  }
}

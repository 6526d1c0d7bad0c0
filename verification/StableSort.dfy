/** The stable sort behind `list.sort` and `sorted`: elements with equal keys keep their order.
    A descending sort (`reverse=True`, which is stable too) is this sort on the negated key. */
module StableSort {

  ghost predicate Ordered<T>(s: seq<T>, key: T -> real) {
    forall i, j :: 0 <= i < j < |s| ==> key(s[i]) <= key(s[j])
  }

  ghost predicate StrictlyOrdered<T>(s: seq<T>, key: T -> real) {
    forall i, j :: 0 <= i < j < |s| ==> key(s[i]) < key(s[j])
  }

  ghost predicate DistinctKeys<T>(s: seq<T>, key: T -> real) {
    forall i, j :: 0 <= i < j < |s| ==> key(s[i]) != key(s[j])
  }

  /** `x` goes in front of the first element whose key is not smaller. */
  function Insert<T>(x: T, s: seq<T>, key: T -> real): (r: seq<T>)
    ensures |r| == |s| + 1
  {
    if s == [] || key(x) <= key(s[0]) then [x] + s else [s[0]] + Insert(x, s[1..], key)
  }

  function Sort<T>(s: seq<T>, key: T -> real): (r: seq<T>)
    ensures |r| == |s|
  {
    if s == [] then [] else Insert(s[0], Sort(s[1..], key), key)
  }

  /** Where `Insert` puts its element, and that it shifts the rest without reordering it. */
  function Slot<T>(x: T, s: seq<T>, key: T -> real): (p: nat)
    ensures p <= |s|
    ensures Insert(x, s, key) == s[..p] + [x] + s[p..]
    ensures forall i :: 0 <= i < p ==> key(s[i]) < key(x)
    ensures p < |s| ==> key(x) <= key(s[p])
  {
    if s == [] || key(x) <= key(s[0]) then 0
    else
      var q := Slot(x, s[1..], key);
      SplitOneLater(x, s, q);
      assert forall i :: 0 < i < q + 1 ==> s[i] == s[1..][i - 1];
      q + 1
  }

  lemma SplitOneLater<T>(x: T, s: seq<T>, q: nat)
    requires q < |s|
    ensures [s[0]] + (s[1..][..q] + [x] + s[1..][q..]) == s[..q + 1] + [x] + s[q + 1..]
  {
  }

  lemma {:induction false} SortOrdered<T>(s: seq<T>, key: T -> real)
    ensures Ordered(Sort(s, key), key)
  {
    hide Insert, Slot;
    if s == [] {
    } else {
      SortOrdered(s[1..], key);
      var p := Slot(s[0], Sort(s[1..], key), key);
    }
  }

  lemma InsertPermutes<T>(x: T, s: seq<T>, key: T -> real)
    ensures multiset(Insert(x, s, key)) == multiset(s) + multiset{x}
  {
    var p := Slot(x, s, key);
    SplitPermutes(x, s, p);
  }

  lemma SplitPermutes<T>(x: T, s: seq<T>, p: nat)
    requires p <= |s|
    ensures multiset(s[..p] + [x] + s[p..]) == multiset(s) + multiset{x}
  {
    assert s == s[..p] + s[p..];
  }

  lemma {:induction false} SortPermutes<T>(s: seq<T>, key: T -> real)
    ensures multiset(Sort(s, key)) == multiset(s)
  {
    if s == [] {
    } else {
      SortPermutes(s[1..], key);
      InsertPermutes(s[0], Sort(s[1..], key), key);
      assert s == [s[0]] + s[1..];
    }
  }

  lemma SortMembers<T>(s: seq<T>, key: T -> real)
    ensures forall x :: x in Sort(s, key) <==> x in s
  {
    SortPermutes(s, key);
    forall x ensures x in Sort(s, key) <==> x in s {
      assert x in multiset(Sort(s, key)) <==> x in multiset(s);
    }
  }

  /** The index that element `i` of `s` has after `x` was inserted. */
  function Shifted<T>(x: T, s: seq<T>, key: T -> real, i: nat): (k: nat)
    requires i < |s|
    ensures k <= |s| && Insert(x, s, key)[k] == s[i]
  {
    if i < Slot(x, s, key) then i else i + 1
  }

  lemma InsertedBefore<T>(x: T, s: seq<T>, key: T -> real, i: nat)
    requires i < |s| && Ordered(s, key) && key(x) <= key(s[i])
    ensures Slot(x, s, key) < Shifted(x, s, key, i)
  {
  }

  /** Stability: of two elements already in key order, the earlier one stays earlier. */
  lemma {:induction false} SortStable<T>(s: seq<T>, key: T -> real, i: nat, j: nat) returns (p: nat, q: nat)
    requires i < j < |s| && key(s[i]) <= key(s[j])
    ensures p < q < |s| && Sort(s, key)[p] == s[i] && Sort(s, key)[q] == s[j]
  {
    var t := Sort(s[1..], key);
    assert s[1..][j - 1] == s[j];
    if i == 0 {
      SortMembers(s[1..], key);
      assert s[1..][j - 1] in t;
      var m :| 0 <= m < |t| && t[m] == s[j];
      SortOrdered(s[1..], key);
      InsertedBefore(s[0], t, key, m);
      p, q := Slot(s[0], t, key), Shifted(s[0], t, key, m);
    } else {
      assert s[1..][i - 1] == s[i];
      var a, b := SortStable(s[1..], key, i - 1, j - 1);
      p, q := Shifted(s[0], t, key, a), Shifted(s[0], t, key, b);
    }
  }

  /** A strictly ordered sequence is determined by its multiset of elements. */
  lemma {:induction false} StrictlyOrderedUnique<T>(s: seq<T>, t: seq<T>, key: T -> real)
    requires StrictlyOrdered(s, key) && StrictlyOrdered(t, key)
    requires forall x :: x in s <==> x in t
    ensures s == t
  {
    assert s != [] ==> s[0] in t;
    assert t != [] ==> t[0] in s;
    if s == [] {
    } else {
      assert s[0] == t[0];
      forall x ensures x in s[1..] <==> x in t[1..] {
        if x in s[1..] { assert x in t; assert key(x) > key(s[0]); }
        if x in t[1..] { assert x in s; assert key(x) > key(t[0]); }
      }
      StrictlyOrderedUnique(s[1..], t[1..], key);
      assert s == [s[0]] + s[1..] && t == [t[0]] + t[1..];
    }
  }

  lemma RepeatedCount<T>(t: seq<T>, i: nat, j: nat)
    requires i < j < |t| && t[i] == t[j]
    ensures multiset(t)[t[i]] >= 2
  {
    assert t == t[..i] + [t[i]] + t[i + 1..j] + [t[j]] + t[j + 1..];
  }

  lemma DistinctCount<T>(s: seq<T>, a: nat, key: T -> real)
    requires DistinctKeys(s, key) && a < |s|
    ensures multiset(s)[s[a]] == 1
  {
    assert s == s[..a] + [s[a]] + s[a + 1..];
    assert s[a] !in s[..a] && s[a] !in s[a + 1..];
  }

  lemma DistinctKeysPermuted<T>(s: seq<T>, t: seq<T>, key: T -> real)
    requires DistinctKeys(s, key) && multiset(s) == multiset(t)
    ensures DistinctKeys(t, key)
  {
    forall i, j | 0 <= i < j < |t| ensures key(t[i]) != key(t[j]) {
      assert t[i] in multiset(s) && t[j] in multiset(s);
      var a :| 0 <= a < |s| && s[a] == t[i];
      var b :| 0 <= b < |s| && s[b] == t[j];
      DistinctCount(s, a, key);
      if t[i] == t[j] { RepeatedCount(t, i, j); }
    }
  }

  /** With distinct keys, sorting forgets the order of the input. */
  lemma SortIgnoresInputOrder<T>(s: seq<T>, t: seq<T>, key: T -> real)
    requires DistinctKeys(s, key) && multiset(s) == multiset(t)
    ensures Sort(s, key) == Sort(t, key) && StrictlyOrdered(Sort(s, key), key)
  {
    SortOrdered(s, key); SortOrdered(t, key);
    SortPermutes(s, key); SortPermutes(t, key);
    DistinctKeysPermuted(s, Sort(s, key), key);
    DistinctKeysPermuted(s, Sort(t, key), key);
    forall x ensures x in Sort(s, key) <==> x in Sort(t, key) {
      assert x in multiset(Sort(s, key)) <==> x in multiset(Sort(t, key));
    }
    StrictlyOrderedUnique(Sort(s, key), Sort(t, key), key);
  }
}

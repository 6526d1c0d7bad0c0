/** Small facts about sets and about sequences without duplicates. */
module Sets {
  /** Takes an element out of a set, as a loop over an unordered collection does. */
  method Pick<T>(s: set<T>) returns (x: T)
    requires s != {}
    ensures x in s
  {
    x :| x in s;
  }

  function Members<T(==)>(s: seq<T>): set<T> { set x | x in s }

  ghost predicate NoDuplicates<T>(s: seq<T>) {
    forall i, j :: 0 <= i < j < |s| ==> s[i] != s[j]
  }

  lemma {:induction false} MembersSize<T>(s: seq<T>)
    requires NoDuplicates(s)
    ensures |Members(s)| == |s|
  {
    if s == [] {
    } else {
      var init, last := s[..|s| - 1], s[|s| - 1];
      MembersSize(init);
      assert s == init + [last];
      assert last !in init;
      assert Members(s) == Members(init) + {last};
    }
  }

  lemma SubsetCard<T>(a: set<T>, b: set<T>)
    requires a <= b
    ensures |a| <= |b|
  {
    assert b == a + (b - a);
  }

  lemma FitsIn<T>(s: seq<T>, t: seq<T>)
    requires NoDuplicates(s) && NoDuplicates(t) && forall x :: x in s ==> x in t
    ensures |s| <= |t|
  {
    MembersSize(s);
    MembersSize(t);
    SubsetCard(Members(s), Members(t));
  }
}

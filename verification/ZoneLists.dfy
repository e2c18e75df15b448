/** Positions in a zone's list of cards. */
module ZoneLists {
  import opened Shuffling

  function IndexOf<T(==)>(s: seq<T>, x: T): (i: nat)
    requires x in s
    ensures i < |s| && s[i] == x
    ensures forall k :: 0 <= k < i ==> s[k] != x
  {
    if s[0] == x then 0 else 1 + IndexOf(s[1..], x)
  }

  function LastIndexOf<T(==)>(s: seq<T>, x: T): (i: nat)
    requires x in s
    ensures i < |s| && s[i] == x
    ensures forall k :: i < k < |s| ==> s[k] != x
  {
    if s[|s| - 1] == x then |s| - 1 else LastIndexOf(s[..|s| - 1], x)
  }

  function RemoveAt<T>(s: seq<T>, i: nat): (r: seq<T>)
    requires i < |s|
    ensures multiset(r) == multiset(s) - multiset{s[i]}
    ensures |r| == |s| - 1
  {
    assert s == s[..i] + [s[i]] + s[i + 1..];
    s[..i] + s[i + 1..]
  }

  function Without<T(==)>(s: seq<T>, x: T): seq<T>
    requires x in s
  {
    RemoveAt(s, IndexOf(s, x))
  }

  lemma WithoutFacts<T(!new)>(s: seq<T>, x: T)
    requires x in s && Distinct(s)
    ensures Distinct(Without(s, x)) && x !in Without(s, x)
    ensures forall y :: y != x ==> (y in s <==> y in Without(s, x))
    ensures Distinct(Without(s, x) + [x])
  {
    var i := IndexOf(s, x);
    var r := Without(s, x);
    assert forall k :: 0 <= k < |r| ==> r[k] == if k < i then s[k] else s[k + 1];
    forall y | y != x && y in s
      ensures y in r
    {
      var k :| 0 <= k < |s| && s[k] == y;
      assert r[if k < i then k else k - 1] == y;
    }
  }

  /** QList::insert when the position lies inside the list, append otherwise. */
  function InsertAt<T>(s: seq<T>, i: int, x: T): (r: seq<T>)
    ensures multiset(r) == multiset(s) + multiset{x}
    ensures |r| == |s| + 1
  {
    if 0 <= i < |s| then
      assert s == s[..i] + s[i..];
      s[..i] + [x] + s[i..]
    else s + [x]
  }

  lemma DistinctByMultiset<T(!new)>(s: seq<T>)
    ensures Distinct(s) <==> forall x :: x in s ==> multiset(s)[x] == 1
    decreases |s|
  {
    if s != [] {
      assert s == [s[0]] + s[1..];
      DistinctByMultiset(s[1..]);
      forall x | x in s[1..]
        ensures multiset(s)[x] == multiset(s[1..])[x] + (if x == s[0] then 1 else 0)
      {
      }
      if Distinct(s) {
        assert s[0] !in s[1..];
      }
      if forall x :: x in s ==> multiset(s)[x] == 1 {
        assert multiset(s)[s[0]] == 1;
        assert s[0] !in s[1..];
      }
    }
  }

  lemma HeadIsMember<T>(s: seq<T>)
    ensures |s| > 0 ==> s[0] in s
  {
  }

  lemma EmptyWithoutMembers<T>(s: seq<T>)
    requires forall x :: x !in s
    ensures s == []
  {
    HeadIsMember(s);
  }
}

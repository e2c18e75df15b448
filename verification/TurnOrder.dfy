/** Whose turn comes next: cyclic order of the player ids, in either direction. */
module TurnOrder {

  /** Strictly ascending, as the keys of a sorted map are listed. */
  predicate Ascending(q: seq<int>)
  {
    forall i, j :: 0 <= i < j < |q| ==> q[i] < q[j]
  }

  lemma HasMember(s: set<int>)
    ensures s == {} || exists a :: a in s
  {
    if forall a :: a !in s {
      assert s == {};
    }
  }

  ghost function Member(s: set<int>): (a: int)
    requires s != {}
    ensures a in s
  {
    HasMember(s);
    var a :| a in s;
    a
  }

  lemma {:induction false} LeastExists(s: set<int>)
    requires s != {}
    ensures exists m :: m in s && forall x :: x in s ==> m <= x
    decreases |s|
  {
    var a := Member(s);
    if s - {a} != {} {
      LeastExists(s - {a});
      var m :| m in s - {a} && forall x :: x in s - {a} ==> m <= x;
      var least := if a < m then a else m;
      forall x | x in s
        ensures least <= x
      {
        assert x == a || x in s - {a};
      }
      assert least in s;
    } else {
      assert s == {a};
    }
  }

  function Least(s: set<int>): (m: int)
    requires s != {}
    ensures m in s && forall x :: x in s ==> m <= x
  {
    LeastExists(s);
    var m :| m in s && forall x :: x in s ==> m <= x;
    m
  }

  lemma GreatestExists(s: set<int>)
    requires s != {}
    ensures exists m :: m in s && forall x :: x in s ==> x <= m
  {
    var a := Member(s);
    var negated := set x | x in s :: -x;
    assert -a in negated;
    var m := -Least(negated);
    forall x | x in s
      ensures x <= m
    {
      assert -x in negated;
    }
    assert m in s;
  }

  function Greatest(s: set<int>): (m: int)
    requires s != {}
    ensures m in s && forall x :: x in s ==> x <= m
  {
    GreatestExists(s);
    var m :| m in s && forall x :: x in s ==> x <= m;
    m
  }

  /** `q` is the set `s` written out in ascending order. */
  predicate Lists(q: seq<int>, s: set<int>)
  {
    && Ascending(q)
    && (forall i :: 0 <= i < |q| ==> q[i] in s)
    && (forall x :: x in s ==> exists i :: 0 <= i < |q| && q[i] == x)
  }

  /** The ids of a set in the order the players' map lists them. */
  function Listed(s: set<int>): (q: seq<int>)
    ensures Lists(q, s) && |q| == |s|
    decreases |s|
  {
    if s == {} then [] else
      var rest := Listed(s - {Least(s)});
      var q := [Least(s)] + rest;
      ListedAll(s, rest);
      q
  }

  lemma ListedAll(s: set<int>, rest: seq<int>)
    requires s != {} && Lists(rest, s - {Least(s)})
    ensures Lists([Least(s)] + rest, s)
  {
    var q := [Least(s)] + rest;
    forall x | x in s
      ensures exists i :: 0 <= i < |q| && q[i] == x
    {
      if x == Least(s) {
        assert q[0] == x;
      } else {
        assert x in s - {Least(s)};
        var i :| 0 <= i < |rest| && rest[i] == x;
        assert q[i + 1] == x;
      }
    }
  }

  lemma FirstIsLeast(keys: seq<int>, s: set<int>, chosen: set<int>, i: nat)
    requires Lists(keys, s) && chosen <= s && i < |keys| && keys[i] in chosen
    requires forall j :: 0 <= j < i ==> keys[j] !in chosen
    ensures chosen != {} && Least(chosen) == keys[i]
  {
    var least := Least(chosen);
    var k :| 0 <= k < |keys| && keys[k] == least;
  }

  function Above(s: set<int>, a: int): set<int>
  {
    set x | x in s && x > a
  }

  function Below(s: set<int>, a: int): set<int>
  {
    set x | x in s && x < a
  }

  /**
   The eligible player who follows `a`: the nearest id in the direction of play, wrapping round at
   the end. This is the meaning nextTurn's index loop is proved to have.
   */
  function NextActive(eligible: set<int>, a: int, backwards: bool): (e: int)
    requires eligible != {}
    ensures e in eligible
  {
    if backwards then
      if Below(eligible, a) != {} then Greatest(Below(eligible, a)) else Greatest(eligible)
    else
      if Above(eligible, a) != {} then Least(Above(eligible, a)) else Least(eligible)
  }

  // ------------------------------------------------------------------ rotation

  lemma PositionOf(q: seq<int>, s: set<int>, a: int) returns (i: nat)
    requires Lists(q, s) && a in s
    ensures i < |q| && q[i] == a
  {
    i :| 0 <= i < |q| && q[i] == a;
  }

  /** Positions run cyclically: the one after the last is the first. */
  function Wrap(i: int, size: nat): (j: int)
    requires 0 <= i < 2 * size
    ensures 0 <= j < size
  {
    if i < size then i else i - size
  }

  lemma NextIsSuccessor(q: seq<int>, s: set<int>, i: nat)
    requires Lists(q, s) && i < |q|
    ensures s != {} && NextActive(s, q[i], false) == q[Wrap(i + 1, |q|)]
  {
    assert q[i] in s;
    if i + 1 < |q| {
      assert q[i + 1] in Above(s, q[i]);
      var k := PositionOf(q, s, Least(Above(s, q[i])));
    } else {
      NoneAbove(q, s);
      var k := PositionOf(q, s, Least(s));
      assert q[0] in s;
    }
  }

  lemma NoneAbove(q: seq<int>, s: set<int>)
    requires Lists(q, s) && q != []
    ensures Above(s, q[|q| - 1]) == {} && Below(s, q[0]) == {}
  {
    forall x | x in s
      ensures q[0] <= x <= q[|q| - 1]
    {
      var k := PositionOf(q, s, x);
    }
  }

  lemma PreviousIsPredecessor(q: seq<int>, s: set<int>, i: nat)
    requires Lists(q, s) && i < |q|
    ensures s != {} && NextActive(s, q[i], true) == q[Wrap(i + |q| - 1, |q|)]
  {
    assert q[i] in s;
    if i > 0 {
      assert q[i - 1] in Below(s, q[i]);
      var k := PositionOf(q, s, Greatest(Below(s, q[i])));
    } else {
      NoneAbove(q, s);
      var k := PositionOf(q, s, Greatest(s));
      assert q[|q| - 1] in s;
    }
  }

  /** The active player after `n` more turns. */
  function AfterTurns(s: set<int>, a: int, backwards: bool, n: nat): (e: int)
    requires a in s
    ensures e in s
  {
    if n == 0 then a else NextActive(s, AfterTurns(s, a, backwards, n - 1), backwards)
  }

  /** The position `n` steps on from position `i`, in the direction of play. */
  function Position(i: nat, n: nat, size: nat, backwards: bool): (j: nat)
    requires i < size && n <= size
    ensures j < size
  {
    if backwards then Wrap(i + size - n, size) else Wrap(i + n, size)
  }

  lemma {:induction false} TurnsAdvance(q: seq<int>, s: set<int>, i: nat, backwards: bool, n: nat)
    requires Lists(q, s) && i < |q| && n <= |q|
    ensures q[i] in s && AfterTurns(s, q[i], backwards, n) == q[Position(i, n, |q|, backwards)]
  {
    hide NextActive;
    if n > 0 {
      TurnsAdvance(q, s, i, backwards, n - 1);
      if backwards {
        PreviousIsPredecessor(q, s, Position(i, n - 1, |q|, backwards));
      } else {
        NextIsSuccessor(q, s, Position(i, n - 1, |q|, backwards));
      }
    }
  }

  /**
   With k eligible players, k turns in either direction come back to the start, and each of them is
   active exactly once on the way.
   */
  lemma RotationVisitsEachOnce(s: set<int>, a: int, e: int, backwards: bool) returns (n: nat)
    requires a in s && e in s
    ensures AfterTurns(s, a, backwards, |s|) == a
    ensures n < |s| && AfterTurns(s, a, backwards, n) == e
    ensures forall m: nat :: m < |s| && AfterTurns(s, a, backwards, m) == e ==> m == n
  {
    hide AfterTurns; hide Listed;
    var q := Listed(s);
    var i := PositionOf(q, s, a);
    var j := PositionOf(q, s, e);
    TurnsAdvance(q, s, i, backwards, |s|);
    n := if backwards then (if j <= i then i - j else i - j + |s|) else (if j >= i then j - i else j - i + |s|);
    TurnsAdvance(q, s, i, backwards, n);
    forall m: nat | m < |s| && AfterTurns(s, a, backwards, m) == e
      ensures m == n
    {
      TurnsAdvance(q, s, i, backwards, m);
      assert Position(i, m, |q|, backwards) == j;
    }
  }

  /** A turn forward and a turn backward cancel, in either order. */
  lemma ReverseUndoesTurn(s: set<int>, a: int)
    requires a in s
    ensures NextActive(s, NextActive(s, a, false), true) == a
    ensures NextActive(s, NextActive(s, a, true), false) == a
  {
    hide NextActive; hide Listed;
    var q := Listed(s);
    var i := PositionOf(q, s, a);
    NextIsSuccessor(q, s, i);
    PreviousIsPredecessor(q, s, i);
    PreviousIsPredecessor(q, s, Wrap(i + 1, |q|));
    NextIsSuccessor(q, s, Wrap(i + |q| - 1, |q|));
  }

  // ------------------------------------------------------------------ nextTurn's loop

  /** The slot the loop looks at after `pos`. */
  function NextSlot(pos: int, size: int, backwards: bool): int
  {
    if backwards then
      if pos - 1 < 0 then size - 1 else pos - 1
    else
      if pos + 1 == size then 0 else pos + 1
  }

  /** Slots still to be looked at before the loop is back where it began. */
  function SlotsLeft(start: int, pos: int, size: int, backwards: bool): int
  {
    if backwards then
      if pos >= start then pos - start else pos + size - start
    else
      if pos <= start then start - pos else start - pos + size
  }

  /** Looked at between `start` (exclusive, -1 when it is not listed) and `pos` (inclusive). */
  predicate Passed(start: int, pos: int, size: int, backwards: bool, k: int)
  {
    if backwards then
      if 0 <= start && pos < start then pos <= k < start else k >= pos || k < start
    else
      if pos > start then start < k <= pos else k > start || k <= pos
  }

  /** Every listed slot in the loop's path up to `pos` but `pos` itself holds an ineligible player. */
  predicate Skipped(keys: seq<int>, eligible: set<int>, start: int, pos: int, backwards: bool)
  {
    forall k :: 0 <= k < |keys| && k != pos && Passed(start, pos, |keys|, backwards, k) ==> keys[k] !in eligible
  }

  lemma FirstLook(keys: seq<int>, eligible: set<int>, start: int, backwards: bool)
    requires -1 <= start < |keys| && keys != []
    ensures var pos := NextSlot(start, |keys|, backwards);
            0 <= pos < |keys| && Skipped(keys, eligible, start, pos, backwards)
  {
  }

  /** While nobody eligible has been seen there are slots left to look at, and the next look keeps the account. */
  lemma StillLooking(keys: seq<int>, eligible: set<int>, start: int, pos: nat, backwards: bool)
    requires (forall e :: e in eligible ==> e in keys) && eligible != {}
    requires -1 <= start < |keys| && pos < |keys| && keys[pos] !in eligible
    requires Skipped(keys, eligible, start, pos, backwards)
    ensures var next := NextSlot(pos, |keys|, backwards);
            && 0 <= next < |keys| && Skipped(keys, eligible, start, next, backwards)
            && 0 <= SlotsLeft(start, next, |keys|, backwards) < SlotsLeft(start, pos, |keys|, backwards)
  {
    var e := Member(eligible);
    var k :| 0 <= k < |keys| && keys[k] == e;
    assert !Passed(start, pos, |keys|, backwards, k);
  }

  lemma FoundIsNext(keys: seq<int>, eligible: set<int>, start: int, pos: nat, a: int, backwards: bool)
    requires Ascending(keys) && (forall e :: e in eligible ==> e in keys)
    requires -1 <= start < |keys| && pos < |keys| && keys[pos] in eligible
    requires if start == -1 then forall k :: 0 <= k < |keys| ==> a < keys[k] else a == keys[start]
    requires Skipped(keys, eligible, start, pos, backwards)
    ensures eligible != {} && NextActive(eligible, a, backwards) == keys[pos]
  {
    var next := NextActive(eligible, a, backwards);
    var k :| 0 <= k < |keys| && keys[k] == next;
    if start >= 0 && pos != start {
      assert keys[pos] < a <==> pos < start;
    }
    assert keys[pos] < a ==> keys[pos] in Below(eligible, a);
    assert keys[pos] > a ==> keys[pos] in Above(eligible, a);
    assert !Passed(start, pos, |keys|, backwards, k) || k == pos;
  }
}

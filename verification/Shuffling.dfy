/**
 The Fisher-Yates shuffle of a slice (common/server_cardzone.cpp, Server_CardZone::shuffle).
 `choices` lists the numbers drawn for i = end, end-1, .., start+1.  The main results: valid
 choices and permutations of the slice correspond one to one.
 */
module Shuffling {
  import opened Wrappers
  import opened Rng

  function Swap<T>(s: seq<T>, i: nat, j: nat): (t: seq<T>)
    requires i < |s| && j < |s|
    ensures |t| == |s|
    ensures forall k :: 0 <= k < |s| ==> t[k] == if k == i then s[j] else if k == j then s[i] else s[k]
  {
    s[i := s[j]][j := s[i]]
  }

  /** One draw for every i from `last` down to start + 1, each from [start, i]. */
  ghost predicate ValidChoices(choices: seq<nat>, start: nat, last: int)
  {
    && |choices| == (if last <= start then 0 else last - start)
    && forall k :: 0 <= k < |choices| ==> start <= choices[k] <= last - k
  }

  ghost function Shuffled<T>(s: seq<T>, start: nat, last: int, choices: seq<nat>): (t: seq<T>)
    requires start <= |s| && last < |s| && ValidChoices(choices, start, last)
    ensures |t| == |s|
    decreases |choices|
  {
    if last <= start then s
    else Shuffled(Swap(s, choices[0], last), start, last - 1, choices[1..])
  }

  ghost predicate Distinct<T(!new)>(s: seq<T>)
  {
    forall i, j :: 0 <= i < j < |s| ==> s[i] != s[j]
  }

  /** t rearranges only the slice [start, last] of s. */
  ghost predicate RearrangesSlice<T>(s: seq<T>, t: seq<T>, start: nat, last: int)
    requires start <= last + 1 <= |s|
  {
    && |t| == |s|
    && s[..start] == t[..start]
    && s[last + 1..] == t[last + 1..]
    && multiset(s[start..last + 1]) == multiset(t[start..last + 1])
  }

  lemma SplitSlice<T>(s: seq<T>, start: nat, last: nat)
    requires start <= last < |s|
    ensures multiset(s[start..last + 1]) == multiset(s[start..last]) + multiset{s[last]}
  {
    assert s[start..last + 1] == s[start..last] + [s[last]];
  }

  lemma SwapKeepsSlice<T>(s: seq<T>, start: nat, last: nat, j: nat)
    requires start <= j <= last < |s|
    ensures RearrangesSlice(s, Swap(s, j, last), start, last)
  {
    var t, u := Swap(s, j, last), s[start..last + 1];
    var v := u[j - start := s[last]][last - start := s[j]];
    assert t[..start] == s[..start] && t[last + 1..] == s[last + 1..];
    assert t[start..last + 1] == v;
    assert multiset(u[j - start := s[last]]) == multiset(u) - multiset{s[j]} + multiset{s[last]};
  }

  // ------------------------------------------------- every choice permutes the slice

  lemma LongerSlice<T>(s: seq<T>, t: seq<T>, start: nat, last: nat)
    requires start < last < |s| && RearrangesSlice(s, t, start, last - 1)
    ensures RearrangesSlice(s, t, start, last)
  {
    assert s[last..][0] == t[last..][0];
    assert s[last + 1..] == s[last..][1..] == t[last..][1..] == t[last + 1..];
    SplitSlice(s, start, last);
    SplitSlice(t, start, last);
  }

  lemma SameSlice<T>(s: seq<T>, start: nat, last: int)
    requires start <= last + 1 <= |s|
    ensures RearrangesSlice(s, s, start, last)
  {
  }

  lemma RearrangesThen<T>(s: seq<T>, t: seq<T>, u: seq<T>, start: nat, last: int)
    requires start <= last + 1 <= |s|
    requires RearrangesSlice(s, t, start, last) && RearrangesSlice(t, u, start, last)
    ensures RearrangesSlice(s, u, start, last)
  {
  }

  lemma {:induction false} ShuffledRearranges<T>(s: seq<T>, start: nat, last: int, choices: seq<nat>)
    requires start <= last + 1 <= |s| && ValidChoices(choices, start, last)
    ensures RearrangesSlice(s, Shuffled(s, start, last, choices), start, last)
    decreases |choices|
  {
    hide RearrangesSlice; hide Swap;
    SameSlice(s, start, last);
    if start < last {
      var s' := Swap(s, choices[0], last);
      var t := Shuffled(s, start, last, choices);
      SwapKeepsSlice(s, start, last, choices[0]);
      ShuffledRearranges(s', start, last - 1, choices[1..]);
      LongerSlice(s', t, start, last);
      RearrangesThen(s, s', t, start, last);
    }
  }

  /** The whole zone holds the same cards after the shuffle. */
  lemma ShuffledSameCards<T>(s: seq<T>, start: nat, last: int, choices: seq<nat>)
    requires start <= last + 1 <= |s| && ValidChoices(choices, start, last)
    ensures multiset(Shuffled(s, start, last, choices)) == multiset(s)
  {
    ShuffledRearranges(s, start, last, choices);
    RearrangedSameCards(s, Shuffled(s, start, last, choices), start, last);
  }

  lemma RearrangedSameCards<T>(s: seq<T>, t: seq<T>, start: nat, last: int)
    requires start <= last + 1 <= |s| && RearrangesSlice(s, t, start, last)
    ensures multiset(s) == multiset(t)
  {
    assert s == s[..start] + s[start..last + 1] + s[last + 1..];
    assert t == t[..start] + t[start..last + 1] + t[last + 1..];
  }

  lemma SwapKeepsCards<T>(s: seq<T>, j: nat, i: nat)
    requires j <= i < |s|
    ensures multiset(Swap(s, j, i)) == multiset(s)
  {
    SwapKeepsSlice(s, j, i, j);
    RearrangedSameCards(s, Swap(s, j, i), j, i);
  }

  // ------------------------------------------------- different choices, different results

  lemma {:induction false} LastIsSettled<T>(s: seq<T>, start: nat, last: nat, choices: seq<nat>)
    requires start < last < |s| && ValidChoices(choices, start, last)
    ensures Shuffled(s, start, last, choices)[last] == s[choices[0]]
  {
    var s' := Swap(s, choices[0], last);
    ShuffledRearranges(s', start, last - 1, choices[1..]);
    assert s'[last..][0] == Shuffled(s, start, last, choices)[last..][0];
  }

  lemma {:induction false} ShuffledInjective<T(!new)>(s: seq<T>, start: nat, last: int, c: seq<nat>, d: seq<nat>)
    requires start <= last + 1 <= |s| && Distinct(s)
    requires ValidChoices(c, start, last) && ValidChoices(d, start, last)
    requires Shuffled(s, start, last, c) == Shuffled(s, start, last, d)
    ensures c == d
    decreases |c|
  {
    if start < last {
      LastIsSettled(s, start, last, c);
      LastIsSettled(s, start, last, d);
      assert s[c[0]] == s[d[0]];
      assert c[0] == d[0];
      ShuffledInjective(Swap(s, c[0], last), start, last - 1, c[1..], d[1..]);
      assert c == [c[0]] + c[1..] && d == [d[0]] + d[1..];
    }
  }

  // ------------------------------------------------- every permutation is reached

  lemma FindInSlice<T>(s: seq<T>, start: nat, last: nat, x: T) returns (j: nat)
    requires start <= last < |s| && x in multiset(s[start..last + 1])
    ensures start <= j <= last && s[j] == x
  {
    var k :| 0 <= k < |s[start..last + 1]| && s[start..last + 1][k] == x;
    j := start + k;
  }

  lemma TrivialSlice<T>(s: seq<T>, t: seq<T>, start: nat, last: int)
    requires start <= last + 1 <= |s| && last <= start && RearrangesSlice(s, t, start, last)
    ensures s == t
  {
    assert s == s[..start] + s[start..last + 1] + s[last + 1..];
    assert t == t[..start] + t[start..last + 1] + t[last + 1..];
    if start == last {
      OneMember(s[start..last + 1], t[start..last + 1]);
    } else {
      assert s[start..last + 1] == [] == t[start..last + 1];
    }
  }

  lemma OneMember<T>(a: seq<T>, b: seq<T>)
    requires |a| == 1 == |b| && multiset(a) == multiset(b)
    ensures a == b
  {
    assert a == [a[0]] && b == [b[0]];
    assert a[0] in multiset(b);
  }

  lemma SettleLast<T>(s: seq<T>, t: seq<T>, start: nat, last: nat)
    requires start < last < |s| && RearrangesSlice(s, t, start, last) && s[last] == t[last]
    ensures RearrangesSlice(s, t, start, last - 1)
  {
    SplitSlice(s, start, last);
    SplitSlice(t, start, last);
    assert s[last..] == [s[last]] + s[last + 1..];
    assert t[last..] == [t[last]] + t[last + 1..];
    var a, b, x := multiset(s[start..last]), multiset(t[start..last]), multiset{t[last]};
    assert a == (a + x) - x == (b + x) - x == b;
  }

  lemma RearrangesTrans<T>(s: seq<T>, t: seq<T>, u: seq<T>, start: nat, last: int)
    requires start <= last + 1 <= |s|
    requires RearrangesSlice(s, t, start, last) && RearrangesSlice(s, u, start, last)
    ensures RearrangesSlice(t, u, start, last)
  {
  }

  lemma {:induction false} ShuffledSurjective<T>(s: seq<T>, t: seq<T>, start: nat, last: int)
    returns (choices: seq<nat>)
    requires start <= last + 1 <= |s| && RearrangesSlice(s, t, start, last)
    ensures ValidChoices(choices, start, last)
    ensures Shuffled(s, start, last, choices) == t
    decreases last - start
  {
    if last <= start {
      choices := [];
      TrivialSlice(s, t, start, last);
    } else {
      var j := ChooseLast(s, t, start, last);
      var rest := ShuffledSurjective(Swap(s, j, last), t, start, last - 1);
      choices := [j] + rest;
      ConsChoices(s, start, last, j, rest);
    }
  }

  /** The choice that brings the right element to the end of the slice. */
  lemma ChooseLast<T>(s: seq<T>, t: seq<T>, start: nat, last: nat) returns (j: nat)
    requires start < last < |s| && RearrangesSlice(s, t, start, last)
    ensures start <= j <= last && RearrangesSlice(Swap(s, j, last), t, start, last - 1)
  {
    assert t[last] in multiset(t[start..last + 1]) by { SplitSlice(t, start, last); }
    j := FindInSlice(s, start, last, t[last]);
    var s' := Swap(s, j, last);
    SwapKeepsSlice(s, start, last, j);
    RearrangesTrans(s, s', t, start, last);
    SettleLast(s', t, start, last);
  }

  lemma ConsChoices<T>(s: seq<T>, start: nat, last: nat, j: nat, rest: seq<nat>)
    requires start < last < |s| && start <= j <= last && ValidChoices(rest, start, last - 1)
    ensures ValidChoices([j] + rest, start, last)
    ensures Shuffled(s, start, last, [j] + rest) == Shuffled(Swap(s, j, last), start, last - 1, rest)
  {
    assert ([j] + rest)[1..] == rest;
  }

  /**
   The shuffle is a bijection between valid choice sequences and rearrangements of the slice:
   with uniform independent draws every order of the slice is equally likely.
   */
  lemma ShuffleIsBijection<T(!new)>(s: seq<T>, t: seq<T>, start: nat, last: int)
    requires start <= last + 1 <= |s| && Distinct(s)
    ensures RearrangesSlice(s, t, start, last)
            <==> exists c :: ValidChoices(c, start, last) && Shuffled(s, start, last, c) == t
    ensures forall c, d |
              && ValidChoices(c, start, last) && ValidChoices(d, start, last)
              && Shuffled(s, start, last, c) == t == Shuffled(s, start, last, d) :: c == d
  {
    if RearrangesSlice(s, t, start, last) {
      var c := ShuffledSurjective(s, t, start, last);
    }
    forall c | ValidChoices(c, start, last) && Shuffled(s, start, last, c) == t
      ensures RearrangesSlice(s, t, start, last)
    {
      ShuffledRearranges(s, start, last, c);
    }
    forall c, d | ValidChoices(c, start, last) && ValidChoices(d, start, last)
                  && Shuffled(s, start, last, c) == t == Shuffled(s, start, last, d)
      ensures c == d
    {
      ShuffledInjective(s, start, last, c, d);
    }
  }

  // ------------------------------------------------- with numbers drawn from the generator

  /** The numbers drawn for i = last down to start + 1, and the generator's position afterwards. */
  ghost function Drawn(words: seq<uint64>, pos: nat, start: nat, last: int): Option<(seq<nat>, nat)>
    requires pos <= |words| && last < 0x8000_0000
    decreases last - start
  {
    if last <= start then Some(([], pos))
    else
      var k := FirstAccepted(words, pos, start, last);
      if k == |words| then None
      else
        var rest := Drawn(words, k + 1, start, last - 1);
        if rest == None then None else Some(([Sample(words[k], start, last)] + rest.value.0, rest.value.1))
  }

  /** The swap loop: None when the stretch of words runs out. */
  function SwapLoop<T>(s: seq<T>, words: seq<uint64>, pos: nat, start: nat, i: int): Option<(seq<T>, nat)>
    requires pos <= |words| && i < |s| && i < 0x8000_0000
    decreases i - start
  {
    if i <= start then Some((s, pos))
    else
      var k := FirstAccepted(words, pos, start, i);
      if k == |words| then None
      else
        SampleInRange(words[k], start, i);
        SwapLoop(Swap(s, Sample(words[k], start, i), i), words, k + 1, start, i - 1)
  }

  /** What the loop computes is the shuffle for the numbers drawn. */
  lemma {:induction false} SwapLoopShuffles<T>(s: seq<T>, words: seq<uint64>, pos: nat, start: nat, last: int)
    requires pos <= |words| && start <= |s| && last < |s| && last < 0x8000_0000
    ensures SwapLoop(s, words, pos, start, last) == None <==> Drawn(words, pos, start, last) == None
    ensures SwapLoop(s, words, pos, start, last).Some? ==>
              var d := Drawn(words, pos, start, last).value;
              ValidChoices(d.0, start, last)
              && SwapLoop(s, words, pos, start, last).value == (Shuffled(s, start, last, d.0), d.1)
    decreases last - start
  {
    if start < last {
      var k := FirstAccepted(words, pos, start, last);
      if k < |words| {
        SampleInRange(words[k], start, last);
        var j := Sample(words[k], start, last);
        SwapLoopShuffles(Swap(s, j, last), words, k + 1, start, last - 1);
        var rest := Drawn(words, k + 1, start, last - 1);
        if rest.Some? {
          ConsChoices(s, start, last, j, rest.value.0);
        }
      }
    }
  }
}

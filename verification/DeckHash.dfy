/** The canonical hash of a deck: which copies of which cards are in library and crypt, and nothing else. */
module DeckHash {
  import opened Collections
  import opened DeckXml

  const LIBRARY := "library"
  const CRYPT := "crypt"
  const TOKENS := "tokens"

  type Byte = b: int | 0 <= b < 256

  /** What the digest function returns: twenty bytes, as SHA-1 does. */
  type Digest = d: seq<Byte> | |d| == 20 witness seq(20, i => 0)

  // ------------------------------------------------------------------ the list of copies

  predicate Hashed(zone: string)
  {
    zone == LIBRARY || zone == CRYPT
  }

  /** Top-level zones, with nothing but cards in those that are hashed. */
  predicate Hashable(zones: seq<Tree>)
  {
    forall z :: z in zones ==> z.Zone? && (Hashed(z.name) ==> forall t :: t in z.children ==> t.Card?)
  }

  /** The entry for one copy of a card; crypt cards are marked. */
  function Entry(zone: string, card: string, lower: string -> string): string
  {
    (if zone == CRYPT then "SB:" else "") + lower(card)
  }

  function Copies(entry: string, number: int): (c: seq<string>)
    ensures |c| == if number > 0 then number else 0
    ensures forall e :: e in c ==> e == entry
    decreases if number > 0 then number else 0
  {
    if number <= 0 then [] else Copies(entry, number - 1) + [entry]
  }

  function RowEntries(zone: string, rows: seq<Tree>, lower: string -> string): seq<string>
    requires forall t :: t in rows ==> t.Card?
  {
    if rows == [] then []
    else RowEntries(zone, rows[..|rows| - 1], lower)
         + Copies(Entry(zone, rows[|rows| - 1].name, lower), rows[|rows| - 1].number)
  }

  function CardList(zones: seq<Tree>, lower: string -> string): seq<string>
    requires Hashable(zones)
  {
    if zones == [] then []
    else
      var last := zones[|zones| - 1];
      CardList(zones[..|zones| - 1], lower) + if Hashed(last.name) then RowEntries(last.name, last.children, lower) else []
  }

  /** A zone nobody knows makes the deck invalid as soon as anything is in it. */
  predicate ValidZone(z: Tree)
    requires z.Zone?
  {
    z.children == [] || Hashed(z.name) || z.name == TOKENS
  }

  predicate ValidDeck(zones: seq<Tree>)
    requires forall z :: z in zones ==> z.Zone?
  {
    forall z :: z in zones ==> ValidZone(z)
  }

  // ------------------------------------------------------------------ sorting

  /** The order of QString's operator<: by code unit, a prefix first. */
  predicate Leq(a: string, b: string)
  {
    a == [] || (b != [] && (a[0] < b[0] || (a[0] == b[0] && Leq(a[1..], b[1..]))))
  }

  lemma {:induction false} LeqTotal(a: string, b: string)
    ensures Leq(a, b) || Leq(b, a)
    ensures Leq(a, b) && Leq(b, a) ==> a == b
  {
    if a != [] && b != [] && a[0] == b[0] {
      LeqTotal(a[1..], b[1..]);
      assert a == [a[0]] + a[1..] && b == [b[0]] + b[1..];
    }
  }

  lemma {:induction false} LeqTransitive(a: string, b: string, c: string)
    requires Leq(a, b) && Leq(b, c)
    ensures Leq(a, c)
  {
    if a != [] && a[0] == b[0] == c[0] {
      LeqTransitive(a[1..], b[1..], c[1..]);
    }
  }

  predicate InOrder(s: seq<string>)
  {
    forall i, j :: 0 <= i < j < |s| ==> Leq(s[i], s[j])
  }

  function Inserted(s: seq<string>, x: string): (t: seq<string>)
    ensures multiset(t) == multiset(s) + multiset{x}
  {
    if s == [] then [x]
    else if Leq(x, s[0]) then [x] + s
    else
      assert s == [s[0]] + s[1..];
      [s[0]] + Inserted(s[1..], x)
  }

  lemma {:induction false} InsertedInOrder(s: seq<string>, x: string)
    requires InOrder(s)
    ensures InOrder(Inserted(s, x))
  {
    if s != [] {
      LeqTotal(x, s[0]);
      var t := Inserted(s, x);
      if Leq(x, s[0]) {
        forall j | 0 < j < |t|
          ensures Leq(t[0], t[j])
        {
          if j > 1 {
            LeqTransitive(x, s[0], s[j - 1]);
          }
        }
      } else {
        InsertedInOrder(s[1..], x);
        forall j | 0 < j < |t|
          ensures Leq(t[0], t[j])
        {
          assert t[j] == t[1..][j - 1] && t[j] in multiset(t[1..]);
          assert t[j] == x || t[j] in s[1..];
        }
      }
    }
  }

  function Sorted(s: seq<string>): (t: seq<string>)
    ensures multiset(t) == multiset(s) && InOrder(t)
  {
    if s == [] then []
    else
      assert s == [s[0]] + s[1..];
      InsertedInOrder(Sorted(s[1..]), s[0]);
      Inserted(Sorted(s[1..]), s[0])
  }

  /** Whatever algorithm sorts the list: there is only one result. */
  lemma {:induction false} SortedUnique(s: seq<string>, t: seq<string>)
    requires InOrder(s) && InOrder(t) && multiset(s) == multiset(t)
    ensures s == t
  {
    if s == [] {
      assert |multiset(t)| == 0;
    } else {
      assert s[0] in multiset(t) && |multiset(t)| > 0;
      assert t[0] in multiset(s);
      var i :| 0 <= i < |t| && t[i] == s[0];
      var j :| 0 <= j < |s| && s[j] == t[0];
      LeqTotal(s[0], t[0]);
      assert s[0] == t[0];
      assert s == [s[0]] + s[1..] && t == [t[0]] + t[1..];
      assert multiset(s[1..]) == multiset(s) - multiset{s[0]};
      assert multiset(t[1..]) == multiset(t) - multiset{t[0]};
      SortedUnique(s[1..], t[1..]);
    }
  }

  function Joined(s: seq<string>): string
  {
    if s == [] then "" else if |s| == 1 then s[0] else s[0] + ";" + Joined(s[1..])
  }

  // ------------------------------------------------------------------ eight digits

  /** The first five bytes as one number, the first the most significant. */
  function Number(d: Digest): (n: nat)
    ensures n < 0x100_0000_0000
  {
    var b0: int, b1: int, b2: int, b3: int, b4: int := d[0], d[1], d[2], d[3], d[4];
    b0 * 0x1_0000_0000 + b1 * 0x100_0000 + b2 * 0x1_0000 + b3 * 0x100 + b4
  }

  predicate IsDigit32(c: char)
  {
    '0' <= c <= '9' || 'a' <= c <= 'v'
  }

  function Digit32(d: int): (c: char)
    requires 0 <= d < 32
    ensures IsDigit32(c) && Value32(c) == d
  {
    if d < 10 then (d + 48) as char else (d + 87) as char
  }

  function Value32(c: char): (d: int)
    requires IsDigit32(c)
    ensures 0 <= d < 32
  {
    if c <= '9' then c as int - 48 else c as int - 87
  }

  predicate AllDigits32(s: string)
  {
    forall i :: 0 <= i < |s| ==> IsDigit32(s[i])
  }

  /** QString::number in base 32. */
  function Base32(n: nat): (s: string)
    ensures AllDigits32(s) && s != []
  {
    if n < 32 then [Digit32(n)] else Base32(n / 32) + [Digit32(n % 32)]
  }

  function Padded(s: string, width: nat): string
    decreases width - |s|
  {
    if |s| >= width then s else Padded(['0'] + s, width)
  }

  function Value(s: string): (n: nat)
    requires AllDigits32(s)
  {
    if s == [] then 0 else 32 * Value(s[..|s| - 1]) + Value32(s[|s| - 1])
  }

  function Power32(k: nat): (p: nat)
    ensures p >= 1
  {
    if k == 0 then 1 else 32 * Power32(k - 1)
  }

  lemma {:induction false} Base32Short(n: nat, k: nat)
    requires n < Power32(k) && k >= 1
    ensures |Base32(n)| <= k
  {
    if n >= 32 {
      Base32Short(n / 32, k - 1);
    }
  }

  lemma {:induction false} Base32Value(n: nat)
    ensures Value(Base32(n)) == n
  {
    if n >= 32 {
      Base32Value(n / 32);
      var s := Base32(n);
      assert s[..|s| - 1] == Base32(n / 32);
    }
  }

  lemma {:induction false} LeadingZero(s: string)
    requires AllDigits32(s)
    ensures AllDigits32(['0'] + s) && Value(['0'] + s) == Value(s)
  {
    var z := ['0'] + s;
    if s == [] {
      assert z[..0] == [];
      assert Value(z) == 0;
    } else {
      LeadingZero(s[..|s| - 1]);
      assert z[..|z| - 1] == ['0'] + s[..|s| - 1];
    }
  }

  lemma {:induction false} PaddedValue(s: string, width: nat)
    requires AllDigits32(s)
    ensures AllDigits32(Padded(s, width)) && Value(Padded(s, width)) == Value(s)
    ensures |Padded(s, width)| == if |s| > width then |s| else width
    decreases width - |s|
  {
    if |s| < width {
      LeadingZero(s);
      PaddedValue(['0'] + s, width);
    }
  }

  function Shown(d: Digest): string
  {
    Padded(Base32(Number(d)), 8)
  }

  /** A valid hash is always exactly eight base-32 digits. */
  lemma ShownIsEightDigits(d: Digest)
    ensures |Shown(d)| == 8 && AllDigits32(Shown(d)) && Value(Shown(d)) == Number(d)
  {
    assert Power32(8) == 0x100_0000_0000;
    Base32Short(Number(d), 8);
    Base32Value(Number(d));
    PaddedValue(Base32(Number(d)), 8);
  }

  /** Two digests show alike exactly when their first five bytes agree. */
  lemma ShownIffFirstFive(d: Digest, e: Digest)
    ensures Shown(d) == Shown(e) <==> d[..5] == e[..5]
  {
    ShownIsEightDigits(d);
    ShownIsEightDigits(e);
    if Shown(d) == Shown(e) {
      assert forall i :: 0 <= i < 5 ==> d[..5][i] == d[i];
      assert d[0] == e[0] && d[1] == e[1] && d[2] == e[2] && d[3] == e[3] && d[4] == e[4];
    } else {
      assert forall i :: 0 <= i < 5 ==> d[i] == d[..5][i] && e[i] == e[..5][i];
    }
  }

  // ------------------------------------------------------------------ the hash

  function Hash(zones: seq<Tree>, lower: string -> string, digest: string -> Digest): string
    requires Hashable(zones)
  {
    if ValidDeck(zones) then Shown(digest(Joined(Sorted(CardList(zones, lower))))) else "INVALID"
  }

  /** The hash depends on nothing but validity and the multiset of copies. */
  lemma HashIsCanonical(a: seq<Tree>, b: seq<Tree>, lower: string -> string, digest: string -> Digest)
    requires Hashable(a) && Hashable(b) && (ValidDeck(a) <==> ValidDeck(b))
    requires multiset(CardList(a, lower)) == multiset(CardList(b, lower))
    ensures Hash(a, lower, digest) == Hash(b, lower, digest)
  {
    SortedUnique(Sorted(CardList(a, lower)), Sorted(CardList(b, lower)));
  }

  // ------------------------------------------------------------------ what leaves the copies alone

  /** What one zone contributes. */
  function ZoneCopies(z: Tree, lower: string -> string): multiset<string>
    requires Hashable([z])
  {
    assert z in [z];
    if Hashed(z.name) then multiset(RowEntries(z.name, z.children, lower)) else multiset{}
  }

  lemma HashableParts(a: seq<Tree>, b: seq<Tree>)
    ensures Hashable(a + b) <==> Hashable(a) && Hashable(b)
  {
    assert forall z :: z in a + b <==> z in a || z in b;
  }

  lemma {:induction false} CardListParts(a: seq<Tree>, b: seq<Tree>, lower: string -> string)
    requires Hashable(a) && Hashable(b)
    ensures Hashable(a + b)
    ensures multiset(CardList(a + b, lower)) == multiset(CardList(a, lower)) + multiset(CardList(b, lower))
    decreases |b|
  {
    hide RowEntries;
    HashableParts(a, b);
    if b == [] {
      assert a + b == a;
    } else {
      var n := |b| - 1;
      CardListParts(a, b[..n], lower);
      assert (a + b)[..|a + b| - 1] == a + b[..n] && (a + b)[|a + b| - 1] == b[n];
    }
  }

  lemma OneZone(z: Tree, lower: string -> string)
    requires Hashable([z])
    ensures multiset(CardList([z], lower)) == ZoneCopies(z, lower)
  {
    assert z in [z];
    assert [z][..0] == [];
    assert CardList([z][..0], lower) == [];
  }

  lemma ZonePulledOut(b: seq<Tree>, i: nat, lower: string -> string)
    requires Hashable(b) && i < |b|
    ensures Hashable([b[i]]) && Hashable(b[..i] + b[i + 1..])
    ensures multiset(CardList(b, lower)) == multiset(CardList([b[i]], lower)) + multiset(CardList(b[..i] + b[i + 1..], lower))
  {
    hide CardList; hide Hashable;
    var z, before, after := b[i], b[..i], b[i + 1..];
    assert b == before + ([z] + after);
    HashableParts(before, [z] + after);
    HashableParts([z], after);
    CardListParts(before, [z] + after, lower);
    CardListParts([z], after, lower);
    CardListParts(before, after, lower);
  }

  /** Zones in another order: the same copies, the same validity. */
  lemma {:induction false} ZonesReordered(a: seq<Tree>, b: seq<Tree>, lower: string -> string)
    requires Hashable(a) && multiset(a) == multiset(b)
    ensures Hashable(b) && multiset(CardList(a, lower)) == multiset(CardList(b, lower))
    ensures ValidDeck(a) <==> ValidDeck(b)
    decreases |a|
  {
    hide CardList;
    SameMembers(a, b);
    if a == [] {
      assert |multiset(b)| == 0;
    } else {
      assert a[0] in b;
      var i :| 0 <= i < |b| && b[i] == a[0];
      ZonePulledOut(a, 0, lower);
      ZonePulledOut(b, i, lower);
      assert a[..0] + a[1..] == a[1..];
      WithoutFirst(a, b, i);
      ZonesReordered(a[1..], b[..i] + b[i + 1..], lower);
    }
  }

  lemma WithoutFirst<T>(a: seq<T>, b: seq<T>, i: nat)
    requires a != [] && i < |b| && b[i] == a[0] && multiset(a) == multiset(b)
    ensures multiset(a[1..]) == multiset(b[..i] + b[i + 1..])
  {
    assert a == [a[0]] + a[1..];
    assert b == b[..i] + [b[i]] + b[i + 1..];
    assert multiset(a[1..]) == multiset(a) - multiset{a[0]};
    assert multiset(b[..i] + b[i + 1..]) == multiset(b) - multiset{b[i]};
  }

  lemma {:induction false} RowEntriesParts(zone: string, a: seq<Tree>, b: seq<Tree>, lower: string -> string)
    requires forall t :: t in a + b ==> t.Card?
    ensures forall t :: t in a || t in b ==> t in a + b
    ensures multiset(RowEntries(zone, a + b, lower))
         == multiset(RowEntries(zone, a, lower)) + multiset(RowEntries(zone, b, lower))
    decreases |b|
  {
    hide Copies; hide Entry;
    assert forall t :: t in a || t in b ==> t in a + b;
    if b == [] {
      assert a + b == a;
    } else {
      var n := |b| - 1;
      assert (a + b)[..|a + b| - 1] == a + b[..n] && (a + b)[|a + b| - 1] == b[n];
      assert forall t :: t in a + b[..n] ==> t in a + b;
      RowEntriesParts(zone, a, b[..n], lower);
    }
  }

  /** Rows of a zone in another order: the same copies. */
  lemma {:induction false} RowsReordered(zone: string, a: seq<Tree>, b: seq<Tree>, lower: string -> string)
    requires (forall t :: t in a ==> t.Card?) && multiset(a) == multiset(b)
    ensures (forall t :: t in b ==> t.Card?)
    ensures multiset(RowEntries(zone, a, lower)) == multiset(RowEntries(zone, b, lower))
    decreases |a|
  {
    SameMembers(a, b);
    if a == [] {
      assert |multiset(b)| == 0;
    } else {
      var r := a[0];
      assert r in b;
      var i :| 0 <= i < |b| && b[i] == r;
      var before, after := b[..i], b[i + 1..];
      assert a == [r] + a[1..] && b == before + ([r] + after);
      WithoutFirst(a, b, i);
      SameMembers(a[1..], before + after);
      assert forall t :: t in before + after ==> t in b;
      assert forall t :: t in [r] + after ==> t in b;
      RowsReordered(zone, a[1..], before + after, lower);
      RowEntriesParts(zone, [r], a[1..], lower);
      RowEntriesParts(zone, before, [r] + after, lower);
      RowEntriesParts(zone, [r], after, lower);
      RowEntriesParts(zone, before, after, lower);
    }
  }

  lemma {:induction false} CopiesCount(entry: string, n: nat)
    ensures multiset(Copies(entry, n)) == multiset{}[entry := n]
  {
    if n > 0 {
      CopiesCount(entry, n - 1);
    }
  }

  lemma OneRow(zone: string, card: Tree, lower: string -> string)
    requires card.Card?
    ensures forall t :: t in [card] ==> t.Card?
    ensures RowEntries(zone, [card], lower) == Copies(Entry(zone, card.name, lower), card.number)
  {
    assert [card][..0] == [];
    assert RowEntries(zone, [card], lower) == [] + Copies(Entry(zone, card.name, lower), card.number);
  }

  /** A row split in two: the same copies. */
  lemma RowSplit(zone: string, card: string, k: nat, m: nat, lower: string -> string)
    ensures multiset(RowEntries(zone, [Card(card, k + m)], lower))
         == multiset(RowEntries(zone, [Card(card, k), Card(card, m)], lower))
  {
    hide RowEntries; hide Entry; hide Copies;
    var e := Entry(zone, card, lower);
    CopiesCount(e, k);
    CopiesCount(e, m);
    CopiesCount(e, k + m);
    OneRow(zone, Card(card, k), lower);
    OneRow(zone, Card(card, m), lower);
    OneRow(zone, Card(card, k + m), lower);
    assert [Card(card, k)] + [Card(card, m)] == [Card(card, k), Card(card, m)];
    RowEntriesParts(zone, [Card(card, k)], [Card(card, m)], lower);
  }

  /** A zone's rows exchanged for rows with the same copies leave the hash as it is. */
  lemma ZoneRewritten(front: seq<Tree>, z: Tree, rows: seq<Tree>, back: seq<Tree>,
                      lower: string -> string, digest: string -> Digest)
    requires Hashable(front + [z] + back) && z.Zone? && (forall t :: t in rows ==> t.Card?)
    requires Hashed(z.name) ==> forall t :: t in z.children ==> t.Card?
    requires (rows == [] <==> z.children == [])
    requires Hashed(z.name) ==> multiset(RowEntries(z.name, rows, lower)) == multiset(RowEntries(z.name, z.children, lower))
    ensures Hashable(front + [Zone(z.name, rows)] + back)
    ensures Hash(front + [z] + back, lower, digest) == Hash(front + [Zone(z.name, rows)] + back, lower, digest)
  {
    var y := Zone(z.name, rows);
    var a, b := front + [z] + back, front + [y] + back;
    assert a == front + ([z] + back) && b == front + ([y] + back);
    HashableParts(front, [z] + back);
    HashableParts([z], back);
    assert forall t :: t in [y] ==> t == y;
    assert Hashable([y]);
    HashableParts([y], back);
    HashableParts(front, [y] + back);
    OneZone(z, lower);
    OneZone(y, lower);
    CardListParts(front, [z] + back, lower);
    CardListParts([z], back, lower);
    CardListParts(front, [y] + back, lower);
    CardListParts([y], back, lower);
    assert forall t :: t in a <==> t in front || t == z || t in back;
    assert forall t :: t in b <==> t in front || t == y || t in back;
    assert ValidZone(z) <==> ValidZone(y);
    HashIsCanonical(a, b, lower, digest);
  }

  lemma HashIgnoresZoneOrder(a: seq<Tree>, b: seq<Tree>, lower: string -> string, digest: string -> Digest)
    requires Hashable(a) && multiset(a) == multiset(b)
    ensures Hashable(b) && Hash(a, lower, digest) == Hash(b, lower, digest)
  {
    ZonesReordered(a, b, lower);
    HashIsCanonical(a, b, lower, digest);
  }

  lemma HashIgnoresRowOrder(front: seq<Tree>, z: Tree, rows: seq<Tree>, back: seq<Tree>,
                            lower: string -> string, digest: string -> Digest)
    requires Hashable(front + [z] + back) && z.Zone? && multiset(rows) == multiset(z.children)
    requires forall t :: t in z.children ==> t.Card?
    ensures Hashable(front + [Zone(z.name, rows)] + back)
    ensures Hash(front + [z] + back, lower, digest) == Hash(front + [Zone(z.name, rows)] + back, lower, digest)
  {
    RowsReordered(z.name, z.children, rows, lower);
    assert |multiset(rows)| == |rows| && |multiset(z.children)| == |z.children|;
    ZoneRewritten(front, z, rows, back, lower, digest);
  }

  lemma HashIgnoresRowSplits(front: seq<Tree>, zone: string, above: seq<Tree>, card: string, k: nat, m: nat,
                             below: seq<Tree>, back: seq<Tree>, lower: string -> string, digest: string -> Digest)
    requires var z := Zone(zone, above + [Card(card, k + m)] + below);
             Hashable(front + [z] + back) && forall t :: t in z.children ==> t.Card?
    ensures var z := Zone(zone, above + [Card(card, k + m)] + below);
            var y := Zone(zone, above + [Card(card, k), Card(card, m)] + below);
            && Hashable(front + [y] + back)
            && Hash(front + [z] + back, lower, digest) == Hash(front + [y] + back, lower, digest)
  {
    hide RowEntries; hide Hash; hide Hashable;
    var one, two := [Card(card, k + m)], [Card(card, k), Card(card, m)];
    var z := Zone(zone, above + one + below);
    assert z.children == above + (one + below) && above + two + below == above + (two + below);
    CardsOnly(above, one, below);
    assert forall t :: t in two ==> t.Card?;
    CardsTogether(above, two, below);
    RowEntriesParts(zone, above, one + below, lower);
    RowEntriesParts(zone, one, below, lower);
    RowEntriesParts(zone, above, two + below, lower);
    RowEntriesParts(zone, two, below, lower);
    RowSplit(zone, card, k, m, lower);
    ZoneRewritten(front, z, above + two + below, back, lower, digest);
  }

  lemma CardsOnly(above: seq<Tree>, middle: seq<Tree>, below: seq<Tree>)
    requires forall t :: t in above + middle + below ==> t.Card?
    ensures forall t :: t in above || t in middle || t in below ==> t.Card?
    ensures forall t :: t in middle + below ==> t.Card?
    ensures forall t :: t in above + (middle + below) ==> t.Card?
  {
    assert above + (middle + below) == above + middle + below;
    forall t | t in above || t in middle || t in below
      ensures t.Card?
    {
      assert t in above + middle + below;
    }
  }

  lemma CardsTogether(above: seq<Tree>, middle: seq<Tree>, below: seq<Tree>)
    requires forall t :: t in above || t in middle || t in below ==> t.Card?
    ensures forall t :: t in middle + below ==> t.Card?
    ensures forall t :: t in above + (middle + below) ==> t.Card?
    ensures forall t :: t in above + middle + below ==> t.Card?
  {
  }
}

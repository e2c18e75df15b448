/** What decks look like written down, which decks are valid, where a card goes and which comes first. */
module DeckRules {
  import opened DeckXml
  import DeckHash
  import opened DeckEdit
  import opened DeckSort
  import Decimal

  // ------------------------------------------------------------------ the written form

  lemma TwelveIsWritten()
    ensures Decimal.Print(12) == "12" && Decimal.Print(-7) == "-7"
  {
    assert 12 / 10 == 1 && 12 % 10 == 2;
    assert Decimal.PrintNat(12) == Decimal.PrintNat(1) + [Decimal.DigitChar(2)];
  }

  /** A zone with its cards, one inside the other. */
  lemma ZoneIsWritten(name: string, card: string)
    ensures Written(Zone(name, [Card(card, 12)]))
         == [Start("zone", map["name" := name]),
             Start("card", map["number" := "12", "name" := card]), End("card"),
             End("zone")]
  {
    TwelveIsWritten();
    var cards := [Card(card, 12)];
    assert cards[1..] == [];
    assert WrittenAll(cards) == Written(cards[0]) + WrittenAll([]);
    assert Written(cards[0]) == [Start("card", map["number" := "12", "name" := card]), End("card")];
  }

  /** A plan with one move. */
  lemma PlanIsWritten(name: string, m: Move)
    requires name != "" && m.cardName != "" && m.startZone != "" && m.targetZone != ""
    ensures WrittenPlan(name, [m])
         == [Start("sideboard_plan", map[]),
             Start("name", map[]), Text(name), End("name"),
             Start("move_card_to_zone", map[]),
             Start("card_name", map[]), Text(m.cardName), End("card_name"),
             Start("start_zone", map[]), Text(m.startZone), End("start_zone"),
             Start("target_zone", map[]), Text(m.targetZone), End("target_zone"),
             End("move_card_to_zone"),
             End("sideboard_plan")]
  {
    assert [m][1..] == [];
    assert WrittenMoves([m]) == WrittenMove(m) + WrittenMoves([]);
  }

  /** A document: its version, name and comments, zones and plans in their order; empty texts leave no text behind. */
  lemma DeckIsWritten(name: string, zone: Tree, key: string, moves: seq<Move>)
    requires name != ""
    ensures WrittenDeck(Deck(name, "", [zone], map[key := moves]), [key])
         == [Start("cockatrice_deck", map["version" := "1"]),
             Start("deckname", map[]), Text(name), End("deckname"),
             Start("comments", map[]), End("comments")]
            + Written(zone) + WrittenPlan(key, moves) + [End("cockatrice_deck")]
  {
    hide Written; hide WrittenPlan;
    assert [zone][1..] == [] && [key][1..] == [];
    assert WrittenAll([zone]) == Written(zone);
    assert WrittenPlans(map[key := moves], [key]) == WrittenPlan(key, moves);
    assert TextElement("deckname", name) == [Start("deckname", map[]), Text(name), End("deckname")];
    assert TextElement("comments", "") == [Start("comments", map[]), End("comments")];
  }

  // ------------------------------------------------------------------ validity and what is hashed

  /** A deck is invalid exactly if a zone that is neither library nor crypt nor tokens holds anything. */
  lemma InvalidIff(zones: seq<Tree>, lower: string -> string, digest: string -> DeckHash.Digest)
    requires DeckHash.Hashable(zones)
    ensures DeckHash.Hash(zones, lower, digest) == "INVALID"
            <==> exists z :: z in zones && z.children != [] && z.name != "library" && z.name != "crypt" && z.name != "tokens"
  {
    if DeckHash.ValidDeck(zones) {
      DeckHash.ShownIsEightDigits(digest(DeckHash.Joined(DeckHash.Sorted(DeckHash.CardList(zones, lower)))));
      assert |"INVALID"| == 7;
      forall z | z in zones
        ensures z.children == [] || z.name == "library" || z.name == "crypt" || z.name == "tokens"
      {
        assert DeckHash.ValidZone(z);
      }
    } else {
      var z :| z in zones && !DeckHash.ValidZone(z);
    }
  }

  /** Two copies of a card of the library, and one of the crypt; tokens do not count. */
  lemma SampleCopies(a: string, b: string, c: string, lower: string -> string)
    ensures var zones := [Zone("library", [Card(a, 2)]), Zone("crypt", [Card(b, 1)]), Zone("tokens", [Card(c, 3)])];
            DeckHash.Hashable(zones) && DeckHash.CardList(zones, lower) == [lower(a), lower(a), "SB:" + lower(b)]
  {
    var x, y, z := Zone("library", [Card(a, 2)]), Zone("crypt", [Card(b, 1)]), Zone("tokens", [Card(c, 3)]);
    assert [x, y, z][..2] == [x, y] && [x, y][..1] == [x] && [x][..0] == [];
    OneRow("library", Card(a, 2), lower);
    OneRow("crypt", Card(b, 1), lower);
    assert DeckHash.Copies(lower(a), 1) == [] + [lower(a)];
    assert DeckHash.Copies(lower(a), 2) == [lower(a), lower(a)];
    assert DeckHash.Copies("SB:" + lower(b), 1) == [] + ["SB:" + lower(b)];
    assert DeckHash.Entry("library", a, lower) == lower(a);
    assert DeckHash.CardList([x], lower) == [lower(a), lower(a)];
    assert DeckHash.CardList([x, y], lower) == DeckHash.CardList([x], lower) + ["SB:" + lower(b)];
  }

  lemma OneRow(zone: string, card: Tree, lower: string -> string)
    requires card.Card?
    ensures DeckHash.RowEntries(zone, [card], lower) == DeckHash.Copies(DeckHash.Entry(zone, card.name, lower), card.number)
  {
    assert [card][..0] == [];
  }

  /** The hash is the digest of the lines in the order of their characters, joined by semicolons. */
  lemma SampleIsHashed(crypt: string, library: string, token: string, lower: string -> string, digest: string -> DeckHash.Digest)
    requires lower(library) != "" && lower(library)[0] > 'S'
    ensures var zones := [Zone("library", [Card(library, 2)]), Zone("crypt", [Card(crypt, 1)]), Zone("tokens", [Card(token, 3)])];
            DeckHash.Hashable(zones)
            && DeckHash.Hash(zones, lower, digest)
               == DeckHash.Shown(digest("SB:" + lower(crypt) + ";" + (lower(library) + ";" + lower(library))))
  {
    var zones := [Zone("library", [Card(library, 2)]), Zone("crypt", [Card(crypt, 1)]), Zone("tokens", [Card(token, 3)])];
    SampleCopies(library, crypt, token, lower);
    SampleIsValid(library, crypt, token);
    var c, l := "SB:" + lower(crypt), lower(library);
    TwoAndOne(c, l);
    hide DeckHash.Shown; hide DeckHash.CardList; hide DeckHash.Sorted; hide DeckHash.Joined; hide DeckHash.ValidDeck;
    hide DeckHash.Hashable;
  }

  lemma SampleIsValid(library: string, crypt: string, token: string)
    ensures DeckHash.ValidDeck([Zone("library", [Card(library, 2)]), Zone("crypt", [Card(crypt, 1)]), Zone("tokens", [Card(token, 3)])])
  {
  }

  lemma TwoAndOne(c: string, l: string)
    requires c != "" && l != "" && c[0] < l[0]
    ensures DeckHash.Joined(DeckHash.Sorted([l, l, c])) == c + ";" + (l + ";" + l)
  {
    var sorted := [c, l, l];
    LeqItself(l);
    assert DeckHash.Leq(c, l);
    ThreeJoined(c, l, l);
    hide DeckHash.Leq; hide DeckHash.Joined; hide DeckHash.Sorted;
    assert multiset([l, l, c]) == multiset(sorted);
    assert DeckHash.InOrder(sorted);
    DeckHash.SortedUnique(DeckHash.Sorted([l, l, c]), sorted);
  }

  lemma ThreeJoined(a: string, b: string, c: string)
    ensures DeckHash.Joined([a, b, c]) == a + ";" + (b + ";" + c)
  {
    assert [a, b, c][1..] == [b, c] && [b, c][1..] == [c];
    assert DeckHash.Joined([c]) == c && DeckHash.Joined([b, c]) == b + ";" + c;
  }

  lemma {:induction false} LeqItself(s: string)
    ensures DeckHash.Leq(s, s)
  {
    if s != [] {
      LeqItself(s[1..]);
    }
  }

  // ------------------------------------------------------------------ the hash as shown

  const DIGITS := "0123456789abcdefghijklmnopqrstuv"

  /** The digest's first five bytes as one number, the first byte counting most. */
  function FirstFive(d: DeckHash.Digest): int
  {
    (((d[0] as int * 256 + d[1] as int) * 256 + d[2] as int) * 256 + d[3] as int) * 256 + d[4] as int
  }

  lemma DivideTwice(n: nat, m: nat)
    requires m >= 1
    ensures n / (32 * m) == n / 32 / m
  {
    var q := n / 32 / m;
    var u := n / 32 - m * q;
    assert 0 <= u < m;
    var r := n % 32 + 32 * u;
    assert 0 <= r < 32 * m;
    assert n == 32 * m * q + r by {
      assert 32 * m * q == 32 * (m * q);
    }
    QuotientIs(n, 32 * m, q, r);
  }

  lemma QuotientIs(n: nat, m: nat, q: nat, r: nat)
    requires m >= 1 && n == m * q + r && r < m
    ensures n / m == q
  {
    var d := n / m - q;
    assert n == m * (n / m) + n % m;
    assert m * d == m * (n / m) - m * q;
    assert d >= 1 ==> m * d >= m;
    assert d <= -1 ==> m * d + m <= 0;
  }

  lemma {:induction false} DigitAt(s: string, k: nat)
    requires DeckHash.AllDigits32(s) && k < |s|
    ensures DeckHash.Value32(s[|s| - 1 - k]) == DeckHash.Value(s) / DeckHash.Power32(k) % 32
  {
    if k > 0 {
      DigitAt(s[..|s| - 1], k - 1);
      assert DeckHash.Value(s) / 32 == DeckHash.Value(s[..|s| - 1]);
      DivideTwice(DeckHash.Value(s), DeckHash.Power32(k - 1));
    }
  }

  /** The k-th digit from the end is that of the first five bytes to base 32, written 0 to 9 and a to v. */
  lemma DigitsShown(d: DeckHash.Digest, k: nat)
    requires k < 8
    ensures |DeckHash.Shown(d)| == 8
         && DeckHash.Shown(d)[7 - k] == DIGITS[FirstFive(d) / DeckHash.Power32(k) % 32]
  {
    DeckHash.ShownIsEightDigits(d);
    DigitAt(DeckHash.Shown(d), k);
    DigitIs(DeckHash.Shown(d)[7 - k]);
    assert DeckHash.Number(d) == FirstFive(d);
  }

  lemma DigitIs(c: char)
    requires DeckHash.IsDigit32(c)
    ensures DIGITS[DeckHash.Value32(c)] == c
  {
  }

  // ------------------------------------------------------------------ reading what was not written here

  /** Tokens that a zone's reader does not know are passed over, and so with the deck's; a foreign root ends the reading. */
  lemma ReaderSkips(t: Token, rest: seq<Token>, soFar: seq<Tree>, d: Deck)
    requires ZonesOnly(d)
    ensures !(t.Start? && (t.name == "zone" || t.name == "card")) && t != End("zone") ==>
              ReadZone(Cursor([t] + rest, false), soFar) == ReadZone(Cursor(rest, false), soFar)
    ensures !(t.Start? && t.name in {"deckname", "comments", "zone", "sideboard_plan"}) && t != End("cockatrice_deck") ==>
              ReadElements(Cursor([t] + rest, false), d) == ReadElements(Cursor(rest, false), d)
    ensures t.Start? && t.name != "cockatrice_deck" ==> ReadDocument(Cursor([t] + rest, false), d) == (d, false)
  {
    assert ([t] + rest)[1..] == rest;
  }

  /** A number beyond 32 bits reads as 0, and so does what is no number. */
  lemma OddNumbers(n: int)
    requires !(Decimal.MIN_INT <= n <= Decimal.MAX_INT)
    ensures Decimal.ToInt(Decimal.Print(n)) == 0 && Decimal.ToInt("") == 0 && Decimal.ToInt("-") == 0 && Decimal.ToInt("4x") == 0
  {
    Decimal.PrintedValue(if n < 0 then -n else n);
    if n < 0 {
      assert Decimal.Print(n)[1..] == Decimal.PrintNat(-n);
    } else {
      assert Decimal.IsDigit(Decimal.Print(n)[0]);
    }
    assert "-"[1..] == "";
    assert !Decimal.IsDigit("4x"[1]);
  }

  // ------------------------------------------------------------------ sorting

  /** At the first place where the words differ, a has the later character, or b has ended. */
  predicate LaterAt(a: string, b: string, k: nat)
  {
    k <= |b| && k < |a| && a[..k] == b[..k] && (k == |b| || a[k] > b[k])
  }

  /** QString's operator>: the later word in the order of characters. */
  lemma {:induction false} GreaterIsLater(a: string, b: string)
    ensures Greater(a, b) <==> exists k: nat :: LaterAt(a, b, k)
    decreases |a|
  {
    if a == [] {
    } else if b == [] || a[0] > b[0] {
      assert LaterAt(a, b, 0);
    } else if a[0] < b[0] {
      forall k: nat
        ensures !LaterAt(a, b, k)
      {
        if 0 < k <= |b| && k < |a| {
          assert a[..k][0] == a[0] && b[..k][0] == b[0];
        }
      }
    } else {
      GreaterIsLater(a[1..], b[1..]);
      if k: nat :| LaterAt(a, b, k) {
        assert k > 0;
        assert a[1..][..k - 1] == a[..k][1..] && b[1..][..k - 1] == b[..k][1..];
        assert LaterAt(a[1..], b[1..], k - 1);
      }
      if k: nat :| LaterAt(a[1..], b[1..], k) {
        assert a[..k + 1] == [a[0]] + a[1..][..k] && b[..k + 1] == [b[0]] + b[1..][..k];
        assert LaterAt(a, b, k + 1);
      }
    }
  }

  /** Cards come before zones; among their like, by name the later word, by number more copies and then the later word. */
  lemma WhichComesFirst(a: Node, b: Node)
    ensures a.Leaf? && b.Inner? ==> Compare(a, b, ByName) && Compare(a, b, ByNumber)
    ensures a.Inner? && b.Leaf? ==> !Compare(a, b, ByName) && !Compare(a, b, ByNumber)
    ensures a.Leaf? == b.Leaf? ==>
              var later := exists k: nat :: LaterAt(a.name, b.name, k);
              && (Compare(a, b, ByName) <==> later)
              && (Compare(a, b, ByNumber) <==> Copies(a) > Copies(b) || (Copies(a) == Copies(b) && later))
  {
    GreaterIsLater(a.name, b.name);
  }

  /** The copies of a card, or of all cards of a zone. */
  function Copies(n: Node): int
  {
    if n.Leaf? then n.number else Count(n.children, true)
  }

  // ------------------------------------------------------------------ counting

  /** All cards among these nodes. */
  function Leaves(ns: seq<Node>): seq<Node>
  {
    if ns == [] then [] else (if ns[0].Leaf? then [ns[0]] else []) + Leaves(ns[1..])
  }

  function Numbers(ns: seq<Node>): int
    requires forall n :: n in ns ==> n.Leaf?
  {
    if ns == [] then 0 else ns[0].number + Numbers(ns[1..])
  }

  lemma {:induction false} LeavesAre(ns: seq<Node>)
    ensures forall n :: n in Leaves(ns) ==> n.Leaf?
  {
    if ns != [] {
      LeavesAre(ns[1..]);
    }
  }

  lemma {:induction false} LeavesParts(a: seq<Node>, b: seq<Node>)
    ensures Leaves(a + b) == Leaves(a) + Leaves(b)
    decreases |a|
  {
    if a == [] {
      assert a + b == b;
    } else {
      assert (a + b)[1..] == a[1..] + b;
      LeavesParts(a[1..], b);
    }
  }

  lemma {:induction false} NumbersParts(a: seq<Node>, b: seq<Node>)
    requires forall n :: n in a + b ==> n.Leaf?
    ensures (forall n :: n in a ==> n.Leaf?) && (forall n :: n in b ==> n.Leaf?) && Numbers(a + b) == Numbers(a) + Numbers(b)
    decreases |a|
  {
    assert forall n :: n in a ==> n in a + b;
    assert forall n :: n in b ==> n in a + b;
    if a == [] {
      assert a + b == b;
    } else {
      assert (a + b)[1..] == a[1..] + b;
      NumbersParts(a[1..], b);
    }
  }

  /** recursiveCount: how many cards there are anywhere below, or how many copies they stand for together. */
  lemma {:induction false} CountsCards(ns: seq<Node>)
    ensures Count(ns, false) == |Leaves(Nodes(ns))|
    ensures (forall n :: n in Leaves(Nodes(ns)) ==> n.Leaf?) && Count(ns, true) == Numbers(Leaves(Nodes(ns)))
    decreases ns
  {
    LeavesAre(Nodes(ns));
    if ns != [] {
      var n := ns[0];
      CountsCards(ns[1..]);
      LeavesParts(NodesOf(n), Nodes(ns[1..]));
      NumbersParts(Leaves(NodesOf(n)), Leaves(Nodes(ns[1..])));
      if n.Inner? {
        CountsCards(n.children);
        assert NodesOf(n)[1..] == Nodes(n.children);
        assert Leaves(NodesOf(n)) == Leaves(Nodes(n.children));
      } else {
        assert NodesOf(n) == [n] && [n][1..] == [];
        assert Leaves(NodesOf(n)) == [n];
      }
    }
  }

  // ------------------------------------------------------------------ adding a card

  /** The first zone of the name, if there is one, gets the card at its end; otherwise a new zone at the end of the deck does. */
  lemma {:induction false} CardGoesToEnd(ns: seq<Node>, card: string, zone: string, id: int)
    requires forall n :: n in ns ==> n.Inner?
    ensures var after, leaf := CardAdded(ns, card, zone, id), Leaf(id + 1, card, 1);
            || ((forall i :: 0 <= i < |ns| ==> ns[i].name != zone) && after == ns + [Inner(id, zone, [leaf])])
            || exists i :: FirstZone(ns, zone, i) && after == ns[i := ns[i].(children := ns[i].children + [leaf])]
    decreases |ns|
  {
    var leaf := Leaf(id + 1, card, 1);
    if ns == [] {
    } else if ns[0].name == zone {
      assert FirstZone(ns, zone, 0);
      assert [ns[0].(children := ns[0].children + [leaf])] + ns[1..] == ns[0 := ns[0].(children := ns[0].children + [leaf])];
    } else {
      CardGoesToEnd(ns[1..], card, zone, id);
      var after := CardAdded(ns[1..], card, zone, id);
      assert CardAdded(ns, card, zone, id) == [ns[0]] + after;
      if i :| FirstZone(ns[1..], zone, i) && after == ns[1..][i := ns[1..][i].(children := ns[1..][i].children + [leaf])] {
        assert FirstZone(ns, zone, i + 1);
        assert [ns[0]] + after == ns[i + 1 := ns[i + 1].(children := ns[i + 1].children + [leaf])];
      } else {
        assert forall i :: 0 < i < |ns| ==> ns[i] == ns[1..][i - 1];
        assert [ns[0]] + after == ns + [Inner(id, zone, [leaf])];
      }
    }
  }

  predicate FirstZone(ns: seq<Node>, zone: string, i: int)
    requires forall n :: n in ns ==> n.Inner?
  {
    0 <= i < |ns| && ns[i].Inner? && ns[i].name == zone && forall j :: 0 <= j < i ==> ns[j].name != zone
  }
}

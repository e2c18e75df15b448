/** What is in a player's zones after setting up, and what the deck's hash says about it. */
module DeckSetup {
  import opened Wrappers
  import opened Cards
  import opened Shuffling
  import opened ZoneLists
  import opened GameState
  import opened Movement
  import opened Commands
  import opened Tokens
  import opened Lifecycle
  import opened Setup
  import DeckXml
  import DeckHash

  // ------------------------------------------------------------------ from the deck list to entries

  function CopiesOf(entry: Entry, number: int): (r: seq<Entry>)
    ensures |r| == if number > 0 then number else 0
    ensures forall e :: e in r ==> e == entry
    decreases if number > 0 then number else 0
  {
    if number <= 0 then [] else CopiesOf(entry, number - 1) + [entry]
  }

  /** The cards of one zone of the deck list; anything nested deeper is passed over. */
  function RowsDealt(crypt: bool, rows: seq<DeckXml.Tree>): seq<Entry>
  {
    if rows == [] then []
    else
      var last := rows[|rows| - 1];
      RowsDealt(crypt, rows[..|rows| - 1]) + if last.Card? then CopiesOf(Entry(crypt, last.name), last.number) else []
  }

  /** The three loops at the head of setupZones: which cards are made, in which order. */
  function Dealt(zones: seq<DeckXml.Tree>): seq<Entry>
    requires forall z :: z in zones ==> z.Zone?
  {
    if zones == [] then []
    else
      var last := zones[|zones| - 1];
      Dealt(zones[..|zones| - 1])
      + if last.name == DeckHash.LIBRARY then RowsDealt(false, last.children)
        else if last.name == DeckHash.CRYPT then RowsDealt(true, last.children)
        else []
  }

  /** How the hash names a card that is dealt. */
  function HashName(e: Entry, lower: string -> string): string
  {
    DeckHash.Entry(if e.crypt then DeckHash.CRYPT else DeckHash.LIBRARY, e.name, lower)
  }

  function HashNames(entries: seq<Entry>, lower: string -> string): (r: seq<string>)
    ensures |r| == |entries| && forall i :: 0 <= i < |entries| ==> r[i] == HashName(entries[i], lower)
  {
    seq(|entries|, i requires 0 <= i < |entries| => HashName(entries[i], lower))
  }

  lemma HashNamesConcat(a: seq<Entry>, b: seq<Entry>, lower: string -> string)
    ensures HashNames(a + b, lower) == HashNames(a, lower) + HashNames(b, lower)
  {
  }

  lemma CopiesNamed(e: Entry, number: int, lower: string -> string)
    ensures HashNames(CopiesOf(e, number), lower) == DeckHash.Copies(HashName(e, lower), number)
  {
    var a, b := HashNames(CopiesOf(e, number), lower), DeckHash.Copies(HashName(e, lower), number);
    forall i | 0 <= i < |a|
      ensures a[i] == b[i]
    {
      assert CopiesOf(e, number)[i] in CopiesOf(e, number) && b[i] in b;
    }
  }

  lemma {:induction false} RowsNamed(crypt: bool, rows: seq<DeckXml.Tree>, lower: string -> string)
    requires forall t :: t in rows ==> t.Card?
    ensures HashNames(RowsDealt(crypt, rows), lower)
         == DeckHash.RowEntries(if crypt then DeckHash.CRYPT else DeckHash.LIBRARY, rows, lower)
  {
    if rows != [] {
      var last := rows[|rows| - 1];
      RowsNamed(crypt, rows[..|rows| - 1], lower);
      CopiesNamed(Entry(crypt, last.name), last.number, lower);
      HashNamesConcat(RowsDealt(crypt, rows[..|rows| - 1]), CopiesOf(Entry(crypt, last.name), last.number), lower);
    }
  }

  /** The list the hash is computed from names exactly the cards that setting up makes, in the same order. */
  lemma {:induction false} HashCoversSetup(zones: seq<DeckXml.Tree>, lower: string -> string)
    requires DeckHash.Hashable(zones)
    ensures HashNames(Dealt(zones), lower) == DeckHash.CardList(zones, lower)
  {
    if zones != [] {
      var last := zones[|zones| - 1];
      assert last in zones;
      HashCoversSetup(zones[..|zones| - 1], lower);
      if DeckHash.Hashed(last.name) {
        var crypt := last.name == DeckHash.CRYPT;
        RowsNamed(crypt, last.children, lower);
        HashNamesConcat(Dealt(zones[..|zones| - 1]), RowsDealt(crypt, last.children), lower);
      } else {
        assert Dealt(zones) == Dealt(zones[..|zones| - 1]);
      }
    }
  }

  // ------------------------------------------------------------------ from entries to cards

  /** The card objects made for the entries of one kind, in their order. */
  function Made(entries: seq<Entry>, crypt: bool, base: CardRef): seq<CardRef>
  {
    if entries == [] then []
    else (if entries[0].crypt == crypt then [base] else []) + Made(entries[1..], crypt, base + 1)
  }

  /** The card made for an entry. */
  function NewCard(p: int, entry: Entry, id: int): Card
  {
    Card(id, entry.name, false, false, 0, 0, Some(Place(p, if entry.crypt then Crypt else Deck)), None, [])
  }

  /** One new card for each entry under the next ids, at the ends of library and crypt. */
  ghost predicate CardsMade(s: State, t: State, p: int, entries: seq<Entry>, base: CardRef)
  {
    && p in s.players && Place(p, Deck) in s.zones && Place(p, Crypt) in s.zones
    && (forall i :: 0 <= i < |entries| ==> HasCard(t.heap, base + i, NewCard(p, entries[i], s.players[p].nextCardId + i)))
    && (forall c :: c in s.heap ==> HasCard(t.heap, c, s.heap[c]))
    && t.zones == s.zones[Place(p, Deck) := s.zones[Place(p, Deck)] + Made(entries, false, base)]
                         [Place(p, Crypt) := s.zones[Place(p, Crypt)] + Made(entries, true, base)]
  }

  predicate HasCard(heap: Heap, c: CardRef, card: Card)
  {
    c in heap && heap[c] == card
  }

  lemma NothingMade(s: State, p: int, base: CardRef)
    requires p in s.players && Place(p, Deck) in s.zones && Place(p, Crypt) in s.zones
    ensures CardsMade(s, s, p, [], base)
  {
    assert s.zones[Place(p, Deck)] + [] == s.zones[Place(p, Deck)];
    assert s.zones[Place(p, Crypt)] + [] == s.zones[Place(p, Crypt)];
  }

  lemma OneMade(s: State, p: int, entry: Entry, base: CardRef)
    requires CanFill(s, p, base)
    ensures var t := FillOne(s, p, entry, base);
            && CardsMade(s, t, p, [entry], base)
            && p in t.players && t.players[p].nextCardId == s.players[p].nextCardId + 1
  {
    hide Inv; hide FilledWith; hide Made;
    var deck, crypt := Place(p, Deck), Place(p, Crypt);
    assert s.zones[deck] + [] == s.zones[deck] && s.zones[crypt] + [] == s.zones[crypt];
    var t := FillOne(s, p, entry, base);
    assert t.heap == s.heap[base := NewCard(p, entry, s.players[p].nextCardId)];
    MadeOf(entry, base);
    var place := if entry.crypt then crypt else deck;
    assert t.zones == s.zones[place := s.zones[place] + [base]];
    assert s.zones[deck := s.zones[deck]] == s.zones && s.zones[crypt := s.zones[crypt]] == s.zones;
    assert t.zones[crypt := t.zones[crypt]] == t.zones;
  }

  lemma MadeOf(entry: Entry, base: CardRef)
    ensures Made([entry], entry.crypt, base) == [base] && Made([entry], !entry.crypt, base) == []
  {
    assert [entry][1..] == [];
  }

  lemma MadeStep(s: State, t: State, u: State, p: int, entries: seq<Entry>, base: CardRef)
    requires entries != [] && CardsMade(s, t, p, [entries[0]], base) && CardsMade(t, u, p, entries[1..], base + 1)
    requires p in t.players && t.players[p].nextCardId == s.players[p].nextCardId + 1
    ensures CardsMade(s, u, p, entries, base)
  {
    var id := s.players[p].nextCardId;
    forall i | 0 <= i < |entries|
      ensures HasCard(u.heap, base + i, NewCard(p, entries[i], id + i))
    {
      if i == 0 {
        assert HasCard(t.heap, base + 0, NewCard(p, [entries[0]][0], id + 0));
      } else {
        assert HasCard(u.heap, base + 1 + (i - 1), NewCard(p, entries[1..][i - 1], id + 1 + (i - 1)));
      }
    }
    forall c | c in s.heap
      ensures HasCard(u.heap, c, s.heap[c])
    {
      assert HasCard(t.heap, c, s.heap[c]);
    }
    MadeLists(s.zones[Place(p, Deck)], entries, false, base);
    MadeLists(s.zones[Place(p, Crypt)], entries, true, base);
  }

  lemma MadeLists(list: seq<CardRef>, entries: seq<Entry>, crypt: bool, base: CardRef)
    requires entries != []
    ensures list + Made([entries[0]], crypt, base) + Made(entries[1..], crypt, base + 1) == list + Made(entries, crypt, base)
  {
    assert [entries[0]][1..] == [];
    var first := Made([entries[0]], crypt, base);
    assert list + first + Made(entries[1..], crypt, base + 1) == list + (first + Made(entries[1..], crypt, base + 1));
  }

  lemma {:induction false} FillMakes(s: State, p: int, entries: seq<Entry>, base: CardRef)
    requires CanFill(s, p, base)
    ensures CardsMade(s, FillZones(s, p, entries, base), p, entries, base)
    decreases |entries|
  {
    hide FillOne; hide Filled; hide FilledWith; hide CardsMade; hide Inv;
    if entries == [] {
      NothingMade(s, p, base);
    } else {
      OneMade(s, p, entries[0], base);
      var s1 := FillOne(s, p, entries[0], base);
      FillMakes(s1, p, entries[1..], base + 1);
      MadeStep(s, s1, FillZones(s1, p, entries[1..], base + 1), p, entries, base);
    }
  }

  // ------------------------------------------------------------------ the sideboard plan

  /** c is the first card of that name in the list. */
  ghost predicate IsFirstNamed(heap: Heap, cards: seq<CardRef>, name: string, c: CardRef)
  {
    && c in cards && c in heap && heap[c].name == name
    && forall j :: 0 <= j < IndexOf(cards, c) && cards[j] in heap ==> heap[cards[j]].name != name
  }

  lemma {:induction false} FirstNamedIsFirst(heap: Heap, cards: seq<CardRef>, name: string)
    requires forall c :: c in cards ==> c in heap
    ensures var r := FirstNamed(heap, cards, name); r.Some? ==> IsFirstNamed(heap, cards, name, r.value)
  {
    if cards != [] && heap[cards[0]].name != name {
      var r := FirstNamed(heap, cards[1..], name);
      FirstNamedIsFirst(heap, cards[1..], name);
      if r.Some? {
        assert IndexOf(cards, r.value) == 1 + IndexOf(cards[1..], r.value);
      }
    }
  }

  /** c has left one list for the end of another, or of the same. */
  ghost predicate SwappedOver(s: State, t: State, c: CardRef, from: Place, to: Place)
    requires from in s.zones && to in s.zones && c in s.zones[from] && c in s.heap
  {
    && t.heap == s.heap[c := s.heap[c].(x := 0, y := 0, zone := Some(to))]
    && t.players == s.players
    && var zones := s.zones[from := Without(s.zones[from], c)]; t.zones == zones[to := zones[to] + [c]]
  }

  /** A move of the plan takes the first card of its name over; without such a card nothing happens. */
  lemma ApplyMoveMoves(s: State, p: int, m: PlanMove)
    requires Inv(s, NoCard) && p in s.players && PlanZone(m.from) && PlanZone(m.to)
    requires Place(p, Deck) in s.zones && Place(p, Sideboard) in s.zones
    ensures ZoneKnown(s, Place(p, m.from))
    ensures var t := ApplyMove(s, p, m);
            var cards := s.zones[Place(p, m.from)];
            if exists c :: c in cards && s.heap[c].name == m.name
            then exists c :: IsFirstNamed(s.heap, cards, m.name, c) && SwappedOver(s, t, c, Place(p, m.from), Place(p, m.to))
            else t == s
  {
    hide Placed; hide Ids; hide Forest; hide Arrows; hide Filling; hide Without; hide IsFirstNamed;
    var from, to := Place(p, m.from), Place(p, m.to);
    ZonesKnown(s, from, NoCard);
    FirstNamedIsFirst(s.heap, s.zones[from], m.name);
    var found := FirstNamed(s.heap, s.zones[from], m.name);
    if found.Some? {
      HiddenCardIsFree(s, found.value, from);
      assert SwappedOver(s, ApplyMove(s, p, m), found.value, from, to);
    }
  }

  /** Library and sideboard together hold the same cards; nobody's other zones change. */
  ghost predicate BothKept(s: State, t: State, p: int)
  {
    var deck, side := Place(p, Deck), Place(p, Sideboard);
    && deck in s.zones && side in s.zones && t.zones.Keys == s.zones.Keys
    && multiset(t.zones[deck]) + multiset(t.zones[side]) == multiset(s.zones[deck]) + multiset(s.zones[side])
    && forall q :: q in s.zones && q != deck && q != side ==> t.zones[q] == s.zones[q]
  }

  lemma SwappedKeepsBoth(s: State, t: State, p: int, c: CardRef, from: Place, to: Place)
    requires from in s.zones && to in s.zones && c in s.zones[from] && c in s.heap && SwappedOver(s, t, c, from, to)
    requires Place(p, Deck) in s.zones && Place(p, Sideboard) in s.zones
    requires from == Place(p, Deck) || from == Place(p, Sideboard)
    requires to == Place(p, Deck) || to == Place(p, Sideboard)
    ensures BothKept(s, t, p)
  {
    hide Without;
    WithoutCounts(s.zones[from], c);
    SwapCounts(s.zones, t.zones, from, to, Without(s.zones[from], c), c);
  }

  lemma WithoutCounts(cards: seq<CardRef>, c: CardRef)
    requires c in cards
    ensures multiset(Without(cards, c)) + multiset{c} == multiset(cards)
  {
    assert c in multiset(cards);
  }

  lemma SwapCounts(
    s: map<Place, seq<CardRef>>, t: map<Place, seq<CardRef>>, from: Place, to: Place, rest: seq<CardRef>, c: CardRef)
    requires from in s && to in s && multiset(rest) + multiset{c} == multiset(s[from])
    requires t == s[from := rest][to := s[from := rest][to] + [c]]
    ensures from == to ==> multiset(t[to]) == multiset(s[to])
    ensures from != to ==> multiset(t[from]) + multiset(t[to]) == multiset(s[from]) + multiset(s[to])
    ensures forall q :: q in s && q != from && q != to ==> t[q] == s[q]
  {
  }

  lemma MoveKeepsBoth(s: State, p: int, m: PlanMove)
    requires Inv(s, NoCard) && p in s.players && PlanZone(m.from) && PlanZone(m.to)
    requires Place(p, Deck) in s.zones && Place(p, Sideboard) in s.zones
    ensures BothKept(s, ApplyMove(s, p, m), p)
  {
    hide Inv; hide Filling; hide ApplyMove; hide SwappedOver; hide BothKept;
    ApplyMoveMoves(s, p, m);
    var t := ApplyMove(s, p, m);
    var cards := s.zones[Place(p, m.from)];
    if exists c :: c in cards && s.heap[c].name == m.name {
      var c :| IsFirstNamed(s.heap, cards, m.name, c) && SwappedOver(s, t, c, Place(p, m.from), Place(p, m.to));
      SwappedKeepsBoth(s, t, p, c, Place(p, m.from), Place(p, m.to));
    } else {
      SameKeepsBoth(s, p);
    }
  }

  lemma SameKeepsBoth(s: State, p: int)
    requires Place(p, Deck) in s.zones && Place(p, Sideboard) in s.zones
    ensures BothKept(s, s, p)
  {
  }

  lemma {:induction false} PlanKeepsBoth(s: State, p: int, plan: seq<PlanMove>)
    requires Inv(s, NoCard) && p in s.players && forall m :: m in plan ==> PlanZone(m.from) && PlanZone(m.to)
    requires Place(p, Deck) in s.zones && Place(p, Sideboard) in s.zones
    ensures BothKept(s, ApplyPlan(s, p, plan), p)
    decreases |plan|
  {
    hide Inv; hide Filling; hide ApplyMove;
    if plan != [] {
      assert plan[0] in plan;
      MoveKeepsBoth(s, p, plan[0]);
      FillingKeys(s, ApplyMove(s, p, plan[0]), p);
      PlanKeepsBoth(ApplyMove(s, p, plan[0]), p, plan[1..]);
    }
  }

  // ------------------------------------------------------------------ the whole setup

  /** p's zones and cards after setting up from a list of entries, whatever order the shuffle produced. */
  ghost predicate DealtTo(t: State, p: int, entries: seq<Entry>, base: CardRef)
  {
    && (forall z :: Place(p, z) in t.zones)
    && t.zones[Place(p, Crypt)] == Made(entries, true, base)
    && multiset(t.zones[Place(p, Deck)]) + multiset(t.zones[Place(p, Sideboard)]) == multiset(Made(entries, false, base))
    && (forall z :: z != Crypt && z != Deck && z != Sideboard ==> t.zones[Place(p, z)] == [])
    && (forall i :: 0 <= i < |entries| ==> NamedAs(t.heap, base + i, i, entries[i].name))
  }

  /** A card of the deck: it has its place in the list as id, and is no token. */
  predicate NamedAs(heap: Heap, c: CardRef, id: int, name: string)
  {
    c in heap && heap[c].id == id && heap[c].name == name && !heap[c].destroyOnZoneChange
  }

  lemma FillsNamed(s: State, t: State, u: State, p: int, entries: seq<Entry>, base: CardRef)
    requires CardsMade(s, t, p, entries, base) && s.players[p].nextCardId == 0 && Filling(t, u, p)
    ensures forall i :: 0 <= i < |entries| ==> NamedAs(u.heap, base + i, i, entries[i].name)
  {
    forall i | 0 <= i < |entries|
      ensures NamedAs(u.heap, base + i, i, entries[i].name)
    {
      assert HasCard(t.heap, base + i, NewCard(p, entries[i], 0 + i));
    }
  }

  lemma OpenedZones(s: State, p: int)
    requires p in s.players && NoZones(s, p)
    ensures var t := OpenZones(s, p);
            && (forall z :: Place(p, z) in t.zones && t.zones[Place(p, z)] == [])
            && p in t.players && t.players[p].nextCardId == 0
  {
    OpenZonesFacts(s, p);
    OpenZonesRest(s, p);
  }

  lemma MadeThenKept(s: State, t: State, u: State, p: int, entries: seq<Entry>, base: CardRef)
    requires forall z :: Place(p, z) in s.zones && s.zones[Place(p, z)] == []
    requires p in s.players && s.players[p].nextCardId == 0
    requires CardsMade(s, t, p, entries, base) && BothKept(t, u, p) && Filling(t, u, p)
    ensures DealtTo(u, p, entries, base)
  {
    FillsNamed(s, t, u, p, entries, base);
    MadeInEmpty(s, t, p, entries, base);
    hide Made; hide CardsMade; hide Filling; hide NamedAs;
    assert Place(p, Deck) in t.zones && Place(p, Sideboard) in t.zones && Place(p, Crypt) in t.zones;
  }

  lemma MadeInEmpty(s: State, t: State, p: int, entries: seq<Entry>, base: CardRef)
    requires forall z :: Place(p, z) in s.zones && s.zones[Place(p, z)] == []
    requires CardsMade(s, t, p, entries, base)
    ensures forall z :: Place(p, z) in t.zones
    ensures forall z :: t.zones[Place(p, z)] == if z == Deck then Made(entries, false, base)
                                              else if z == Crypt then Made(entries, true, base) else []
  {
    hide Made; hide HasCard;
    assert [] + Made(entries, true, base) == Made(entries, true, base);
    assert [] + Made(entries, false, base) == Made(entries, false, base);
    assert forall z :: Place(p, z) in s.zones;
  }

  lemma UnshuffledDeals(s: State, p: int, deck: DeckPlan)
    requires Inv(s, NoCard) && p in s.players && NoZones(s, p) && PlanFits(s, deck)
    ensures DealtTo(Unshuffled(s, p, deck), p, deck.entries, deck.base)
  {
    hide Inv; hide Filling; hide FillZones; hide ApplyPlan; hide FilledWith; hide CardsMade; hide BothKept; hide DealtTo; hide NoZones;
    OpenZonesFacts(s, p);
    OpenedZones(s, p);
    OpenZonesKeepsInv(s, p);
    var s1 := OpenZones(s, p);
    var s2 := FillZones(s1, p, deck.entries, deck.base);
    FilledKeys(s1, s2, p, deck.base, |deck.entries|);
    FillMakes(s1, p, deck.entries, deck.base);
    PlanKeepsBoth(s2, p, deck.plan);
    MadeThenKept(s1, s2, ApplyPlan(s2, p, deck.plan), p, deck.entries, deck.base);
  }

  lemma ReorderDeals(s: State, p: int, order: seq<CardRef>, entries: seq<Entry>, base: CardRef)
    requires DealtTo(s, p, entries, base) && multiset(order) == multiset(s.zones[Place(p, Deck)])
    ensures DealtTo(Reorder(s, Place(p, Deck), order), p, entries, base)
  {
  }

  /**
   Setting up: entry i of the deck list is a card with id i and the entry's name; the crypt holds the
   crypt cards in the order of the list, library and sideboard together hold the library cards, all
   other zones are empty.
   */
  lemma SetUpDeals(s: State, p: int, deck: DeckPlan)
    requires Inv(s, NoCard) && p in s.players && NoZones(s, p) && PlanFits(s, deck)
    requires multiset(deck.order) == multiset(Unshuffled(s, p, deck).zones[Place(p, Deck)])
    ensures DealtTo(SetUp(s, p, deck), p, deck.entries, deck.base)
    ensures SetUp(s, p, deck).zones[Place(p, Deck)] == deck.order
  {
    hide Inv; hide Filling; hide Unshuffled; hide DealtTo; hide NoZones;
    UnshuffledDeals(s, p, deck);
    ReorderDeals(Unshuffled(s, p, deck), p, deck.order, deck.entries, deck.base);
    DealtPlaces(SetUp(s, p, deck), p, deck.entries, deck.base);
  }

  lemma DealtPlaces(t: State, p: int, entries: seq<Entry>, base: CardRef)
    requires DealtTo(t, p, entries, base)
    ensures Place(p, Deck) in t.zones
  {
  }
}

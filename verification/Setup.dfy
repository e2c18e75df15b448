/** Setting up a player's zones from a deck (common/server_player.cpp:167-254). */
module Setup {
  import opened Wrappers
  import opened Cards
  import opened Shuffling
  import opened ZoneLists
  import opened GameState
  import opened Movement
  import opened Commands
  import opened Attachments
  import opened Tokens
  import opened Lifecycle

  /** One card of the deck list, in the order of the list: its zone there and its name. */
  datatype Entry = Entry(crypt: bool, name: string)

  /** One move of the sideboard plan between library and sideboard. */
  datatype PlanMove = PlanMove(name: string, from: ZoneName, to: ZoneName)

  /** All that setting up depends on; `base` is the first of a row of unused card objects. */
  datatype DeckPlan = DeckPlan(entries: seq<Entry>, plan: seq<PlanMove>, base: CardRef, order: seq<CardRef>)

  /** The eight empty zones, and the card counter back at 0. */
  function OpenZones(s: State, p: int): State
    requires p in s.players
  {
    s.(zones := s.zones + (map z | z in ZONE_ORDER :: Place(p, z) := []),
       players := s.players[p := s.players[p].(nextCardId := 0)])
  }

  ghost predicate NoZones(s: State, p: int)
  {
    forall z :: Place(p, z) !in s.zones
  }

  lemma OpenZonesFacts(s: State, p: int)
    requires p in s.players && NoZones(s, p)
    ensures var t := OpenZones(s, p);
            && (forall q :: q in t.zones <==> q in s.zones || q.owner == p)
            && (forall q :: q in t.zones ==> t.zones[q] == if q.owner == p then [] else s.zones[q])
  {
    forall z: ZoneName
      ensures z in ZONE_ORDER
    {
      ZoneListed(z);
    }
    var t := OpenZones(s, p);
    forall q | q in t.zones || q in s.zones || q.owner == p
      ensures q in t.zones <==> q in s.zones || q.owner == p
      ensures q in t.zones ==> t.zones[q] == if q.owner == p then [] else s.zones[q]
    {
      assert q == Place(q.owner, q.zone);
    }
  }

  lemma OwnersWithZones(s: State, p: int, c: CardRef)
    requires Placed(s, NoCard) && NoZones(s, p) && c in s.heap
    ensures Where(s, c, NoCard).Some? && Where(s, c, NoCard).value.owner != p
  {
    var q := s.heap[c].zone.value;
    assert q == Place(q.owner, q.zone);
  }

  lemma OpenZonesKeepsInv(s: State, p: int)
    requires Inv(s, NoCard) && p in s.players && NoZones(s, p)
    ensures Inv(OpenZones(s, p), NoCard)
  {
    hide Placed; hide Ids; hide Forest; hide Arrows;
    OpenZonesPlaced(s, p);
    OpenZonesIds(s, OpenZones(s, p), p);
    OpenZonesLinks(s, OpenZones(s, p), p);
  }

  lemma OpenZonesPlaced(s: State, p: int)
    requires Placed(s, NoCard) && p in s.players && NoZones(s, p)
    ensures Placed(OpenZones(s, p), NoCard)
  {
    hide OpenZones;
    OpenZonesFacts(s, p);
    var t := OpenZones(s, p);
    assert t.heap == s.heap && t.players.Keys == s.players.Keys by { OpenZonesRest(s, p); }
    forall c | c in t.heap
      ensures t.heap[c].zone.value.owner != p
    {
      OwnersWithZones(s, p, c);
    }
  }

  lemma OpenZonesRest(s: State, p: int)
    requires p in s.players
    ensures var t := OpenZones(s, p);
            && t.heap == s.heap && t.started == s.started
            && t.players == s.players[p := s.players[p].(nextCardId := 0)]
  {
  }

  lemma OpenZonesIds(s: State, t: State, p: int)
    requires Placed(s, NoCard) && Ids(s, NoCard) && p in s.players && NoZones(s, p)
    requires t.heap == s.heap && t.players == s.players[p := s.players[p].(nextCardId := 0)]
    ensures Ids(t, NoCard)
  {
    hide Placed;
    forall c | c in t.heap
      ensures IdBelowCounter(t, NoCard, c)
    {
      OwnersWithZones(s, p, c);
      assert IdBelowCounter(s, NoCard, c);
    }
    forall c, d | c in t.heap && d in t.heap && c != d
      ensures IdsDiffer(t, NoCard, c, d)
    {
      assert IdsDiffer(s, NoCard, c, d);
    }
  }

  lemma OpenZonesLinks(s: State, t: State, p: int)
    requires Forest(s, NoCard) && Arrows(s, NoCard) && p in s.players
    requires t.heap == s.heap && t.players == s.players[p := s.players[p].(nextCardId := 0)]
    ensures Forest(t, NoCard) && Arrows(t, NoCard)
  {
    assert forall d :: d in s.heap ==> Where(t, d, NoCard) == Where(s, d, NoCard);
    forall q, i | q in t.players && i in t.players[q].arrows
      ensures i >= 1 && EndsOk(t, NoCard, t.players[q].arrows[i])
    {
      assert EndsOk(s, NoCard, s.players[q].arrows[i]);
    }
  }

  // ------------------------------------------------------------------ filling the zones

  /** Between the steps of a setup: p has all zones, the other zones and all seats are as before. */
  ghost predicate Filling(s: State, t: State, p: int)
  {
    && t.started == s.started
    && t.zones.Keys == s.zones.Keys && t.players.Keys == s.players.Keys
    && (forall q :: q in s.players ==> t.players[q].(nextCardId := s.players[q].nextCardId) == s.players[q])
    && (forall q :: q in s.zones && q.owner != p ==> t.zones[q] == s.zones[q])
    && (forall c :: c in s.heap ==>
          && c in t.heap && t.heap[c].name == s.heap[c].name && t.heap[c].id == s.heap[c].id
          && t.heap[c].destroyOnZoneChange == s.heap[c].destroyOnZoneChange)
    && (Tidy(s) ==> Tidy(t))
  }

  lemma FillingThen(s: State, t: State, u: State, p: int)
    requires Filling(s, t, p) && Filling(t, u, p)
    ensures Filling(s, u, p)
  {
  }

  lemma FillingItself(s: State, p: int)
    ensures Filling(s, s, p)
  {
  }

  ghost predicate FreshFrom(s: State, base: CardRef)
  {
    forall c :: c in s.heap ==> c < base
  }

  /** n card objects in a row. */
  function Refs(base: CardRef, n: nat): (r: set<CardRef>)
    ensures forall c :: c in r <==> base <= c < base + n
    ensures |r| == n
    decreases n
  {
    if n == 0 then {} else Refs(base + 1, n - 1) + {base}
  }

  /** n cards have been added to p's zones under the next n ids. */
  ghost predicate FilledWith(s: State, t: State, p: int, base: CardRef, n: nat)
  {
    && p in s.players && p in t.players
    && Filling(s, t, p) && FreshFrom(t, base + n)
    && t.heap.Keys == s.heap.Keys + Refs(base, n)
    && t.players[p].nextCardId == s.players[p].nextCardId + n
  }

  lemma FilledWithStep(s: State, t: State, u: State, p: int, base: CardRef, n: nat)
    requires FilledWith(s, t, p, base, 1) && FilledWith(t, u, p, base + 1, n)
    ensures FilledWith(s, u, p, base, n + 1)
  {
    RefsSplit(base, n);
    hide Filling; hide Refs; hide FreshFrom;
    FillingThen(s, t, u, p);
    FillingKeys(s, t, p);
    assert base + 1 + n == base + (n + 1);
  }

  lemma FilledStep(s: State, t: State, u: State, p: int, entries: seq<Entry>, base: CardRef)
    requires entries != [] && FilledWith(s, t, p, base, 1) && Filled(t, u, p, entries[1..], base + 1)
    ensures Filled(s, u, p, entries, base)
  {
    hide CanFill; hide FilledWith;
    FilledWithStep(s, t, u, p, base, |entries| - 1);
    assert base + 1 + |entries[1..]| == base + |entries|;
  }

  lemma RefsSplit(base: CardRef, n: nat)
    ensures Refs(base, n + 1) == Refs(base, 1) + Refs(base + 1, n)
  {
  }

  /** p has a library and a crypt, and the card objects from `base` on are unused. */
  ghost predicate CanFill(s: State, p: int, base: CardRef)
  {
    Inv(s, NoCard) && p in s.players && FreshFrom(s, base) && Place(p, Deck) in s.zones && Place(p, Crypt) in s.zones
  }

  ghost function FillOne(s: State, p: int, entry: Entry, base: CardRef): (t: State)
    requires CanFill(s, p, base)
    ensures CanFill(t, p, base + 1) && FilledWith(s, t, p, base, 1)
  {
    hide Inv; hide FilledWith; hide AddCard; hide FreshFrom;
    FillStep(s, p, Place(p, if entry.crypt then Crypt else Deck), entry.name, base);
    AddCard(s, base, Place(p, if entry.crypt then Crypt else Deck), -1, 0, 0, entry.name, false)
  }

  ghost predicate Filled(s: State, t: State, p: int, entries: seq<Entry>, base: CardRef)
  {
    CanFill(t, p, base + |entries|) && FilledWith(s, t, p, base, |entries|)
  }

  /** The cards of the deck list, numbered from 0 in the order of the list. */
  ghost function FillZones(s: State, p: int, entries: seq<Entry>, base: CardRef): (t: State)
    requires CanFill(s, p, base)
    ensures Filled(s, t, p, entries, base)
    decreases |entries|
  {
    hide CanFill; hide FillOne; hide Filled; hide FilledWith;
    if entries == [] then
      NothingFilled(s, p, base);
      s
    else
      var s1 := FillOne(s, p, entries[0], base);
      var t := FillZones(s1, p, entries[1..], base + 1);
      FilledStep(s, s1, t, p, entries, base);
      t
  }

  lemma NothingFilled(s: State, p: int, base: CardRef)
    requires CanFill(s, p, base)
    ensures Filled(s, s, p, [], base)
  {
  }

  lemma FilledKeys(s: State, t: State, p: int, base: CardRef, n: nat)
    requires FilledWith(s, t, p, base, n)
    ensures t.players.Keys == s.players.Keys && t.zones.Keys == s.zones.Keys && FreshFrom(t, base + n)
    ensures Filling(s, t, p) && t.heap.Keys == s.heap.Keys + Refs(base, n)
  {
  }

  lemma FillingKeys(s: State, t: State, p: int)
    requires Filling(s, t, p)
    ensures t.players.Keys == s.players.Keys && t.zones.Keys == s.zones.Keys
  {
  }

  lemma FillStep(s: State, p: int, zone: Place, name: string, ref: CardRef)
    requires Inv(s, NoCard) && p in s.players && FreshFrom(s, ref) && zone in s.zones && zone.owner == p
    requires !HasCoords(zone.zone)
    ensures var t := AddCard(s, ref, zone, -1, 0, 0, name, false);
            && Inv(t, NoCard) && FilledWith(s, t, p, ref, 1)
            && p in t.players && t.zones.Keys == s.zones.Keys && FreshFrom(t, ref + 1)
  {
    AddCardKeepsInv(s, ref, zone, -1, 0, 0, name, false);
    hide Inv; hide AddCard; hide Added; hide FilledWith;
    var t := AddCard(s, ref, zone, -1, 0, 0, name, false);
    AddedFills(s, t, p, zone, ref);
    FilledKeys(s, t, p, ref, 1);
  }

  lemma AddedFills(s: State, t: State, p: int, zone: Place, ref: CardRef)
    requires p in s.players && FreshFrom(s, ref) && zone in s.zones && zone.owner == p && !HasCoords(zone.zone)
    requires Added(s, t, ref, zone)
    ensures FilledWith(s, t, p, ref, 1) && p in t.players
  {
    assert Refs(ref, 1) == {ref};
    AddedTidy(s, t, zone, ref);
    AddedFilling(s, t, p, zone, ref);
    hide Filling; hide Tidy;
  }

  lemma AddedFilling(s: State, t: State, p: int, zone: Place, ref: CardRef)
    requires zone in s.zones && zone.owner == p && p in s.players && Added(s, t, ref, zone) && (Tidy(s) ==> Tidy(t))
    ensures Filling(s, t, p)
  {
    hide Tidy;
  }

  lemma AddedTidy(s: State, t: State, zone: Place, ref: CardRef)
    requires zone in s.zones && zone.owner in s.players && !HasCoords(zone.zone) && Added(s, t, ref, zone)
    ensures Tidy(s) ==> Tidy(t)
  {
    if Tidy(s) {
      forall c | c in t.heap && t.heap[c].zone.Some? && !HasCoords(t.heap[c].zone.value.zone)
        ensures Plain(t.heap[c])
      {
        assert c in s.heap ==> t.heap[c] == s.heap[c];
      }
    }
  }

  // ------------------------------------------------------------------ the sideboard plan

  /** The first card of that name in the list. */
  function FirstNamed(heap: Heap, cards: seq<CardRef>, name: string): (r: Option<CardRef>)
    requires forall c :: c in cards ==> c in heap
    ensures r.Some? ==> r.value in cards && heap[r.value].name == name
    ensures r.None? ==> forall c :: c in cards ==> heap[c].name != name
  {
    if cards == [] then None
    else if heap[cards[0]].name == name then Some(cards[0])
    else FirstNamed(heap, cards[1..], name)
  }

  predicate PlanZone(z: ZoneName)
  {
    z == Deck || z == Sideboard
  }

  ghost function ApplyMove(s: State, p: int, m: PlanMove): (t: State)
    requires Inv(s, NoCard) && p in s.players && PlanZone(m.from) && PlanZone(m.to)
    requires Place(p, Deck) in s.zones && Place(p, Sideboard) in s.zones
    ensures Inv(t, NoCard) && Filling(s, t, p) && t.heap.Keys == s.heap.Keys
  {
    hide Placed; hide Ids; hide Forest; hide Arrows; hide Filling; hide Settle;
    var from, to := Place(p, m.from), Place(p, m.to);
    ZonesKnown(s, from, NoCard);
    FillingItself(s, p);
    var found := FirstNamed(s.heap, s.zones[from], m.name);
    if found.None? then s
    else
      var c := found.value;
      HiddenCardIsFree(s, c, from);
      LiftKeepsInv(s, c);
      SettleKeepsInv(LiftCard(s, c), c, from, to, -1, 0, 0, false, s.heap[c].faceDown);
      PlanMoveFills(s, p, c, from, to);
      Settle(LiftCard(s, c), c, to, -1, 0, 0, false, s.heap[c].faceDown)
  }

  lemma PlanMoveFills(s: State, p: int, c: CardRef, from: Place, to: Place)
    requires c in s.heap && s.heap[c].zone == Some(from) && from in s.zones && c in s.zones[from]
    requires to in s.zones && to.owner in s.players && from.owner == p && to.owner == p
    requires !HasCoords(from.zone) && !HasCoords(to.zone)
    ensures var t := Settle(LiftCard(s, c), c, to, -1, 0, 0, false, s.heap[c].faceDown);
            Filling(s, t, p) && t.heap.Keys == s.heap.Keys
  {
    PlanMoveTidy(s, c, from, to);
    hide Tidy;
  }

  lemma PlanMoveTidy(s: State, c: CardRef, from: Place, to: Place)
    requires c in s.heap && s.heap[c].zone == Some(from) && from in s.zones && c in s.zones[from]
    requires to in s.zones && to.owner in s.players && !HasCoords(from.zone) && !HasCoords(to.zone)
    ensures Tidy(s) ==> Tidy(Settle(LiftCard(s, c), c, to, -1, 0, 0, false, s.heap[c].faceDown))
  {
  }

  ghost function ApplyPlan(s: State, p: int, plan: seq<PlanMove>): (t: State)
    requires Inv(s, NoCard) && p in s.players && forall m :: m in plan ==> PlanZone(m.from) && PlanZone(m.to)
    requires Place(p, Deck) in s.zones && Place(p, Sideboard) in s.zones
    ensures Inv(t, NoCard) && Filling(s, t, p) && t.heap.Keys == s.heap.Keys
    decreases |plan|
  {
    hide Inv; hide Filling; hide ApplyMove;
    if plan == [] then
      FillingItself(s, p);
      s
    else
      assert plan[0] in plan;
      var s1 := ApplyMove(s, p, plan[0]);
      FillingKeys(s, s1, p);
      var t := ApplyPlan(s1, p, plan[1..]);
      FillingThen(s, s1, t, p);
      t
  }

  // ------------------------------------------------------------------ the whole setup

  ghost predicate PlanFits(s: State, deck: DeckPlan)
  {
    FreshFrom(s, deck.base) && forall m :: m in deck.plan ==> PlanZone(m.from) && PlanZone(m.to)
  }

  /** The library before it is shuffled. */
  ghost function Unshuffled(s: State, p: int, deck: DeckPlan): (t: State)
    requires Inv(s, NoCard) && p in s.players && NoZones(s, p) && PlanFits(s, deck)
    ensures Inv(t, NoCard) && Filling(OpenZones(s, p), t, p)
    ensures t.heap.Keys == s.heap.Keys + Refs(deck.base, |deck.entries|)
    ensures Place(p, Deck) in t.zones
  {
    hide Inv; hide Filling; hide FillZones; hide ApplyPlan; hide FilledWith;
    OpenZonesFacts(s, p);
    OpenZonesKeepsInv(s, p);
    var s1 := OpenZones(s, p);
    var s2 := FillZones(s1, p, deck.entries, deck.base);
    FilledKeys(s1, s2, p, deck.base, |deck.entries|);
    var t := ApplyPlan(s2, p, deck.plan);
    FillingThen(s1, s2, t, p);
    FillingKeys(s2, t, p);
    t
  }

  ghost function SetUp(s: State, p: int, deck: DeckPlan): (t: State)
    requires Inv(s, NoCard) && p in s.players && NoZones(s, p) && PlanFits(s, deck)
    requires multiset(deck.order) == multiset(Unshuffled(s, p, deck).zones[Place(p, Deck)])
    ensures Inv(t, NoCard) && Filling(OpenZones(s, p), t, p)
    ensures t.heap.Keys == s.heap.Keys + Refs(deck.base, |deck.entries|)
  {
    hide Inv; hide Filling; hide Unshuffled;
    var u := Unshuffled(s, p, deck);
    ReorderKeepsInv(u, Place(p, Deck), deck.order);
    ReorderFills(u, p, deck.order);
    FillingThen(OpenZones(s, p), u, Reorder(u, Place(p, Deck), deck.order), p);
    Reorder(u, Place(p, Deck), deck.order)
  }

  lemma ReorderFills(s: State, p: int, order: seq<CardRef>)
    requires Place(p, Deck) in s.zones
    ensures Filling(s, Reorder(s, Place(p, Deck), order), p)
  {
  }
}

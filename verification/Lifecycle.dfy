/**
 Cards entering and leaving the game: setting up a player's zones, conceding, leaving, starting and
 stopping (common/server_player.cpp:167-274, 851-906; common/server_game.cpp:312-607).
 */
module Lifecycle {
  import opened Wrappers
  import opened Cards
  import opened Shuffling
  import opened ZoneLists
  import opened GameState
  import opened Movement
  import opened Commands
  import opened Attachments
  import opened Tokens

  // ------------------------------------------------------------------ deleting a card object

  lemma DetachShortens(s: State, c: CardRef, f: Lift)
    requires Inv(s, f) && c in s.heap && s.heap[c].attached != []
    ensures var k := s.heap[c].attached[0];
            && k in s.heap && k != c && s.heap[k].parent == Some(c) && k in s.heap[c].attached
            && Detach(s, k).heap[c].attached == Without(s.heap[c].attached, k)
            && |Without(s.heap[c].attached, k)| < |s.heap[c].attached|
            && Detach(s, k).heap[c].zone == s.heap[c].zone
            && (s.heap[c].parent.None? ==> Detach(s, k).heap[c].parent.None?)
  {
    hide Placed; hide Ids; hide Arrows;
    ChildOf(s, c, s.heap[c].attached[0], f);
  }

  /** ~Server_Card: the first attached card is detached until none is left; each step shortens the list. */
  ghost function DetachChildren(s: State, c: CardRef, f: Lift): (t: State)
    requires Inv(s, f) && c in s.heap
    ensures Inv(t, f) && OthersStay(s, t, {}) && t.heap.Keys == s.heap.Keys
    ensures t.heap[c].attached == [] && t.players == s.players && t.zones == s.zones
    decreases |s.heap[c].attached|
  {
    hide Inv; hide OthersStay; hide Detach;
    if s.heap[c].attached == [] then
      StayItself(s);
      s
    else
      var k := s.heap[c].attached[0];
      DetachShortens(s, c, f);
      DetachKeepsInv(s, k, f);
      var s1 := Detach(s, k);
      DetachStays(s, s1, k, f);
      var t := DetachChildren(s1, c, f);
      StayThen(s, s1, t, {});
      t
  }

  lemma StayItself(s: State)
    ensures OthersStay(s, s, {})
  {
  }

  lemma DetachStays(s: State, t: State, k: CardRef, f: Lift)
    requires Inv(s, f) && k in s.heap && t == Detach(s, k) && Detached(s.heap, t.heap, k)
    ensures OthersStay(s, t, {}) && t.zones == s.zones && t.players == s.players && t.heap.Keys == s.heap.Keys
  {
    hide Placed; hide Ids; hide Forest; hide Arrows;
    forall d | d in s.heap
      ensures Stays(s.heap[d], t.heap[d])
    {
      if s.heap[d].attached == [] {
        assert forall e :: e !in t.heap[d].attached;
        EmptyWithoutMembers(t.heap[d].attached);
      }
    }
  }

  /** The links of a lifted card: children and parent let go of it. */
  ghost function Release(s: State, c: CardRef, from: Place): (t: State)
    requires Inv(s, Lifted(c, from)) && c in s.heap
    ensures Inv(t, Lifted(c, from)) && Released(s, t, c)
  {
    hide Inv; hide OthersStay; hide DetachChildren; hide Detach; hide Detached;
    var f := Lifted(c, from);
    var s1 := DetachChildren(s, c, f);
    DetachKeepsInv(s1, c, f);
    DetachedSelf(s1, c, f);
    var t := Detach(s1, c);
    DetachStays(s1, t, c, f);
    StayThen(s, s1, t, {});
    t
  }

  ghost predicate Released(s: State, t: State, c: CardRef)
  {
    && OthersStay(s, t, {}) && t.heap.Keys == s.heap.Keys && t.players == s.players && t.zones == s.zones
    && c in t.heap && t.heap[c].parent.None? && t.heap[c].attached == []
  }

  /** Deleting a card with its zone. */
  ghost function Discard(s: State, c: CardRef): (t: State)
    requires Inv(s, NoCard) && c in s.heap && NoArrowsAt(s, c)
    ensures Inv(t, NoCard) && Discarded(s, t, c)
  {
    hide Inv; hide OthersStay; hide NoArrowsAt; hide Discarded; hide Release;
    InItsZone(s, c, NoCard);
    LiftKeepsInv(s, c);
    var s1 := LiftCard(s, c);
    var s2 := Release(s1, c, s.heap[c].zone.value);
    SameArrowsAt(s, s2, c);
    DestroyKeepsInv(s2, c, s.heap[c].zone.value);
    DiscardStays(s, s1, s2, c);
    Destroy(s2, c)
  }

  ghost predicate Discarded(s: State, t: State, c: CardRef)
  {
    && c in s.heap && s.heap[c].zone.Some? && s.heap[c].zone.value in s.zones && c in s.zones[s.heap[c].zone.value]
    && t.heap.Keys == s.heap.Keys - {c} && OthersStay(s, t, {c}) && t.players == s.players
    && t.zones == s.zones[s.heap[c].zone.value := Without(s.zones[s.heap[c].zone.value], c)]
  }

  lemma DetachedSelf(s: State, c: CardRef, f: Lift)
    requires Inv(s, f) && c in s.heap && s.heap[c].attached == []
    ensures var t := Detach(s, c); c in t.heap && t.heap[c].parent.None? && t.heap[c].attached == []
  {
    hide Placed; hide Ids; hide Arrows;
  }

  lemma SameArrowsAt(s: State, t: State, c: CardRef)
    requires NoArrowsAt(s, c) && t.players == s.players
    ensures NoArrowsAt(t, c)
  {
  }

  lemma DiscardStays(s: State, s1: State, s2: State, c: CardRef)
    requires c in s.heap && s.heap[c].zone.Some? && s.heap[c].zone.value in s.zones
    requires c in s.zones[s.heap[c].zone.value] && s1 == LiftCard(s, c) && Released(s1, s2, c)
    ensures Discarded(s, Destroy(s2, c), c)
  {
    forall d | d in s.heap && d != c
      ensures Stays(s.heap[d], s2.heap[d])
    {
      assert Stays(s1.heap[d], s2.heap[d]);
    }
  }

  function Members(cards: seq<CardRef>): set<CardRef>
  {
    set c | c in cards
  }

  /** No arrow has an end at one of these cards. */
  ghost predicate NoArrowsAtAny(s: State, cards: seq<CardRef>)
  {
    forall c :: c in cards ==> NoArrowsAt(s, c)
  }

  /** The zone's cards, and nothing else, are gone. */
  ghost predicate Emptied(s: State, t: State, p: Place)
  {
    && p in s.zones && t.zones == s.zones[p := []] && t.players == s.players
    && OthersStay(s, t, Members(s.zones[p])) && t.heap.Keys == s.heap.Keys - Members(s.zones[p])
  }

  /** A zone is deleted with all its cards. */
  ghost function DiscardZone(s: State, p: Place): (t: State)
    requires Inv(s, NoCard) && p in s.zones && NoArrowsAtAny(s, s.zones[p])
    ensures Inv(t, NoCard) && Emptied(s, t, p)
    decreases |s.zones[p]|
  {
    hide Inv; hide Discard; hide NoArrowsAt; hide Emptied; hide Discarded; hide NoArrowsAtAny;
    ZonesKnown(s, p, NoCard);
    if s.zones[p] == [] then
      NothingEmptied(s, p);
      s
    else
      var c := s.zones[p][0];
      FirstFree(s, p);
      var s1 := Discard(s, c);
      FirstGone(s, s1, p, c);
      var t := DiscardZone(s1, p);
      EmptiedStep(s, s1, t, p, c);
      t
  }

  lemma NothingEmptied(s: State, p: Place)
    requires p in s.zones && s.zones[p] == []
    ensures Emptied(s, s, p)
  {
    assert s.zones == s.zones[p := []];
  }

  lemma FirstFree(s: State, p: Place)
    requires p in s.zones && s.zones[p] != [] && NoArrowsAtAny(s, s.zones[p])
    ensures NoArrowsAt(s, s.zones[p][0])
  {
    assert s.zones[p][0] in s.zones[p];
  }

  lemma FirstGone(s: State, t: State, p: Place, c: CardRef)
    requires ZoneKnown(s, p) && s.zones[p] != [] && s.zones[p][0] == c
    requires Discarded(s, t, c) && NoArrowsAtAny(s, s.zones[p])
    ensures p in t.zones && t.zones[p] == s.zones[p][1..] && NoArrowsAtAny(t, t.zones[p])
  {
    assert c in s.zones[p];
    assert Without(s.zones[p], c) == s.zones[p][1..];
    forall d | d in t.zones[p]
      ensures NoArrowsAt(t, d)
    {
      assert d in s.zones[p];
      SameArrowsAt(s, t, d);
    }
  }

  lemma EmptiedStep(s: State, s1: State, t: State, p: Place, c: CardRef)
    requires ZoneKnown(s, p) && s.zones[p] != [] && s.zones[p][0] == c && Discarded(s, s1, c)
    requires Emptied(s1, t, p) && s1.zones[p] == s.zones[p][1..]
    ensures Emptied(s, t, p)
  {
    hide OthersStay;
    assert c in s.zones[p];
    MembersSplit(s.zones[p], c);
    assert t.heap.Keys == s.heap.Keys - Members(s.zones[p]);
    StayWider(s, s1, {c}, Members(s.zones[p]));
    StayWider(s1, t, Members(s1.zones[p]), Members(s.zones[p]));
    StayThen(s, s1, t, Members(s.zones[p]));
    assert t.zones == s.zones[p := []];
  }

  lemma MembersSplit(cards: seq<CardRef>, c: CardRef)
    requires cards != [] && cards[0] == c
    ensures Members(cards) == {c} + Members(cards[1..])
  {
    assert forall d :: d in cards <==> d == c || d in cards[1..];
  }

  lemma StayWider(s: State, t: State, moved: set<CardRef>, more: set<CardRef>)
    requires OthersStay(s, t, moved) && moved <= more
    ensures OthersStay(s, t, more)
  {
  }

  // ------------------------------------------------------------------ a player's cards go

  /** The order in which a QMap yields a player's zones. */
  const ZONE_ORDER := [Crypt, Deck, Grave, Hand, Rfg, Sideboard, Stack, Table]

  /** No arrow has an end at a card of this player. */
  ghost predicate Unpointed(s: State, p: int)
  {
    forall z :: Place(p, z) in s.zones ==> NoArrowsAtAny(s, s.zones[Place(p, z)])
  }

  /** The cards that are left are where they were. */
  ghost predicate Remaining(s: State, t: State)
  {
    t.started == s.started
    && forall c :: c in t.heap ==> c in s.heap && t.heap[c].zone == s.heap[c].zone && SameSpot(s.heap[c], t.heap[c])
  }

  lemma RemainingThen(s: State, t: State, u: State)
    requires Remaining(s, t) && Remaining(t, u)
    ensures Remaining(s, u)
  {
    forall c | c in u.heap
      ensures c in s.heap && u.heap[c].zone == s.heap[c].zone && SameSpot(s.heap[c], u.heap[c])
    {
      assert SameSpot(t.heap[c], u.heap[c]) && SameSpot(s.heap[c], t.heap[c]);
    }
  }

  /** The listed zones of p are empty, the others as before. */
  ghost predicate ZonesGone(s: State, t: State, p: int, zs: seq<ZoneName>)
  {
    && t.players == s.players && t.zones.Keys == s.zones.Keys
    && (forall q :: q in s.zones ==> t.zones[q] == if q.owner == p && q.zone in zs then [] else s.zones[q])
    && (forall c :: c in s.heap ==> (c in t.heap <==> !(OwnedBy(s, c, p) && s.heap[c].zone.value.zone in zs)))
  }

  predicate OwnerIs(heap: Heap, c: CardRef, p: int)
  {
    c in heap && heap[c].zone.Some? && heap[c].zone.value.owner == p
  }

  predicate OwnedBy(s: State, c: CardRef, p: int)
  {
    OwnerIs(s.heap, c, p)
  }

  ghost predicate AllThere(s: State, p: int, zs: seq<ZoneName>)
  {
    forall z :: z in zs ==> Place(p, z) in s.zones
  }

  /** The listed zones are deleted one after the other. */
  ghost function DiscardZones(s: State, p: int, zs: seq<ZoneName>): (t: State)
    requires Inv(s, NoCard) && Unpointed(s, p) && AllThere(s, p, zs)
    ensures Inv(t, NoCard) && ZonesGone(s, t, p, zs) && Remaining(s, t)
    decreases |zs|
  {
    hide Inv; hide DiscardZone; hide NoArrowsAt; hide Unpointed; hide Emptied; hide ZonesGone; hide Remaining;
    if zs == [] then
      NoZoneGone(s, p);
      s
    else
      UnpointedZone(s, p, zs[0], zs);
      var s1 := DiscardZone(s, Place(p, zs[0]));
      OneZoneLess(s, s1, p, zs[0]);
      StillThere(s, s1, p, zs);
      var t := DiscardZones(s1, p, zs[1..]);
      RemainingThen(s, s1, t);
      ZonesGoneStep(s, s1, t, p, zs);
      t
  }

  lemma NoZoneGone(s: State, p: int)
    ensures ZonesGone(s, s, p, []) && Remaining(s, s)
  {
  }

  lemma StillThere(s: State, t: State, p: int, zs: seq<ZoneName>)
    requires zs != [] && AllThere(s, p, zs) && Emptied(s, t, Place(p, zs[0]))
    ensures AllThere(t, p, zs[1..])
  {
    assert forall z :: z in zs[1..] ==> z in zs;
  }

  lemma ZonesGoneStep(s: State, t: State, u: State, p: int, zs: seq<ZoneName>)
    requires Inv(s, NoCard)
    requires zs != [] && Emptied(s, t, Place(p, zs[0])) && ZonesGone(t, u, p, zs[1..]) && Remaining(t, u) && Remaining(s, t)
    ensures ZonesGone(s, u, p, zs)
  {
    hide Ids; hide Forest; hide Arrows;
    assert forall z :: z in zs <==> z == zs[0] || z in zs[1..];
    forall c | c in s.heap
      ensures c in u.heap <==> !(OwnedBy(s, c, p) && s.heap[c].zone.value.zone in zs)
    {
      InItsZone(s, c, NoCard);
      assert c in t.heap <==> c !in Members(s.zones[Place(p, zs[0])]);
      assert c in s.zones[Place(p, zs[0])] <==> s.heap[c].zone == Some(Place(p, zs[0]));
    }
  }

  lemma UnpointedZone(s: State, p: int, z: ZoneName, zs: seq<ZoneName>)
    requires Unpointed(s, p) && AllThere(s, p, zs) && zs != [] && z == zs[0]
    ensures Place(p, z) in s.zones && NoArrowsAtAny(s, s.zones[Place(p, z)])
  {
    assert z in zs;
  }

  lemma OneZoneLess(s: State, t: State, p: int, z: ZoneName)
    requires Unpointed(s, p) && Emptied(s, t, Place(p, z))
    ensures Unpointed(t, p) && Remaining(s, t)
  {
    forall y | Place(p, y) in t.zones
      ensures NoArrowsAtAny(t, t.zones[Place(p, y)])
    {
      forall c | c in t.zones[Place(p, y)]
        ensures NoArrowsAt(t, c)
      {
        assert NoArrowsAtAny(s, s.zones[Place(p, y)]);
        SameArrowsAt(s, t, c);
      }
    }
    forall c | c in t.heap
      ensures c in s.heap && t.heap[c].zone == s.heap[c].zone && SameSpot(s.heap[c], t.heap[c])
    {
      assert c !in Members(s.zones[Place(p, z)]);
      assert Stays(s.heap[c], t.heap[c]);
    }
  }

  /** The zone objects, arrows and the undo list of a player whose zones are empty. */
  function DropSeat(s: State, p: int): State
    requires p in s.players
  {
    s.(zones := map q | q in s.zones && q.owner != p :: s.zones[q],
       players := s.players[p := s.players[p].(arrows := map[], lastDraw := [])])
  }

  lemma DropSeatKeepsInv(s: State, p: int)
    requires Inv(s, NoCard) && p in s.players
    requires forall q :: q in s.zones && q.owner == p ==> s.zones[q] == []
    ensures Inv(DropSeat(s, p), NoCard)
  {
    hide Ids; hide Forest; hide Arrows; hide Placed;
    var t := DropSeat(s, p);
    DropSeatPlaced(s, p);
    NothingDangles(s, NoCard);
    DropSeatArrows(s, p);
    SurvivesKeepsInv(s, NoCard, t, NoCard);
  }

  lemma DropSeatPlaced(s: State, p: int)
    requires Placed(s, NoCard) && p in s.players
    requires forall q :: q in s.zones && q.owner == p ==> s.zones[q] == []
    ensures Placed(DropSeat(s, p), NoCard)
  {
  }

  lemma DropSeatArrows(s: State, p: int)
    requires ArrowsAlive(s) && p in s.players
    ensures ArrowsAlive(DropSeat(s, p))
  {
    var t := DropSeat(s, p);
    forall q, i | q in t.players && i in t.players[q].arrows
      ensures EndsAlive(t, t.players[q].arrows[i])
    {
      assert EndsAlive(s, s.players[q].arrows[i]);
    }
  }

  /** p has no zone, arrow or undo list any more; everybody else's are as before. */
  ghost predicate SeatCleared(s: State, t: State, p: int)
  {
    && p in s.players
    && t.zones == (map q | q in s.zones && q.owner != p :: s.zones[q])
    && t.players == s.players[p := s.players[p].(arrows := map[], lastDraw := [])]
    && Remaining(s, t)
    && (forall c :: c in s.heap ==> (c in t.heap <==> !OwnedBy(s, c, p)))
  }

  /** clearZones. */
  ghost function ClearZones(s: State, p: int): (t: State)
    requires Inv(s, NoCard) && p in s.players && Unpointed(s, p) && AllThere(s, p, ZONE_ORDER)
    ensures Inv(t, NoCard) && SeatCleared(s, t, p)
  {
    hide Inv; hide Unpointed; hide DiscardZones; hide ZonesGone; hide Remaining; hide AllThere;
    var s1 := DiscardZones(s, p, ZONE_ORDER);
    AllZonesEmpty(s, s1, p);
    DropSeatKeepsInv(s1, p);
    DropSeatClears(s, s1, p);
    DropSeat(s1, p)
  }

  lemma AllZonesEmpty(s: State, t: State, p: int)
    requires ZonesGone(s, t, p, ZONE_ORDER) && p in s.players
    ensures p in t.players && forall q :: q in t.zones && q.owner == p ==> t.zones[q] == []
  {
    forall q | q in t.zones && q.owner == p
      ensures t.zones[q] == []
    {
      ZoneListed(q.zone);
    }
  }

  lemma ZoneListed(z: ZoneName)
    ensures z in ZONE_ORDER
  {
    assert ZONE_ORDER == [Crypt, Deck, Grave, Hand, Rfg, Sideboard, Stack, Table];
    match z
    case Crypt => assert ZONE_ORDER[0] == z;
    case Deck => assert ZONE_ORDER[1] == z;
    case Grave => assert ZONE_ORDER[2] == z;
    case Hand => assert ZONE_ORDER[3] == z;
    case Rfg => assert ZONE_ORDER[4] == z;
    case Sideboard => assert ZONE_ORDER[5] == z;
    case Stack => assert ZONE_ORDER[6] == z;
    case Table => assert ZONE_ORDER[7] == z;
  }

  lemma DropSeatClears(s: State, t: State, p: int)
    requires ZonesGone(s, t, p, ZONE_ORDER) && p in s.players && p in t.players && Remaining(s, t)
    ensures SeatCleared(s, DropSeat(t, p), p)
  {
    var u := DropSeat(t, p);
    assert u.zones == map q | q in s.zones && q.owner != p :: s.zones[q];
    forall c | c in u.heap
      ensures c in s.heap && u.heap[c].zone == s.heap[c].zone && SameSpot(s.heap[c], u.heap[c])
    {
      assert SameSpot(s.heap[c], t.heap[c]);
    }
    forall c | c in s.heap
      ensures c in u.heap <==> !OwnedBy(s, c, p)
    {
      if OwnedBy(s, c, p) {
        ZoneListed(s.heap[c].zone.value.zone);
      }
    }
  }

  // ------------------------------------------------------------------ arrows and attachments of a player who goes

  /** An arrow from or to one of p's cards, or to p. */
  predicate RelatedIn(heap: Heap, a: Arrow, p: int)
  {
    OwnerIs(heap, a.start, p) || PointsAt(heap, a.target, p)
  }

  predicate PointsAt(heap: Heap, target: ArrowTarget, p: int)
  {
    match target case OnCard(c) => OwnerIs(heap, c, p) case OnPlayer(q) => q == p
  }

  predicate Related(s: State, a: Arrow, p: int)
  {
    RelatedIn(s.heap, a, p)
  }

  /** removeArrowsRelatedToPlayer: from every player's arrows, by id. */
  function RemoveArrowsRelated(s: State, p: int): State
  {
    s.(players := map q | q in s.players ::
                    s.players[q].(arrows := map i | i in s.players[q].arrows && !Related(s, s.players[q].arrows[i], p)
                                              :: s.players[q].arrows[i]))
  }

  ghost predicate NoneRelated(s: State, p: int)
  {
    forall q, i :: q in s.players && i in s.players[q].arrows ==> !Related(s, s.players[q].arrows[i], p)
  }

  lemma RemoveArrowsRelatedKeepsInv(s: State, p: int)
    requires Inv(s, NoCard)
    ensures Inv(RemoveArrowsRelated(s, p), NoCard) && NoneRelated(RemoveArrowsRelated(s, p), p)
  {
    hide Placed; hide Ids; hide Forest; hide Arrows;
    var t := RemoveArrowsRelated(s, p);
    FewerArrowsPlaced(s, t, NoCard);
    NothingDangles(s, NoCard);
    FewerArrowsAlive(s, t);
    SurvivesKeepsInv(s, NoCard, t, NoCard);
  }

  lemma NoneRelatedUnpointed(s: State, p: int)
    requires Inv(s, NoCard) && NoneRelated(s, p)
    ensures Unpointed(s, p)
  {
    hide Ids; hide Forest; hide Arrows;
    forall z | Place(p, z) in s.zones
      ensures NoArrowsAtAny(s, s.zones[Place(p, z)])
    {
      forall c | c in s.zones[Place(p, z)]
        ensures NoArrowsAt(s, c)
      {
        assert OwnedBy(s, c, p);
      }
    }
  }

  /** The cards of a list that lie on somebody else's table. */
  function Elsewhere(s: State, p: int, cards: seq<CardRef>): (r: seq<CardRef>)
    ensures forall k :: k in r <==> k in cards && !OwnedBy(s, k, p)
  {
    if cards == [] then []
    else (if OwnedBy(s, cards[0], p) then [] else [cards[0]]) + Elsewhere(s, p, cards[1..])
  }

  lemma {:induction false} ElsewhereDistinct(s: State, p: int, cards: seq<CardRef>)
    requires Distinct(cards)
    ensures Distinct(Elsewhere(s, p, cards))
    decreases |cards|
  {
    if cards != [] {
      ElsewhereDistinct(s, p, cards[1..]);
      assert cards[0] !in cards[1..];
    }
  }

  /** Children of the listed cards that lie on other players' tables, parent by parent. */
  function ForeignChildren(s: State, p: int, cards: seq<CardRef>): seq<CardRef>
    requires forall c :: c in cards ==> c in s.heap
  {
    if cards == [] then []
    else Elsewhere(s, p, s.heap[cards[0]].attached) + ForeignChildren(s, p, cards[1..])
  }

  predicate ForeignChild(s: State, p: int, cards: seq<CardRef>, k: CardRef)
  {
    k in s.heap && s.heap[k].parent.Some? && s.heap[k].parent.value in cards && !OwnedBy(s, k, p)
  }

  lemma ChildrenElsewhere(s: State, p: int, c: CardRef)
    requires Forest(s, NoCard) && c in s.heap
    ensures Distinct(Elsewhere(s, p, s.heap[c].attached))
    ensures forall k :: k in Elsewhere(s, p, s.heap[c].attached) <==> ForeignChild(s, p, [c], k)
  {
    ElsewhereDistinct(s, p, s.heap[c].attached);
    assert forall k :: k in s.heap[c].attached <==> k in s.heap && s.heap[k].parent == Some(c);
  }

  lemma {:induction false} ForeignChildrenFacts(s: State, p: int, cards: seq<CardRef>)
    requires Forest(s, NoCard) && Distinct(cards) && forall c :: c in cards ==> c in s.heap
    ensures forall k :: k in ForeignChildren(s, p, cards) <==> ForeignChild(s, p, cards, k)
    ensures Distinct(ForeignChildren(s, p, cards))
    decreases |cards|
  {
    hide Forest;
    if cards != [] {
      assert cards[0] in cards;
      ForeignChildrenFacts(s, p, cards[1..]);
      ChildrenElsewhere(s, p, cards[0]);
      assert cards[0] !in cards[1..];
      assert forall c :: c in cards <==> c == cards[0] || c in cards[1..];
      var here, rest := Elsewhere(s, p, s.heap[cards[0]].attached), ForeignChildren(s, p, cards[1..]);
      assert forall k :: k in here ==> ForeignChild(s, p, [cards[0]], k);
      assert forall k :: k in rest ==> ForeignChild(s, p, cards[1..], k);
      assert forall k :: k in here ==> k !in rest;
      DistinctConcat(here, rest);
    }
  }

  lemma DistinctConcat(a: seq<CardRef>, b: seq<CardRef>)
    requires Distinct(a) && Distinct(b) && forall k :: k in a ==> k !in b
    ensures Distinct(a + b)
  {
    var s := a + b;
    forall i, j | 0 <= i < j < |s|
      ensures s[i] != s[j]
    {
      if i < |a| <= j {
        assert s[i] in a && s[j] in b;
      }
    }
  }

  lemma ForeignAttached(s: State, p: int)
    requires Inv(s, NoCard) && Place(p, Table) in s.zones
    ensures ZoneKnown(s, Place(p, Table))
    ensures AllAttached(s, ForeignChildren(s, p, s.zones[Place(p, Table)]), NoCard)
  {
    hide Ids; hide Arrows; hide Placed; hide Forest;
    ZonesKnown(s, Place(p, Table), NoCard);
    ForeignChildrenFacts(s, p, s.zones[Place(p, Table)]);
  }

  /** unattachCards: other players' cards come off p's cards.  (Only cards on tables have children.) */
  ghost function UnattachForeign(s: State, p: int, grid: Grid): (t: State)
    requires Inv(s, NoCard) && Place(p, Table) in s.zones
    ensures Inv(t, NoCard) && SameSetting(s, t) && t.players == s.players
    ensures NoneRelated(s, p) ==> NoneRelated(t, p)
  {
    hide Inv; hide SameSetting; hide UnattachAll; hide Calm; hide UnlinkedAll; hide AllAttached; hide NoneRelated;
    ForeignAttached(s, p);
    var ks := ForeignChildren(s, p, s.zones[Place(p, Table)]);
    var t := UnattachAll(s, ks, grid, NoCard);
    UnlinkedAllKeys(s, t, ks);
    CalmSetting(s, t);
    RelatedStays(s, t, p);
    t
  }

  lemma RelatedStays(s: State, t: State, p: int)
    requires SameSetting(s, t) && t.players == s.players
    ensures NoneRelated(s, p) ==> NoneRelated(t, p)
  {
    if NoneRelated(s, p) {
      forall q, i | q in t.players && i in t.players[q].arrows
        ensures !Related(t, t.players[q].arrows[i], p)
      {
        assert !Related(s, s.players[q].arrows[i], p);
      }
    }
  }

  /** What a concession and a departure have in common: nothing of p's is left on any table. */
  ghost function ClearPlayer(s: State, p: int, grid: Grid): (t: State)
    requires Inv(s, NoCard) && p in s.players && AllThere(s, p, ZONE_ORDER)
    ensures Inv(t, NoCard) && Cleared(s, t, p)
  {
    hide Inv; hide SameSetting; hide NoneRelated; hide Unpointed; hide SeatCleared; hide Cleared;
    hide UnattachForeign; hide ClearZones;
    RemoveArrowsRelatedKeepsInv(s, p);
    var s1 := RemoveArrowsRelated(s, p);
    ZoneListed(Table);
    var s2 := UnattachForeign(s1, p, grid);
    NoneRelatedUnpointed(s2, p);
    SettingZones(s1, s2, p);
    var t := ClearZones(s2, p);
    ClearedAll(s, s1, s2, t, p);
    t
  }

  lemma SettingZones(s: State, t: State, p: int)
    requires SameSetting(s, t) && AllThere(s, p, ZONE_ORDER) && p in s.players
    ensures AllThere(t, p, ZONE_ORDER) && p in t.players
  {
  }

  /** p has nothing left; the others have all their zones, cards and roles, and at most fewer arrows. */
  ghost predicate Cleared(s: State, t: State, p: int)
  {
    && t.started == s.started
    && t.zones.Keys == (set q | q in s.zones && q.owner != p)
    && t.players.Keys == s.players.Keys
    && (forall q :: q in s.players ==> SameSeat(s.players[q], t.players[q]))
    && (p in s.players ==> t.players[p].arrows == map[] && t.players[p].lastDraw == [])
    && (forall q :: q in s.players && q != p ==> t.players[q].lastDraw == s.players[q].lastDraw)
    && t.heap.Keys == (set c | c in s.heap && !OwnedBy(s, c, p))
    && (forall c :: c in t.heap ==> c in s.heap && SameSpot(s.heap[c], t.heap[c]))
    && NoneRelated(t, p)
  }

  lemma ClearedAll(s: State, s1: State, s2: State, t: State, p: int)
    requires s1 == RemoveArrowsRelated(s, p) && NoneRelated(s1, p) && NoneRelated(s2, p)
    requires SameSetting(s1, s2) && s2.players == s1.players && SeatCleared(s2, t, p) && p in s.players
    ensures Cleared(s, t, p)
  {
    assert t.zones.Keys == (set q | q in s.zones && q.owner != p);
    forall q | q in s.players
      ensures SameSeat(s.players[q], t.players[q])
    {
      assert s1.players[q].arrows.Keys <= s.players[q].arrows.Keys;
    }
    forall c | c in t.heap
      ensures c in s.heap && SameSpot(s.heap[c], t.heap[c])
    {
      assert SameSpot(s2.heap[c], t.heap[c]) && SameSpot(s1.heap[c], s2.heap[c]);
    }
    assert t.heap.Keys == (set c | c in s.heap && !OwnedBy(s, c, p)) by {
      forall c | c in s.heap
        ensures c in t.heap <==> !OwnedBy(s, c, p)
      {
        assert SameSpot(s1.heap[c], s2.heap[c]);
      }
    }
    forall q, i | q in t.players && i in t.players[q].arrows
      ensures !Related(t, t.players[q].arrows[i], p)
    {
      assert i in s2.players[q].arrows && !Related(s2, s2.players[q].arrows[i], p);
    }
  }
}

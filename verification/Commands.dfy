/**
 The commands players give in a running game (common/server_player.cpp, common/server_game.cpp), and
 the invariants over every run of them.
 */
module Commands {
  import opened Wrappers
  import opened Cards
  import opened Shuffling
  import opened ZoneLists
  import opened GameState
  import opened Movement

  // ------------------------------------------------------------------ who has zones

  /** The player takes part in the running game. */
  predicate Active(s: State, p: int)
  {
    p in s.players && s.started && !s.players[p].spectator && !s.players[p].conceded
  }

  /** Active players have all their zones; everybody else has no zone, no arrow and no undo list. */
  ghost predicate Seats(s: State)
  {
    && (forall p, z :: Active(s, p) ==> Place(p, z) in s.zones)
    && (forall q :: q in s.zones ==> Active(s, q.owner))
    && (forall p :: p in s.players && !Active(s, p) ==> s.players[p].arrows == map[] && s.players[p].lastDraw == [])
  }

  /** Cards outside the tables lie face up at (0, 0). */
  ghost predicate Tidy(s: State)
  {
    forall c :: c in s.heap && s.heap[c].zone.Some? && !HasCoords(s.heap[c].zone.value.zone) ==> Plain(s.heap[c])
  }

  ghost predicate GameOk(s: State)
  {
    Inv(s, NoCard) && Seats(s) && Tidy(s)
  }

  lemma ConservedTidy(s: State, t: State, moved: set<CardRef>, start: Place, target: Place)
    requires Tidy(s) && Conserved(s, t, moved, start, target)
    ensures Tidy(t)
  {
    forall c | c in t.heap && t.heap[c].zone.Some? && !HasCoords(t.heap[c].zone.value.zone)
      ensures Plain(t.heap[c])
    {
      assert c !in moved ==> Stays(s.heap[c], t.heap[c]);
      assert c in moved && Vanishes(s, c, start, target) ==> c !in t.heap;
    }
  }

  lemma StaySeats(s: State, t: State, moved: set<CardRef>)
    requires Seats(s) && OthersStay(s, t, moved)
    ensures Seats(t)
  {
    forall p | p in t.players && !Active(t, p)
      ensures t.players[p].arrows == map[] && t.players[p].lastDraw == []
    {
      assert SameSeat(s.players[p], t.players[p]) && !Active(s, p);
      assert t.players[p].arrows.Keys == {};
    }
    assert forall p :: Active(t, p) <==> Active(s, p);
  }

  /** The checks at the head of most commands. */
  function Refusal(s: State, p: int): Option<Response>
    requires p in s.players
  {
    if s.players[p].spectator then Some(RespFunctionNotAllowed)
    else if !s.started then Some(RespGameNotStarted)
    else if s.players[p].conceded then Some(RespContextError)
    else None
  }

  lemma NotRefused(s: State, p: int)
    requires GameOk(s) && p in s.players
    ensures Refusal(s, p).None? <==> Active(s, p)
    ensures Active(s, p) ==> forall z :: Place(p, z) in s.zones
  {
    hide Inv;
  }

  // ------------------------------------------------------------------ draw and undo

  /** One round of drawCards: the top card of the deck goes to the end of the hand and onto the undo list. */
  function DrawOne(s: State, p: int): State
    requires p in s.players && Place(p, Deck) in s.zones && Place(p, Hand) in s.zones
    requires s.zones[Place(p, Deck)] != [] && s.zones[Place(p, Deck)][0] in s.heap
  {
    var deck, hand := s.zones[Place(p, Deck)], s.zones[Place(p, Hand)];
    var c := deck[0];
    State(s.started,
          s.heap[c := s.heap[c].(x := 0, y := 0, zone := Some(Place(p, Hand)))],
          s.zones[Place(p, Deck) := deck[1..]][Place(p, Hand) := hand + [c]],
          s.players[p := s.players[p].(lastDraw := s.players[p].lastDraw + [s.heap[c].id])])
  }

  /** One round of drawCryptCards: face down onto the table, without a column of its own. */
  function DrawCryptOne(s: State, p: int): State
    requires p in s.players && Place(p, Crypt) in s.zones && Place(p, Table) in s.zones
    requires s.zones[Place(p, Crypt)] != [] && s.zones[Place(p, Crypt)][0] in s.heap
  {
    var crypt, table := s.zones[Place(p, Crypt)], s.zones[Place(p, Table)];
    var c := crypt[0];
    State(s.started,
          s.heap[c := s.heap[c].(x := -1, y := 0, faceDown := true, zone := Some(Place(p, Table)))],
          s.zones[Place(p, Crypt) := crypt[1..]][Place(p, Table) := table + [c]],
          s.players[p := s.players[p].(lastDraw := s.players[p].lastDraw + [s.heap[c].id])])
  }

  /** A card taken off the top of a hidden zone: no arrow, no attachment can refer to it. */
  lemma HiddenCardIsFree(s: State, c: CardRef, from: Place)
    requires Inv(s, NoCard) && from in s.zones && c in s.zones[from] && TypeOf(from.zone) != PublicZone
    ensures c in s.heap && s.heap[c].zone == Some(from)
    ensures s.heap[c].parent.None? && s.heap[c].attached == [] && NoArrowsAt(s, c)
  {
    hide Ids;
    assert forall e :: e in s.heap[c].attached ==> e in s.heap && s.heap[e].parent == Some(c) && OnTable(s, c, NoCard);
    EmptyWithoutMembers(s.heap[c].attached);
    forall p, i | p in s.players && i in s.players[p].arrows
      ensures Untouched(s.players[p].arrows[i], c)
    {
      assert EndsOk(s, NoCard, s.players[p].arrows[i]);
    }
  }

  /** What both kinds of draws consist of: lift the top card, settle it elsewhere, remember its id. */
  function TransferTop(s: State, p: int, from: Place, to: Place, x: int, faceDown: bool): State
    requires p in s.players && from in s.zones && to in s.zones && from != to && to.owner in s.players
    requires s.zones[from] != [] && s.zones[from][0] in s.heap && s.heap[s.zones[from][0]].zone == Some(from)
  {
    var c := s.zones[from][0];
    var t := Settle(LiftCard(s, c), c, to, -1, x, 0, false, faceDown);
    WithLastDraw(t, p, t.players[p].lastDraw + [s.heap[c].id])
  }

  lemma TransferTopKeepsInv(s: State, p: int, from: Place, to: Place, x: int, faceDown: bool)
    requires Inv(s, NoCard) && p in s.players && from in s.zones && to in s.zones
    requires from != to && from.owner == to.owner && TypeOf(from.zone) != PublicZone && s.zones[from] != []
    ensures to.owner in s.players && s.zones[from][0] in s.heap && s.heap[s.zones[from][0]].zone == Some(from)
    ensures Inv(TransferTop(s, p, from, to, x, faceDown), NoCard)
  {
    hide Placed; hide Ids; hide Forest; hide Arrows;
    var c := s.zones[from][0];
    ZonesKnown(s, from, NoCard);
    ZoneOwner(s, to, NoCard);
    HiddenCardIsFree(s, c, from);
    LiftKeepsInv(s, c);
    var s1 := LiftCard(s, c);
    SettleKeepsInv(s1, c, from, to, -1, x, 0, false, faceDown);
    var t := Settle(s1, c, to, -1, x, 0, false, faceDown);
    LastDrawKeepsInv(t, p, t.players[p].lastDraw + [s.heap[c].id], NoCard);
  }

  lemma ZoneOwner(s: State, p: Place, f: Lift)
    requires Inv(s, f) && p in s.zones
    ensures p.owner in s.players
  {
    hide Ids; hide Forest; hide Arrows;
  }

  lemma DrawOneIsTransfer(s: State, p: int)
    requires Inv(s, NoCard) && p in s.players && Place(p, Deck) in s.zones && Place(p, Hand) in s.zones
    requires s.zones[Place(p, Deck)] != []
    ensures s.zones[Place(p, Deck)][0] in s.heap && s.heap[s.zones[Place(p, Deck)][0]].zone == Some(Place(p, Deck))
    ensures Inv(DrawOne(s, p), NoCard)
  {
    hide Inv; hide Settle;
    ZonesKnown(s, Place(p, Deck), NoCard);
    var deck, hand := Place(p, Deck), Place(p, Hand);
    var c := s.zones[deck][0];
    TransferTopKeepsInv(s, p, deck, hand, 0, s.heap[c].faceDown);
    TopShape(s, p, deck, hand, 0, s.heap[c].faceDown);
  }

  lemma TopShape(s: State, p: int, from: Place, to: Place, x: int, faceDown: bool)
    requires p in s.players && from in s.zones && to in s.zones && from != to && to.owner in s.players
    requires s.zones[from] != [] && s.zones[from][0] in s.heap && s.heap[s.zones[from][0]].zone == Some(from)
    ensures var c, t := s.zones[from][0], TransferTop(s, p, from, to, x, faceDown);
            && t.started == s.started
            && t.heap == s.heap[c := s.heap[c].(x := if HasCoords(to.zone) then x else 0, y := 0,
                                                faceDown := faceDown, zone := Some(to))]
            && t.zones == s.zones[from := s.zones[from][1..]][to := s.zones[to] + [c]]
            && t.players == s.players[p := s.players[p].(lastDraw := s.players[p].lastDraw + [s.heap[c].id])]
  {
    var list := s.zones[from];
    assert Without(list, list[0]) == list[1..];
  }

  lemma DrawCryptOneIsTransfer(s: State, p: int)
    requires Inv(s, NoCard) && p in s.players && Place(p, Crypt) in s.zones && Place(p, Table) in s.zones
    requires s.zones[Place(p, Crypt)] != []
    ensures s.zones[Place(p, Crypt)][0] in s.heap
    ensures Inv(DrawCryptOne(s, p), NoCard)
  {
    hide Inv; hide Settle;
    ZonesKnown(s, Place(p, Crypt), NoCard);
    TransferTopKeepsInv(s, p, Place(p, Crypt), Place(p, Table), -1, true);
    TopShape(s, p, Place(p, Crypt), Place(p, Table), -1, true);
  }

  /** Nobody's role, zones or arrows change, and no card comes or goes. */
  ghost predicate SameTablesAndSeats(s: State, t: State)
  {
    && t.started == s.started && t.zones.Keys == s.zones.Keys && t.players.Keys == s.players.Keys
    && (forall p :: p in s.players ==>
          t.players[p] == s.players[p].(lastDraw := t.players[p].lastDraw, nextCardId := t.players[p].nextCardId))
    && (forall p :: p in s.players && !Active(s, p) ==> t.players[p].lastDraw == s.players[p].lastDraw)
  }

  lemma SameSeats(s: State, t: State)
    requires Seats(s) && SameTablesAndSeats(s, t)
    ensures Seats(t)
  {
    assert forall p :: Active(t, p) <==> Active(s, p);
  }

  /** The same card objects under the same names. */
  predicate SamePopulation(s: State, t: State)
  {
    && t.heap.Keys == s.heap.Keys
    && forall c :: c in s.heap ==>
         t.heap[c].name == s.heap[c].name && t.heap[c].destroyOnZoneChange == s.heap[c].destroyOnZoneChange
  }

  /** drawCards: as many as asked for, or as many as there are. */
  ghost function DrawCards(s: State, p: int, number: int): (t: State)
    requires GameOk(s) && Active(s, p)
    ensures GameOk(t) && Active(t, p) && SamePopulation(s, t)
    decreases number
  {
    hide Inv; hide Seats; hide Tidy; hide DrawOne; hide SamePopulation;
    NotRefused(s, p);
    PopulationStays(s);
    if number <= 0 || s.zones[Place(p, Deck)] == [] then s
    else
      DrawOneIsTransfer(s, p);
      DrawOneSeats(s, p);
      var s1 := DrawOne(s, p);
      var t := DrawCards(s1, p, number - 1);
      PopulationThen(s, s1, t);
      t
  }

  lemma PopulationStays(s: State)
    ensures SamePopulation(s, s)
  {
  }

  lemma PopulationThen(s: State, t: State, u: State)
    requires SamePopulation(s, t) && SamePopulation(t, u)
    ensures SamePopulation(s, u)
  {
  }

  lemma DrawOneSeats(s: State, p: int)
    requires Seats(s) && Tidy(s) && Active(s, p)
    requires var deck := Place(p, Deck);
             && s.zones[deck] != [] && s.zones[deck][0] in s.heap && s.heap[s.zones[deck][0]].zone == Some(deck)
    ensures Tidy(DrawOne(s, p))
    ensures Seats(DrawOne(s, p)) && Active(DrawOne(s, p), p) && SamePopulation(s, DrawOne(s, p))
  {
    SameSeats(s, DrawOne(s, p));
  }

  ghost function DrawCryptCards(s: State, p: int, number: int): (t: State)
    requires GameOk(s) && Active(s, p)
    ensures GameOk(t) && Active(t, p) && SamePopulation(s, t)
    decreases number
  {
    hide Inv; hide Seats; hide Tidy; hide DrawCryptOne; hide SamePopulation;
    NotRefused(s, p);
    PopulationStays(s);
    if number <= 0 || s.zones[Place(p, Crypt)] == [] then s
    else
      DrawCryptOneIsTransfer(s, p);
      DrawCryptOneSeats(s, p);
      var s1 := DrawCryptOne(s, p);
      var t := DrawCryptCards(s1, p, number - 1);
      PopulationThen(s, s1, t);
      t
  }

  lemma DrawCryptOneSeats(s: State, p: int)
    requires Seats(s) && Tidy(s) && Active(s, p)
    requires s.zones[Place(p, Crypt)] != [] && s.zones[Place(p, Crypt)][0] in s.heap
    ensures Tidy(DrawCryptOne(s, p))
    ensures Seats(DrawCryptOne(s, p)) && Active(DrawCryptOne(s, p), p) && SamePopulation(s, DrawCryptOne(s, p))
  {
    SameSeats(s, DrawCryptOne(s, p));
  }

  // ------------------------------------------------------------------ move, undo, shuffle, mulligan

  /** moveCard between two existing zones, in a state between commands. */
  ghost function MoveBetween(
    s: State, player: int, start: Place, target: Place, reqs: seq<MoveRequest>, x: int, y: int,
    fixFreeSpaces: bool, undoing: bool, grid: Grid): (r: (State, Response))
    requires GameOk(s) && Active(s, player) && start in s.zones && target in s.zones
    ensures GameOk(r.0) && Active(r.0, player)
    ensures r.1 != RespOk ==> r.0 == s
    ensures r.1 == RespOk ==> exists moved :: Conserved(s, r.0, moved, start, target)
  {
    hide Inv; hide Seats; hide Tidy; hide MoveCards; hide Conserved;
    var r := MoveCards(s, player, start, target, reqs, x, y, fixFreeSpaces, undoing, grid);
    MovedSeats(s, r.0, r.1, player, start, target);
    r
  }

  lemma MovedSeats(s: State, t: State, response: Response, player: int, start: Place, target: Place)
    requires Seats(s) && Tidy(s) && Active(s, player)
    requires t == s || exists moved :: Conserved(s, t, moved, start, target)
    ensures Seats(t) && Tidy(t) && Active(t, player)
  {
    if t != s {
      var moved :| Conserved(s, t, moved, start, target);
      ConservedTidy(s, t, moved, start, target);
      StaySeats(s, t, moved);
      assert SameSeat(s.players[player], t.players[player]);
    }
  }

  /** cmdUndoDraw: the last id leaves the undo list, then that card goes from the hand to the top of the deck. */
  ghost function UndoDraw(s: State, p: int, grid: Grid): (r: (State, Response))
    requires GameOk(s) && Active(s, p)
    ensures GameOk(r.0) && Active(r.0, p)
  {
    hide Inv; hide Seats; hide Tidy;
    NotRefused(s, p);
    var list := s.players[p].lastDraw;
    if list == [] then (s, RespContextError)
    else
      PopKeeps(s, p, list[..|list| - 1]);
      MoveBetween(WithLastDraw(s, p, list[..|list| - 1]), p, Place(p, Hand), Place(p, Deck),
                  [MoveRequest(list[|list| - 1], None)], 0, 0, false, true, grid)
  }

  lemma PopKeeps(s: State, p: int, list: seq<int>)
    requires GameOk(s) && Active(s, p)
    ensures var t := WithLastDraw(s, p, list); GameOk(t) && Active(t, p)
    ensures Place(p, Hand) in s.zones && Place(p, Deck) in s.zones
  {
    hide Inv;
    LastDrawKeepsInv(s, p, list, NoCard);
    SameSeats(s, WithLastDraw(s, p, list));
  }

  /** A zone's cards in a new order; module Shuffling says which orders a shuffle can produce. */
  function Reorder(s: State, zone: Place, order: seq<CardRef>): State
    requires zone in s.zones
  {
    s.(zones := s.zones[zone := order])
  }

  lemma ReorderKeepsInv(s: State, zone: Place, order: seq<CardRef>)
    requires Inv(s, NoCard) && zone in s.zones && multiset(order) == multiset(s.zones[zone])
    ensures Inv(Reorder(s, zone, order), NoCard)
  {
    hide Ids; hide Forest; hide Arrows;
    var t := Reorder(s, zone, order);
    assert forall c :: c in order <==> c in multiset(order);
    assert forall c :: c in s.zones[zone] <==> c in multiset(s.zones[zone]);
    DistinctByMultiset(order);
    DistinctByMultiset(s.zones[zone]);
    SameLinksKeepInv(s, NoCard, t, NoCard);
  }

  lemma ReorderKeeps(s: State, zone: Place, order: seq<CardRef>)
    requires GameOk(s) && zone in s.zones && multiset(order) == multiset(s.zones[zone])
    ensures GameOk(Reorder(s, zone, order))
    ensures forall p :: Active(s, p) ==> Active(Reorder(s, zone, order), p)
  {
    hide Inv;
    ReorderKeepsInv(s, zone, order);
    SameSeats(s, Reorder(s, zone, order));
  }

  /** The requests of a mulligan: every card of the hand by its id. */
  function WholeHand(heap: Heap, cards: seq<CardRef>): seq<MoveRequest>
    requires forall c :: c in cards ==> c in heap
  {
    seq(|cards|, i requires 0 <= i < |cards| => assert cards[i] in cards; MoveRequest(heap[cards[i]].id, None))
  }

  /** cmdMulligan: the hand goes under the deck, the deck is shuffled, `number` cards are drawn. */
  ghost function Mulligan(s: State, p: int, number: int, order: seq<CardRef>, grid: Grid): (t: State)
    requires GameOk(s) && Active(s, p)
    requires multiset(order) == multiset(HandUnderDeck(s, p, grid).zones[Place(p, Deck)])
    ensures GameOk(t) && Active(t, p)
  {
    hide Inv; hide Seats; hide Tidy; hide HandUnderDeck;
    var s1 := HandUnderDeck(s, p, grid);
    ReorderKeeps(s1, Place(p, Deck), order);
    DrawCards(Reorder(s1, Place(p, Deck), order), p, number)
  }

  ghost function HandUnderDeck(s: State, p: int, grid: Grid): (t: State)
    requires GameOk(s) && Active(s, p)
    ensures GameOk(t) && Active(t, p) && Place(p, Deck) in t.zones
  {
    hide Inv; hide Seats; hide Tidy;
    NotRefused(s, p);
    ZonesKnown(s, Place(p, Hand), NoCard);
    var t := if s.zones[Place(p, Hand)] == [] then s
             else MoveBetween(s, p, Place(p, Hand), Place(p, Deck), WholeHand(s.heap, s.zones[Place(p, Hand)]),
                              -1, 0, false, false, grid).0;
    NotRefused(t, p);
    t
  }

  /** Who may move a card between which players' zones (cmdMoveCard). */
  function MoveRefusal(s: State, p: int, start: Place, target: Place, writePermission: bool): Option<Response>
    requires p in s.players
  {
    if Refusal(s, p).Some? then Refusal(s, p)
    else if start.owner !in s.players || start !in s.zones then Some(RespNameNotFound)
    else if start.owner != p && !writePermission && !s.players[p].judge then Some(RespContextError)
    else if target.owner !in s.players || target !in s.zones then Some(RespNameNotFound)
    else if start.owner != p && target.owner != p && !s.players[p].judge then Some(RespContextError)
    else None
  }
}

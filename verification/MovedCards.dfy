/** Face, id and fate of every card that a move command moves, told by its request and by the heap before and after; and undoing. */
module MovedCards {
  import opened Wrappers
  import Collections
  import opened Cards
  import opened Shuffling
  import opened ZoneLists
  import opened GameState
  import opened Movement
  import opened Commands
  import opened CardLists
  import opened UndoList

  /** The face asked for, or else the face it had; outside the tables cards lie face up. */
  ghost predicate FacedAsAsked(s: State, t: State, target: Place, c: CardRef, asked: Option<bool>)
  {
    && c in s.heap && c in t.heap
    && (target.zone == Table && asked.Some? ==> t.heap[c].faceDown == asked.value)
    && (target.zone == Table && asked.None? ==> t.heap[c].faceDown == s.heap[c].faceDown)
    && (target.zone != Table ==> !t.heap[c].faceDown)
  }

  /** A card that goes face down to another zone, or to another owner, gets an id nobody had; all others keep theirs. */
  ghost predicate NumberedAnew(s: State, t: State, start: Place, target: Place, c: CardRef)
  {
    && c in s.heap && c in t.heap && target.owner in s.players && target.owner in t.players
    && if (t.heap[c].faceDown && start != target) || start.owner != target.owner then
         s.players[target.owner].nextCardId <= t.heap[c].id < t.players[target.owner].nextCardId
       else t.heap[c].id == s.heap[c].id
  }

  /** Card counters only grow. */
  ghost predicate CountersGrow(s: State, t: State)
  {
    && t.players.Keys == s.players.Keys
    && forall p :: p in s.players ==> s.players[p].nextCardId <= t.players[p].nextCardId
  }

  // ------------------------------------------------------------------ one card

  lemma TakingKeepsCounters(s: State, player: int, start: Place, target: Place, c: CardRef, undoing: bool, grid: Grid)
    requires Inv(s, NoCard) && player in s.players && Movable(s, c, start, target)
    ensures var t := TakeAway(s, player, start, target, c, undoing, grid);
            t.players.Keys == s.players.Keys && forall p :: p in s.players ==> t.players[p].nextCardId == s.players[p].nextCardId
  {
    hide Inv; hide OthersStay; hide Calm; hide NoArrowsAt; hide Ready; hide SameCards;
    InItsZone(s, c, NoCard);
  }

  lemma BringingCounts(s: State, start: Place, target: Place, c: CardRef, index: int, y: int, faceDown: bool, column: nat)
    requires Inv(s, Lifted(c, start)) && Ready(s, start, target, c) && target in s.zones
    ensures target.owner in s.players
    ensures var t := BringIn(s, start, target, c, index, y, faceDown, column);
            && t.players.Keys == s.players.Keys
            && (forall p :: p in s.players && p != target.owner ==> t.players[p].nextCardId == s.players[p].nextCardId)
            && (c in t.heap ==>
                  && t.heap[c].faceDown == faceDown
                  && (if (faceDown && start != target) || start.owner != target.owner
                      then t.heap[c].id == s.players[target.owner].nextCardId
                           && t.players[target.owner].nextCardId == s.players[target.owner].nextCardId + 1
                      else t.heap[c].id == s.heap[c].id
                           && t.players[target.owner].nextCardId == s.players[target.owner].nextCardId))
            && (c !in t.heap ==> t.players == s.players)
  {
    hide Inv; hide OthersStay; hide NoArrowsAt; hide BroughtIn; hide InsertAt;
    TargetHasOwner(s, start, target, c);
  }

  lemma OneMovedFace(
    s: State, player: int, start: Place, target: Place, c: CardRef, index: int, y: int, asked: Option<bool>, undoing: bool,
    grid: Grid)
    requires Inv(s, NoCard) && player in s.players && Movable(s, c, start, target)
    ensures var t := MoveOne(s, player, start, target, c, index, y, asked, undoing, grid);
            && CountersGrow(s, t)
            && (c in t.heap ==> FacedAsAsked(s, t, target, c, asked) && NumberedAnew(s, t, start, target, c))
  {
    hide Inv; hide OthersStay; hide Ready; hide TakeAway; hide BringIn; hide MovedOne; hide BroughtIn;
    TakingKeepsCounters(s, player, start, target, c, undoing, grid);
    var t := TakeAway(s, player, start, target, c, undoing, grid);
    TargetStays(s, t, target, c);
    BringingCounts(t, start, target, c, index, y, FaceAfter(s, c, target, asked), grid.column(c));
  }

  // ------------------------------------------------------------------ the loop

  /** What the command does to one of the cards it moves. */
  ghost predicate RightlyMoved(s: State, t: State, start: Place, target: Place, m: Selected)
  {
    m.card in t.heap ==> FacedAsAsked(s, t, target, m.card, m.faceDown) && NumberedAnew(s, t, start, target, m.card)
  }

  lemma FirstRight(s: State, t: State, u: State, start: Place, target: Place, m: Selected, others: set<CardRef>)
    requires RightlyMoved(s, t, start, target, m) && m.card !in others && OthersStay(t, u, others) && CountersGrow(t, u)
    ensures RightlyMoved(s, u, start, target, m)
  {
  }

  lemma LaterRight(s: State, t: State, u: State, start: Place, target: Place, m: Selected, first: CardRef)
    requires RightlyMoved(t, u, start, target, m) && m.card != first && OthersStay(s, t, {first}) && CountersGrow(s, t)
    requires m.card in s.heap && target.owner in s.players
    ensures RightlyMoved(s, u, start, target, m)
  {
    assert m.card in t.heap && Stays(s.heap[m.card], t.heap[m.card]);
  }

  lemma {:induction false} LoopMovesRightly(
    s: State, player: int, start: Place, target: Place, ms: seq<Selected>, x: int, y: int, undoing: bool, grid: Grid)
    requires Inv(s, NoCard) && player in s.players && AllMovable(s, ms, start, target)
    ensures var t := MoveLoop(s, player, start, target, ms, x, y, undoing, grid);
            && CountersGrow(s, t) && (forall m :: m in ms ==> RightlyMoved(s, t, start, target, m))
    decreases |ms|
  {
    hide Inv; hide OthersStay; hide MovedOne; hide Conserved; hide MoveOne; hide CardsOf; hide RightlyMoved;
    hide FacedAsAsked; hide NumberedAnew; hide CountersGrow;
    if ms == [] {
      NothingCounts(s);
    } else {
      assert Movable(s, ms[0].card, start, target);
      var c := ms[0].card;
      OneMovedFace(s, player, start, target, c, x, y, ms[0].faceDown, undoing, grid);
      var t := MoveOne(s, player, start, target, c, x, y, ms[0].faceDown, undoing, grid);
      RestMovable(s, t, ms, start, target);
      StayPlayers(s, t, player, {c});
      var next := if Vanishes(s, c, start, target) then x else x + 1;
      LoopMovesRightly(t, player, start, target, ms[1..], next, y, undoing, grid);
      var u := MoveLoop(t, player, start, target, ms[1..], next, y, undoing, grid);
      ZoneOwned(s, target);
      AllRight(s, t, u, start, target, ms);
    }
  }

  lemma NothingCounts(s: State)
    ensures CountersGrow(s, s)
  {
  }

  lemma ZoneOwned(s: State, p: Place)
    requires Inv(s, NoCard)
    ensures p in s.zones ==> p.owner in s.players
  {
    hide Ids; hide Forest; hide Arrows;
  }

  lemma AllRight(s: State, t: State, u: State, start: Place, target: Place, ms: seq<Selected>)
    requires ms != [] && AllMovable(s, ms, start, target) && target.owner in s.players
    requires OthersStay(s, t, {ms[0].card}) && CountersGrow(s, t) && CountersGrow(t, u)
    requires ms[0].card in t.heap ==> FacedAsAsked(s, t, target, ms[0].card, ms[0].faceDown) && NumberedAnew(s, t, start, target, ms[0].card)
    requires Conserved(t, u, CardsOf(ms[1..]), start, target)
    requires forall m :: m in ms[1..] ==> RightlyMoved(t, u, start, target, m)
    ensures CountersGrow(s, u) && forall m :: m in ms ==> RightlyMoved(s, u, start, target, m)
  {
    hide OthersStay; hide FacedAsAsked; hide NumberedAnew; hide RightlyMoved;
    FirstNotLater(ms);
    FirstIsRight(s, t, start, target, ms[0]);
    assert OthersStay(t, u, CardsOf(ms[1..]));
    FirstRight(s, t, u, start, target, ms[0], CardsOf(ms[1..]));
    forall m | m in ms
      ensures RightlyMoved(s, u, start, target, m)
    {
      if m != ms[0] {
        var i :| 0 <= i < |ms| && ms[i] == m;
        assert ms[1..][i - 1] == m;
        assert Movable(s, ms[i].card, start, target);
        LaterRight(s, t, u, start, target, m, ms[0].card);
      }
    }
  }

  lemma FirstIsRight(s: State, t: State, start: Place, target: Place, m: Selected)
    requires m.card in t.heap ==> FacedAsAsked(s, t, target, m.card, m.faceDown) && NumberedAnew(s, t, start, target, m.card)
    ensures RightlyMoved(s, t, start, target, m)
  {
  }

  lemma FirstNotLater(ms: seq<Selected>)
    requires ms != [] && forall i, j :: 0 <= i < j < |ms| ==> ms[i].card != ms[j].card
    ensures ms[0].card !in CardsOf(ms[1..])
  {
    forall i | 0 <= i < |ms[1..]|
      ensures ms[1..][i].card != ms[0].card
    {
      assert ms[i + 1].card != ms[0].card;
    }
  }

  /** The cards go row by row, in a row from left to right, in a slot - as in a list - in the order of the zone. */
  lemma RowByRow(s: State, start: Place, ms: seq<Selected>)
    requires ZoneKnown(s, start) && SelectionOk(s, start, ms)
    ensures AllKnown(s, ms)
    ensures var moved := Sorted(s, ms);
            && multiset(moved) == multiset(ms)
            && forall i, j :: 0 <= i < j < |moved| ==>
                 var a, b := s.heap[moved[i].card], s.heap[moved[j].card];
                 || a.y < b.y
                 || (a.y == b.y && a.x < b.x)
                 || (a.y == b.y && a.x == b.x && moved[i].position < moved[j].position)
  {
    SelectionKnown(s, start, ms);
    var moved := Sorted(s, ms);
    Collections.SameMembers(moved, ms);
    forall i | 0 <= i < |moved|
      ensures SelectedOk(s, start, moved[i])
    {
      assert moved[i] in ms;
      var k :| 0 <= k < |ms| && ms[k] == moved[i];
      assert SelectedOk(s, start, ms[k]);
    }
    DistinctCards(ms, moved);
    forall i, j | 0 <= i < j < |moved|
      ensures moved[i].position != moved[j].position
    {
      assert SelectedOk(s, start, moved[i]) && SelectedOk(s, start, moved[j]);
      assert moved[i].card != moved[j].card;
    }
  }

  // ------------------------------------------------------------------ the whole command

  lemma CompactionKeeps(s: State, t: State, u: State, start: Place, target: Place, m: Selected)
    requires RightlyMoved(s, t, start, target, m) && Calm(t, u, {}, {}) && u.players == t.players
    ensures RightlyMoved(s, u, start, target, m)
  {
  }

  /**
   moveCard: every card that the command moves and that does not vanish lies as the first request for it
   asks, or as it lay when that asks for no face - outside the tables face up -, and has a new id exactly
   if it goes face down to another zone or to a zone of another player.
   */
  lemma MovedAsAsked(
    s: State, player: int, start: Place, target: Place, reqs: seq<MoveRequest>, x: int, y: int,
    fixFreeSpaces: bool, undoing: bool, grid: Grid, i: nat, m: Selected)
    requires Inv(s, NoCard) && player in s.players && start in s.zones && target in s.zones && ZoneKnown(s, start)
    requires Picked(s, start, target, reqs, {}, grid.columnEmpty, i, m)
    ensures var r := MoveCards(s, player, start, target, reqs, x, y, fixFreeSpaces, undoing, grid);
            r.1 == RespOk && m.card in r.0.heap ==>
              FacedAsAsked(s, r.0, target, m.card, reqs[i].faceDown) && NumberedAnew(s, r.0, start, target, m.card)
  {
    hide Inv; hide OthersStay; hide Conserved; hide MoveLoop; hide Select; hide Sorted; hide SelectionOk; hide CardsOf;
    hide FacedAsAsked; hide NumberedAnew; hide CountersGrow; hide Compact; hide Calm; hide SameTrees;
    SelectSelects(s, start, target, reqs, {}, grid.columnEmpty);
    SelectIff(s, start, target, reqs, {}, grid.columnEmpty);
    var selected := Select(s, start, target, reqs, {}, grid.columnEmpty);
    if MoveCards(s, player, start, target, reqs, x, y, fixFreeSpaces, undoing, grid).1 == RespOk {
      assert SomePicked(s, start, target, reqs, {}, grid.columnEmpty, m);
      SelectionKnown(s, start, selected.value);
      var ms := Sorted(s, selected.value);
      SelectionMovable(s, start, target, selected.value, ms);
      Collections.SameMembers(ms, selected.value);
      var xCoord := if !HasCoords(target.zone) && x <= -1 then |s.zones[target]| else x;
      LoopMovesRightly(s, player, start, target, ms, xCoord, y, undoing, grid);
      var t := MoveLoop(s, player, start, target, ms, xCoord, y, undoing, grid);
      if HasCoords(start.zone) && fixFreeSpaces {
        CompactionKeeps(s, t, Compact(t, start, grid.compactedAtEnd, NoCard), start, target, m);
      }
    }
  }

  /** A moved card vanishes exactly if it is a token and goes to a zone of another name, be it of the same player or not. */
  lemma VanishesIff(
    s: State, player: int, start: Place, target: Place, reqs: seq<MoveRequest>, x: int, y: int,
    fixFreeSpaces: bool, undoing: bool, grid: Grid, i: nat, m: Selected)
    requires Inv(s, NoCard) && player in s.players && start in s.zones && target in s.zones && ZoneKnown(s, start)
    requires Picked(s, start, target, reqs, {}, grid.columnEmpty, i, m)
    ensures var r := MoveCards(s, player, start, target, reqs, x, y, fixFreeSpaces, undoing, grid);
            r.1 == RespOk ==>
              && (m.card !in r.0.heap <==> s.heap[m.card].destroyOnZoneChange && start.zone != target.zone)
              && (m.card in r.0.heap ==> r.0.heap[m.card].zone == Some(target) && r.0.heap[m.card].name == s.heap[m.card].name)
  {
    hide Inv; hide OthersStay; hide Select; hide MoveCards;
    MoveCardsMovesSelected(s, player, start, target, reqs, x, y, fixFreeSpaces, undoing, grid);
    SelectIff(s, start, target, reqs, {}, grid.columnEmpty);
    var selected := Select(s, start, target, reqs, {}, grid.columnEmpty);
    if selected.Ok? {
      assert SomePicked(s, start, target, reqs, {}, grid.columnEmpty, m);
    }
  }

  // ------------------------------------------------------------------ undoing a draw

  /** The undo list has lost its last entry. */
  ghost predicate Popped(s: State, t: State, p: int)
  {
    p in s.players && p in t.players && s.players[p].lastDraw == t.players[p].lastDraw + [Latest(s, p)]
  }

  ghost function Latest(s: State, p: int): int
  {
    if p in s.players && s.players[p].lastDraw != [] then s.players[p].lastDraw[|s.players[p].lastDraw| - 1] else 0
  }

  /** c is in p's hand under that id. */
  ghost predicate InHand(s: State, p: int, id: int, c: CardRef)
  {
    Place(p, Hand) in s.zones && c in s.zones[Place(p, Hand)] && c in s.heap && s.heap[c].id == id
  }

  lemma OneInHand(s: State, p: int, id: int)
    requires Inv(s, NoCard)
    ensures forall c, d :: InHand(s, p, id, c) && InHand(s, p, id, d) ==> c == d
  {
    hide Forest; hide Arrows;
    forall c, d | InHand(s, p, id, c) && InHand(s, p, id, d)
      ensures c == d
    {
      ZonesKnown(s, Place(p, Hand), NoCard);
      assert c != d ==> IdsDiffer(s, NoCard, c, d);
    }
  }

  lemma InHandIsFound(s: State, p: int, id: int)
    requires Place(p, Hand) in s.zones && ZoneKnown(s, Place(p, Hand))
    ensures var found := FindCard(s.heap, s.zones[Place(p, Hand)], Hidden(Place(p, Hand)), id);
            if found.Some? then InHand(s, p, id, found.value.0) else forall c :: !InHand(s, p, id, c)
  {
  }

  /** What undoing does once the entry is gone. */
  ghost predicate Undone(s: State, r: (State, Response), p: int, c: CardRef)
    requires Place(p, Hand) in s.zones && Place(p, Deck) in s.zones && c in s.zones[Place(p, Hand)] && c in s.heap
  {
    && r.1 == RespOk && Place(p, Hand) in r.0.zones && Place(p, Deck) in r.0.zones
    && r.0.zones[Place(p, Hand)] == Without(s.zones[Place(p, Hand)], c)
    && if s.heap[c].destroyOnZoneChange then c !in r.0.heap && r.0.zones[Place(p, Deck)] == s.zones[Place(p, Deck)]
       else c in r.0.heap && !r.0.heap[c].faceDown && r.0.zones[Place(p, Deck)] == [c] + s.zones[Place(p, Deck)]
  }

  lemma HandUndone(s: State, p: int, id: int, grid: Grid)
    requires GameOk(s) && p in s.players && Place(p, Hand) in s.zones && Place(p, Deck) in s.zones
    ensures var r := MoveCards(s, p, Place(p, Hand), Place(p, Deck), [MoveRequest(id, None)], 0, 0, false, true, grid);
            && p in r.0.players && r.0.players[p].lastDraw == s.players[p].lastDraw
            && ((forall c :: !InHand(s, p, id, c)) ==> r == (s, RespNameNotFound))
            && forall c :: InHand(s, p, id, c) ==> Undone(s, r, p, c)
  {
    hide Inv; hide Seats; hide Tidy; hide OthersStay; hide Conserved; hide MoveOne; hide SelectionOk; hide CardsOf; hide MovedOne;
    hide FacedAsAsked; hide NumberedAnew; hide CountersGrow; hide Without; hide FindCard;
    var hand, deck, reqs := Place(p, Hand), Place(p, Deck), [MoveRequest(id, None)];
    ZonesKnown(s, hand, NoCard);
    InHandIsFound(s, p, id);
    var found := FindCard(s.heap, s.zones[hand], false, id);
    assert reqs[1..] == [] && Select(s, hand, deck, [], {} + {id}, grid.columnEmpty) == Ok([]);
    if found.Some? {
      var c := found.value.0;
      HiddenCardIsFree(s, c, hand);
      var m := Selected(c, found.value.1, None);
      assert [m] + [] == [m];
      assert Select(s, hand, deck, reqs, {}, grid.columnEmpty) == Ok([m]);
      assert Movable(s, c, hand, deck);
      SingleUndo(s, p, m, grid);
      var t := MoveOne(s, p, hand, deck, c, 0, 0, None, true, grid);
      assert MoveCards(s, p, hand, deck, reqs, 0, 0, false, true, grid) == (t, RespOk);
      HandCardUndone(s, p, c, grid);
      OneInHand(s, p, id);
    } else {
      assert Select(s, hand, deck, reqs, {}, grid.columnEmpty).Err?;
      MoveCardsMovesSelected(s, p, hand, deck, reqs, 0, 0, false, true, grid);
    }
  }

  lemma HandCardUndone(s: State, p: int, c: CardRef, grid: Grid)
    requires Inv(s, NoCard) && p in s.players && Movable(s, c, Place(p, Hand), Place(p, Deck)) && Place(p, Hand) in s.zones
    requires c in s.zones[Place(p, Hand)]
    ensures c in s.heap && Place(p, Deck) in s.zones
    ensures var t := MoveOne(s, p, Place(p, Hand), Place(p, Deck), c, 0, 0, None, true, grid);
            p in t.players && t.players[p].lastDraw == s.players[p].lastDraw && Undone(s, (t, RespOk), p, c)
  {
    hide Inv; hide OthersStay; hide MoveOne; hide Without; hide NumberedAnew; hide CountersGrow; hide Conserved;
    var hand, deck := Place(p, Hand), Place(p, Deck);
    var t := MoveOne(s, p, hand, deck, c, 0, 0, None, true, grid);
    MoveOneLists(s, p, hand, deck, c, 0, 0, None, true, grid);
    MoveOneList(s, p, hand, deck, c, 0, 0, None, true, grid, p);
    OneMovedFace(s, p, hand, deck, c, 0, 0, None, true, grid);
    var list := s.zones[deck];
    assert InsertAt(list, 0, c) == [c] + list by {
      assert list != [] ==> list[..0] + [c] + list[0..] == [c] + list;
    }
  }

  /**
   cmdUndoDraw in any state: with nothing to undo nothing happens; otherwise the last entry goes, and the card
   of that id, if it is in the hand still, goes from there to the top of the deck, a token into nothing.
   */
  lemma UndoAnswer(s: State, p: int, grid: Grid)
    requires GameOk(s) && Active(s, p)
    ensures Place(p, Hand) in s.zones && Place(p, Deck) in s.zones
    ensures var r := Commands.UndoDraw(s, p, grid);
            if s.players[p].lastDraw == [] then r == (s, RespContextError)
            else
              && Popped(s, r.0, p)
              && (if !exists c :: InHand(s, p, Latest(s, p), c) then
                    r.1 == RespNameNotFound && r.0 == s.(players := r.0.players)
                  else
                    forall c :: InHand(s, p, Latest(s, p), c) ==> Undone(s, r, p, c))
  {
    hide Inv; hide Seats; hide Tidy; hide MoveCards;
    NotRefused(s, p);
    var list := s.players[p].lastDraw;
    if list != [] {
      var shorter, id := list[..|list| - 1], list[|list| - 1];
      PopKeeps(s, p, shorter);
      var u := WithLastDraw(s, p, shorter);
      assert list == shorter + [id];
      NotRefused(u, p);
      HandUndone(u, p, id, grid);
      OneInHand(s, p, id);
      assert forall c :: InHand(s, p, id, c) <==> InHand(u, p, id, c);
    }
  }
}

/** Drawing and undoing draws: n draws followed by n undos restore the game exactly. */
module UndoDraw {
  import opened Wrappers
  import opened Cards
  import opened Shuffling
  import opened ZoneLists
  import opened GameState
  import opened Movement
  import opened Commands

  /** The card's id, found in the hand, names that card. */
  lemma {:induction false} FindById(heap: Heap, cards: seq<CardRef>, i: nat)
    requires (forall c :: c in cards ==> c in heap) && i < |cards|
    requires forall k :: 0 <= k < |cards| && k != i ==> heap[cards[k]].id != heap[cards[i]].id
    ensures FindCard(heap, cards, false, heap[cards[i]].id) == Some((cards[i], i))
  {
    if i > 0 {
      assert heap[cards[0]].id != heap[cards[i]].id;
      FindById(heap, cards[1..], i - 1);
    }
  }

  lemma IdsInZoneDiffer(s: State, p: Place, i: nat)
    requires Inv(s, NoCard) && p in s.zones && i < |s.zones[p]|
    ensures ZoneKnown(s, p)
    ensures forall k :: 0 <= k < |s.zones[p]| && k != i ==> s.heap[s.zones[p][k]].id != s.heap[s.zones[p][i]].id
  {
    hide Forest; hide Arrows;
    ZonesKnown(s, p, NoCard);
    var cards := s.zones[p];
    forall k | 0 <= k < |cards| && k != i
      ensures s.heap[cards[k]].id != s.heap[cards[i]].id
    {
      assert cards[k] in cards && cards[i] in cards;
      assert cards[k] != cards[i];
      assert IdsDiffer(s, NoCard, cards[k], cards[i]);
    }
  }

  /** What moving the last card of the hand back to the deck comes to. */
  function PutBack(s: State, p: int): State
    requires Place(p, Deck) in s.zones && Place(p, Hand) in s.zones
    requires s.zones[Place(p, Hand)] != [] && s.zones[Place(p, Hand)][|s.zones[Place(p, Hand)]| - 1] in s.heap
  {
    var deck, hand := s.zones[Place(p, Deck)], s.zones[Place(p, Hand)];
    var c := hand[|hand| - 1];
    State(s.started,
          s.heap[c := s.heap[c].(x := 0, y := 0, faceDown := false, zone := Some(Place(p, Deck)))],
          s.zones[Place(p, Hand) := hand[..|hand| - 1]][Place(p, Deck) := [c] + deck],
          s.players)
  }

  lemma WithoutLast(cards: seq<CardRef>)
    requires cards != [] && Distinct(cards)
    ensures Without(cards, cards[|cards| - 1]) == cards[..|cards| - 1]
  {
    var c := cards[|cards| - 1];
    assert IndexOf(cards, c) == |cards| - 1;
    assert cards[|cards|..] == [];
  }

  lemma DropNoArrows(s: State, c: CardRef)
    requires NoArrowsAt(s, c)
    ensures DropArrows(s, c) == s
  {
    var t := DropArrows(s, c);
    forall p | p in s.players
      ensures t.players[p] == s.players[p]
    {
      assert forall i :: i in s.players[p].arrows ==> Untouched(s.players[p].arrows[i], c);
      assert t.players[p].arrows == s.players[p].arrows;
    }
    assert t.players == s.players;
  }

  /** TakeAway for a card without links that is being undrawn: it is just lifted. */
  lemma TakeAwayUndrawn(s: State, p: int, c: CardRef, grid: Grid)
    requires Inv(s, NoCard) && p in s.players
    requires Movable(s, c, Place(p, Hand), Place(p, Deck))
    ensures c in s.zones[Place(p, Hand)]
    ensures TakeAway(s, p, Place(p, Hand), Place(p, Deck), c, true, grid) == LiftCard(s, c)
  {
    hide Placed; hide Ids; hide Forest; hide Arrows; hide Calm; hide OthersStay; hide UnlinkedAll;
    var hand, deck := Place(p, Hand), Place(p, Deck);
    InItsZone(s, c, NoCard);
    HiddenCardIsFree(s, c, hand);
    var s1 := LiftCard(s, c);
    assert PickUp(s, p, hand, deck, c, true) == s1;
    assert s1.heap[c].attached == [];
    LiftKeepsInv(s, c);
    assert DropChildren(s1, hand, deck, c, grid) == s1;
    assert NoArrowsAt(s1, c);
    DropNoArrows(s1, c);
  }

  lemma BringInUndrawn(s: State, p: int, c: CardRef, column: nat)
    requires var hand := Place(p, Hand);
             && Inv(s, Lifted(c, hand)) && Ready(s, hand, Place(p, Deck), c) && Place(p, Deck) in s.zones
    requires !s.heap[c].destroyOnZoneChange
    ensures var deck := Place(p, Deck);
            BringIn(s, Place(p, Hand), deck, c, 0, 0, false, column)
            == s.(heap := s.heap[c := s.heap[c].(x := 0, y := 0, faceDown := false, zone := Some(deck))],
                  zones := s.zones[deck := [c] + s.zones[deck]])
  {
    hide Placed; hide Ids; hide Forest; hide Arrows; hide Ready;
    var deck := Place(p, Deck);
    TargetHasOwner(s, Place(p, Hand), deck, c);
    assert InsertAt(s.zones[deck], 0, c) == [c] + s.zones[deck];
  }

  lemma MoveOneUndrawn(s: State, p: int, grid: Grid)
    requires GameOk(s) && Active(s, p)
    requires Place(p, Deck) in s.zones && Place(p, Hand) in s.zones && s.zones[Place(p, Hand)] != []
    requires var hand := s.zones[Place(p, Hand)];
             hand[|hand| - 1] in s.heap && !s.heap[hand[|hand| - 1]].destroyOnZoneChange
    ensures var hand := s.zones[Place(p, Hand)];
            var c := hand[|hand| - 1];
            && Movable(s, c, Place(p, Hand), Place(p, Deck))
            && MoveOne(s, p, Place(p, Hand), Place(p, Deck), c, 0, 0, None, true, grid) == PutBack(s, p)
  {
    hide Seats; hide Tidy; hide Placed; hide Ids; hide Forest; hide Arrows; hide OthersStay; hide MovedOne; hide BringIn; hide TakeAway;
    hide Ready; hide SameCards; hide BroughtIn; hide NoArrowsAt; hide Without;
    var hand, deck := Place(p, Hand), Place(p, Deck);
    var cards := s.zones[hand];
    var c := cards[|cards| - 1];
    ZonesKnown(s, hand, NoCard);
    assert c in cards;
    HiddenCardIsFree(s, c, hand);
    TakeAwayUndrawn(s, p, c, grid);
    BringInUndrawn(LiftCard(s, c), p, c, grid.column(c));
    WithoutLast(cards);
    assert FaceAfter(s, c, deck, None) == false;
  }

  /** The whole move command, for the card that is last in the hand. */
  lemma MoveCardsLast(s: State, p: int, grid: Grid)
    requires GameOk(s) && Active(s, p)
    requires Place(p, Deck) in s.zones && Place(p, Hand) in s.zones && s.zones[Place(p, Hand)] != []
    requires var hand := s.zones[Place(p, Hand)]; hand[|hand| - 1] in s.heap
    ensures var hand := s.zones[Place(p, Hand)];
            var c := hand[|hand| - 1];
            && Movable(s, c, Place(p, Hand), Place(p, Deck))
            && MoveCards(s, p, Place(p, Hand), Place(p, Deck), [MoveRequest(s.heap[c].id, None)], 0, 0, false, true, grid)
               == (MoveOne(s, p, Place(p, Hand), Place(p, Deck), c, 0, 0, None, true, grid), RespOk)
  {
    hide Seats; hide Tidy; hide Inv; hide MoveOne; hide Select; hide Sorted; hide MoveLoop; hide SelectedOk; hide CardsOf;
    hide Conserved; hide OthersStay; hide MovedOne;
    var hand, deck := Place(p, Hand), Place(p, Deck);
    var cards := s.zones[hand];
    var c := cards[|cards| - 1];
    SelectLast(s, p, grid.columnEmpty);
    var m := Selected(c, |cards| - 1, None);
    SingleSorted(s, m);
    SingleLoop(s, p, hand, deck, m, 0, 0, true, grid);
  }

  /** The checks of the move select just that card. */
  lemma SelectLast(s: State, p: int, columnEmpty: bool)
    requires Inv(s, NoCard) && Place(p, Hand) in s.zones && Place(p, Deck) in s.zones && s.zones[Place(p, Hand)] != []
    ensures ZoneKnown(s, Place(p, Hand))
    ensures var hand := s.zones[Place(p, Hand)];
            var c := hand[|hand| - 1];
            && c in s.heap && Movable(s, c, Place(p, Hand), Place(p, Deck))
            && Select(s, Place(p, Hand), Place(p, Deck), [MoveRequest(s.heap[c].id, None)], {}, columnEmpty)
               == Ok([Selected(c, |hand| - 1, None)])
  {
    hide Inv; hide NoArrowsAt; hide FindCard;
    var hand, deck := Place(p, Hand), Place(p, Deck);
    var cards := s.zones[hand];
    var c := cards[|cards| - 1];
    IdsInZoneDiffer(s, hand, |cards| - 1);
    FindById(s.heap, cards, |cards| - 1);
    assert c in cards;
    HiddenCardIsFree(s, c, hand);
    var reqs := [MoveRequest(s.heap[c].id, None)];
    assert Select(s, hand, deck, reqs[1..], {} + {reqs[0].id}, columnEmpty) == Ok([]);
    assert [Selected(c, |cards| - 1, None)] + [] == [Selected(c, |cards| - 1, None)];
  }

  lemma SingleSorted(s: State, m: Selected)
    requires m.card in s.heap
    ensures Sorted(s, [m]) == [m]
  {
    assert [m][1..] == [];
    assert Sorted(s, []) == [];
  }

  lemma SingleLoop(s: State, p: int, start: Place, target: Place, m: Selected, x: int, y: int, undoing: bool, grid: Grid)
    requires Inv(s, NoCard) && p in s.players && Movable(s, m.card, start, target)
    ensures MoveLoop(s, p, start, target, [m], x, y, undoing, grid)
            == MoveOne(s, p, start, target, m.card, x, y, m.faceDown, undoing, grid)
  {
    hide Inv; hide MoveOne; hide Conserved; hide OthersStay; hide MovedOne;
    assert [m][0] == m && [m][1..] == [];
    var t := MoveOne(s, p, start, target, m.card, x, y, m.faceDown, undoing, grid);
    StayPlayers(s, t, p, {m.card});
  }

  /** What undoing right after drawing one card comes to. */
  lemma UndoAfterDrawMoves(s: State, p: int, grid: Grid)
    requires GameOk(s) && Active(s, p) && Place(p, Deck) in s.zones && s.zones[Place(p, Deck)] != []
    ensures Place(p, Hand) in s.zones && s.zones[Place(p, Deck)][0] in s.heap
    ensures GameOk(DrawOne(s, p)) && Active(DrawOne(s, p), p)
    ensures var c := s.zones[Place(p, Deck)][0];
            var u := WithLastDraw(DrawOne(s, p), p, s.players[p].lastDraw);
            && GameOk(u) && Active(u, p)
            && u.zones[Place(p, Hand)] == s.zones[Place(p, Hand)] + [c] && Place(p, Deck) in u.zones
            && c in u.heap && u.heap[c].destroyOnZoneChange == s.heap[c].destroyOnZoneChange
            && u.heap.Keys == s.heap.Keys
            && Movable(u, c, Place(p, Hand), Place(p, Deck))
            && UndoDraw(DrawOne(s, p), p, grid)
               == (MoveOne(u, p, Place(p, Hand), Place(p, Deck), c, 0, 0, None, true, grid), RespOk)
  {
    hide Inv; hide Seats; hide MoveCards; hide MoveOne; hide Tidy;
    NotRefused(s, p);
    DrawOneIsTransfer(s, p);
    DrawOneSeats(s, p);
    var t := DrawOne(s, p);
    var list := t.players[p].lastDraw;
    var c := s.zones[Place(p, Deck)][0];
    assert list == s.players[p].lastDraw + [s.heap[c].id];
    assert list[..|list| - 1] == s.players[p].lastDraw;
    PopKeeps(t, p, list[..|list| - 1]);
    var u := WithLastDraw(t, p, list[..|list| - 1]);
    MoveCardsLast(u, p, grid);
  }

  /** Undoing right after drawing one card gives back exactly the state before, unless it was a token. */
  lemma UndoAfterDrawIff(s: State, p: int, grid: Grid)
    requires GameOk(s) && Active(s, p) && Place(p, Deck) in s.zones && s.zones[Place(p, Deck)] != []
    ensures s.zones[Place(p, Deck)][0] in s.heap && GameOk(DrawOne(s, p)) && Active(DrawOne(s, p), p)
    ensures var top := s.zones[Place(p, Deck)][0];
            if s.heap[top].destroyOnZoneChange then top !in UndoDraw(DrawOne(s, p), p, grid).0.heap
            else UndoDraw(DrawOne(s, p), p, grid) == (s, RespOk)
  {
    hide Inv; hide Seats; hide UndoDraw; hide MoveOne;
    UndoAfterDrawMoves(s, p, grid);
    NotRefused(s, p);
    ZonesKnown(s, Place(p, Deck), NoCard);
    var c := s.zones[Place(p, Deck)][0];
    var u := WithLastDraw(DrawOne(s, p), p, s.players[p].lastDraw);
    if !s.heap[c].destroyOnZoneChange {
      MoveOneUndrawn(u, p, grid);
      PutBackDrawn(s, p);
    }
  }

  lemma PutBackDrawn(s: State, p: int)
    requires p in s.players && Place(p, Deck) in s.zones && Place(p, Hand) in s.zones && s.zones[Place(p, Deck)] != []
    requires var top := s.zones[Place(p, Deck)][0];
             top in s.heap && Plain(s.heap[top]) && s.heap[top].zone == Some(Place(p, Deck))
    ensures PutBack(WithLastDraw(DrawOne(s, p), p, s.players[p].lastDraw), p) == s
  {
    var t := WithLastDraw(DrawOne(s, p), p, s.players[p].lastDraw);
    var u := PutBack(t, p);
    assert u.players == s.players;
    assert u.heap == s.heap;
    var deck, hand := s.zones[Place(p, Deck)], s.zones[Place(p, Hand)];
    assert (hand + [deck[0]])[..|hand|] == hand && [deck[0]] + deck[1..] == deck;
    assert u.zones == s.zones;
  }

  ghost function Undo(s: State, p: int, n: nat, grids: seq<Grid>): (t: State)
    requires GameOk(s) && Active(s, p) && |grids| == n
    ensures GameOk(t) && Active(t, p)
    decreases n
  {
    hide Inv; hide Seats; hide Tidy; hide UndoDraw;
    if n == 0 then s else UndoDraw(Undo(s, p, n - 1, grids[..n - 1]), p, grids[n - 1]).0
  }

  /** None of the first n cards of the deck is a token that vanishes when it changes zones. */
  ghost predicate NoTokensOnTop(s: State, p: int, n: nat)
    requires Place(p, Deck) in s.zones
  {
    forall i :: 0 <= i < n && i < |s.zones[Place(p, Deck)]| && s.zones[Place(p, Deck)][i] in s.heap
                ==> !s.heap[s.zones[Place(p, Deck)][i]].destroyOnZoneChange
  }

  lemma UndoSplit(s: State, p: int, n: nat, grids: seq<Grid>)
    requires GameOk(s) && Active(s, p) && |grids| == n + 1
    ensures Undo(s, p, n + 1, grids) == UndoDraw(Undo(s, p, n, grids[..n]), p, grids[n]).0
  {
    hide Inv; hide Seats; hide Tidy; hide UndoDraw;
  }

  /** Undoing brings no card object into being. */
  lemma UndoAddsNoCard(s: State, p: int, grid: Grid)
    requires GameOk(s) && Active(s, p)
    ensures UndoDraw(s, p, grid).0.heap.Keys <= s.heap.Keys
  {
    hide Inv; hide Seats; hide Tidy; hide MoveBetween;
    var list := s.players[p].lastDraw;
    if list != [] {
      PopKeeps(s, p, list[..|list| - 1]);
      var u := WithLastDraw(s, p, list[..|list| - 1]);
      var r := MoveBetween(u, p, Place(p, Hand), Place(p, Deck), [MoveRequest(list[|list| - 1], None)], 0, 0, false, true, grid);
      if r.1 == RespOk {
        var moved :| Conserved(u, r.0, moved, Place(p, Hand), Place(p, Deck));
      }
    }
  }

  lemma AfterDraw(s: State, p: int, n: nat)
    requires p in s.players && n > 0 && Place(p, Deck) in s.zones && Place(p, Hand) in s.zones
    requires n <= |s.zones[Place(p, Deck)]| && s.zones[Place(p, Deck)][0] in s.heap
    ensures var t := DrawOne(s, p);
            && Place(p, Deck) in t.zones && n - 1 <= |t.zones[Place(p, Deck)]| && t.heap.Keys == s.heap.Keys
            && (NoTokensOnTop(s, p, n)
                <==> NoTokensOnTop(t, p, n - 1) && !s.heap[s.zones[Place(p, Deck)][0]].destroyOnZoneChange)
  {
    var t := DrawOne(s, p);
    var deck := s.zones[Place(p, Deck)];
    assert t.zones[Place(p, Deck)] == deck[1..];
    if NoTokensOnTop(t, p, n - 1) && !s.heap[deck[0]].destroyOnZoneChange {
      forall i | 0 <= i < n && i < |deck| && deck[i] in s.heap
        ensures !s.heap[deck[i]].destroyOnZoneChange
      {
        assert i > 0 ==> deck[1..][i - 1] == deck[i];
      }
    }
    if NoTokensOnTop(s, p, n) {
      forall i | 0 <= i < n - 1 && i < |deck[1..]| && deck[1..][i] in t.heap
        ensures !t.heap[deck[1..][i]].destroyOnZoneChange
      {
        assert deck[i + 1] == deck[1..][i];
      }
    }
  }

  /**
   Draw n cards, undo n draws: deck, hand, undo list and everything else are as they were, exactly
   when no token was drawn; otherwise some card is gone for good.
   */
  lemma {:induction false} DrawThenUndoIff(s: State, p: int, n: nat, grids: seq<Grid>)
    requires GameOk(s) && Active(s, p) && |grids| == n
    requires Place(p, Deck) in s.zones && n <= |s.zones[Place(p, Deck)]|
    ensures var t := Undo(DrawCards(s, p, n), p, n, grids);
            if NoTokensOnTop(s, p, n) then t == s else t.heap.Keys < s.heap.Keys
    decreases n
  {
    hide Inv; hide Seats; hide Tidy; hide UndoDraw; hide DrawOne; hide NoTokensOnTop;
    if n == 0 {
      NoTokensOnNothing(s, p);
    } else {
      var top := s.zones[Place(p, Deck)][0];
      NotRefused(s, p);
      UndoAfterDrawIff(s, p, grids[n - 1]);
      var s1 := DrawOne(s, p);
      AfterDraw(s, p, n);
      DrawThenUndoIff(s1, p, n - 1, grids[..n - 1]);
      var t1 := Undo(DrawCards(s1, p, n - 1), p, n - 1, grids[..n - 1]);
      UndoSplit(DrawCards(s1, p, n - 1), p, n - 1, grids);
      UndoAddsNoCard(t1, p, grids[n - 1]);
      assert Undo(DrawCards(s, p, n), p, n, grids) == UndoDraw(t1, p, grids[n - 1]).0;
    }
  }

  lemma NoTokensOnNothing(s: State, p: int)
    requires Place(p, Deck) in s.zones
    ensures NoTokensOnTop(s, p, 0)
  {
  }
}

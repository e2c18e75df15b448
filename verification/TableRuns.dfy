/** Whole runs of commands on one table: the indexes agree with the cards throughout. */
module TableRuns {
  import opened Wrappers
  import opened Cards
  import opened PileRow
  import opened PileRowProofs
  import opened Compaction
  import opened RowMoves
  import opened Shuffling
  import opened ZoneLists
  import opened TableZone
  import opened TableSteps

  /**
   What a command can do to a table.  `places`, `first`: the order in which a compaction looks at the
   piles; `heap`: the cards after something happened elsewhere.
   */
  datatype TableOp =
    | Arrive(card: CardRef, x: int, y: int, faceDown: bool)
    | DrawCrypt(card: CardRef)
    | Depart(cards: seq<CardRef>, places: seq<(int, int)>)
    | Shift(card: CardRef, x: int, y: int, faceDown: bool, places: seq<(int, int)>)
    | ShiftAll(cards: seq<CardRef>, x: int, y: int, faces: seq<bool>, places: seq<(int, int)>)
    | AttachHere(card: CardRef, parent: CardRef, first: seq<(int, int)>, places: seq<(int, int)>)
    | AttachAway(card: CardRef, parent: CardRef, places: seq<(int, int)>)
    | Adopt(parent: CardRef, child: CardRef, first: seq<(int, int)>)
    | Unattach(card: CardRef, parent: CardRef, places: seq<(int, int)>)
    | Refresh(card: CardRef)
    | Others(heap: Heap)

  /** What makes sense: which cards are where, and that compactions look at the piles of all cards. */
  ghost predicate Possible(b: Board, op: TableOp)
    requires Good(b)
  {
    match op
    case Arrive(c, _, y, _) => c in b.heap && c !in b.cards && b.heap[c].parent.None?
    case DrawCrypt(c) => c in b.heap && c !in b.cards && b.heap[c].parent.None?
    case Depart(cs, places) =>
      && Distinct(cs) && (forall c :: c in cs ==> c in b.cards)
      && (DepartedGood(b, cs, places); Visits(AllTakenOff(b, cs), places))
    case Shift(c, x, y, f, places) => Shiftable(b, c) && Visits(MovedOn(b, c, x, y, f), places)
    case ShiftAll(cs, x, y, faces, places) =>
      && FromOtherRows(b, cs, y) && |faces| == |cs|
      && (ShiftedAllGood(b, cs, x, y, faces, places); Visits(AllMovedOn(b, cs, x, y, faces), places))
    case AttachHere(c, q, first, places) =>
      && c in b.cards && LinkKnown(b, c) && q in b.cards && q in b.heap && c != q && b.heap[q].parent.None?
      && (UnhookedGood(b, c); Threes(first) && AttachVisits(Unhooked(b, c), c, q, first, places))
    case AttachAway(c, q, places) =>
      && c in b.cards && LinkKnown(b, c) && q in b.heap && q !in b.cards
      && (UnhookedGood(b, c); Visits(Hung(Unhooked(b, c), c, q), places))
    case Adopt(q, k, first) =>
      && q in b.cards && q in b.heap && b.heap[q].parent.None? && Threes(first)
      && (BurdenedConsistent(b, q, k); AsideVisits(Burdened(b, q, k), q, first))
    case Unattach(k, o, places) =>
      && k in b.cards && k in b.heap && b.heap[k].x < 0 && b.heap[k].attached == []
      && o in b.heap && k != o && k in b.heap[o].attached && Threes(places)
      && (UnattachedGood(b, k, o, places);
         b.heap[k].faceDown ==> Visits(MovedOn(Freed(b, k, o), k, -1, b.heap[k].y, true), places))
    case Refresh(c) => c in b.cards && c in b.heap
    case Others(heap) => Elsewhere(b, heap)
  }

  /**
   The commands after which the table is good again: a card with attachments is not put on others, no
   card is put back into the hole it leaves in a full pile, none is attached to the card right above
   it, and one that is adopted by another table's card - see LeavesNoGap - does not lie below others.
   */
  ghost predicate Harmless(b: Board, op: TableOp)
    requires Good(b) && Possible(b, op)
  {
    match op
    case Arrive(c, x, y, f) =>
      RowKnown(b, y);
      b.heap[c].attached == [] || !JoinsOthers(b.At(y), b.heap, x, b.heap[c].name, f)
    case DrawCrypt(_) => true
    case Depart(_, _) => true
    case ShiftAll(_, _, _, _, _) => true
    case Shift(c, x, y, f, places) =>
      && ParentLandsWell(b, c, x, y, f)
      && (ShiftedGoodIff(b, c, x, y, f, places);
         !(b.heap[c].x >= 0 && b.heap[c].y == y && RefillsFullPile(b.At(y), b.heap, b.heap[c].x, x, f)))
    case AttachHere(c, q, _, _) => !MiddleToTop(b, c, q)
    case AttachAway(_, _, _) => true
    case Adopt(q, _, _) => LeavesNoGap(b, q)
    case Unattach(_, _, _) => true
    case Refresh(c) => Refreshable(b, c)
    case Others(_) => true
  }

  ghost function Step(b: Board, op: TableOp): Board
    requires Good(b) && Possible(b, op)
  {
    match op
    case Arrive(c, x, y, f) =>
      ArrivedGoodIff(b, c, x, y, f);
      Arrived(b, c, x, y, f)
    case DrawCrypt(c) => Beside(b, c)
    case Depart(cs, places) =>
      DepartedGood(b, cs, places);
      Departed(b, cs, places)
    case Shift(c, x, y, f, places) =>
      ShiftConsistent(b, c, x, y, f);
      Shifted(b, c, x, y, f, places)
    case ShiftAll(cs, x, y, faces, places) =>
      ShiftedAllGood(b, cs, x, y, faces, places);
      AllFixed(AllMovedOn(b, cs, x, y, faces), places)
    case AttachHere(c, q, first, places) =>
      UnhookedGood(b, c);
      AttachedGoodIff(Unhooked(b, c), c, q, first, places);
      AttachedHere(Unhooked(b, c), c, q, first, places)
    case AttachAway(c, q, places) =>
      UnhookedGood(b, c);
      AttachedAwayGood(Unhooked(b, c), c, q, places);
      AttachedAway(Unhooked(b, c), c, q, places)
    case Adopt(q, k, first) =>
      BurdenedConsistent(b, q, k);
      AdoptedGoodIff(b, q, k, first);
      AdoptedFrom(b, q, k, first)
    case Unattach(k, o, places) =>
      UnattachedGood(b, k, o, places);
      Unattached(b, k, o, places)
    case Refresh(c) =>
      RefreshedGoodIff(b, c);
      Refreshed(b, c)
    case Others(heap) => b.(heap := heap)
  }

  /**
   A possible step on a good table leaves it good exactly if it is harmless.  Good is more than that the
   indexes agree: parents have their piles for themselves.  A table that is not good may still agree for a
   while, until the card below such a parent leaves.
   */
  lemma StepKeepsGoodIff(b: Board, op: TableOp)
    requires Good(b) && Possible(b, op)
    ensures Good(Step(b, op)) <==> Harmless(b, op)
  {
    hide Consistent; hide AllSettled; hide AllAlone; hide Arrived; hide Departed; hide Shifted; hide AttachedHere;
    hide AttachedAway; hide AdoptedFrom; hide Beside; hide AllMovedOn; hide AllFixed; hide Unhooked; hide FromOtherRows;
    hide Unattached; hide Refreshed; hide Visits; hide FreeColumn; hide RefillsFullPile;
    hide JoinsOthers; hide ParentLandsWell;
    match op
    case Arrive(c, x, y, f) => ArrivedGoodIff(b, c, x, y, f);
    case DrawCrypt(c) => BesideGood(b, c);
    case Depart(cs, places) => DepartedGood(b, cs, places);
    case ShiftAll(cs, x, y, faces, places) => ShiftedAllGood(b, cs, x, y, faces, places);
    case Shift(c, x, y, f, places) => ShiftedGoodIff(b, c, x, y, f, places);
    case AttachHere(c, q, first, places) =>
      UnhookedGood(b, c);
      AttachedGoodIff(Unhooked(b, c), c, q, first, places);
    case AttachAway(c, q, places) =>
      UnhookedGood(b, c);
      AttachedAwayGood(Unhooked(b, c), c, q, places);
    case Adopt(q, k, first) =>
      BurdenedConsistent(b, q, k);
      AdoptedGoodIff(b, q, k, first);
    case Unattach(k, o, places) => UnattachedGood(b, k, o, places);
    case Refresh(c) => RefreshedGoodIff(b, c);
    case Others(heap) => ElsewhereGood(b, heap);
  }

  ghost predicate HarmlessRun(b: Board, ops: seq<TableOp>)
    requires Good(b)
    decreases |ops|
  {
    ops != [] ==>
      Possible(b, ops[0]) && Harmless(b, ops[0]) && (StepKeepsGoodIff(b, ops[0]); HarmlessRun(Step(b, ops[0]), ops[1..]))
  }

  ghost function Run(b: Board, ops: seq<TableOp>): Board
    requires Good(b) && HarmlessRun(b, ops)
    decreases |ops|
  {
    if ops == [] then b
    else
      StepKeepsGoodIff(b, ops[0]);
      Run(Step(b, ops[0]), ops[1..])
  }

  lemma {:induction false} RunConcat(b: Board, ops: seq<TableOp>, more: seq<TableOp>)
    requires Good(b) && HarmlessRun(b, ops) && Good(Run(b, ops)) && HarmlessRun(Run(b, ops), more)
    ensures HarmlessRun(b, ops + more) && Run(b, ops + more) == Run(Run(b, ops), more)
    decreases |ops|
  {
    hide Good; hide Possible; hide Harmless; hide Step;
    if ops == [] {
      assert ops + more == more;
    } else {
      StepKeepsGoodIff(b, ops[0]);
      assert (ops + more)[0] == ops[0] && (ops + more)[1..] == ops[1..] + more;
      RunConcat(Step(b, ops[0]), ops[1..], more);
    }
  }

  // ------------------------------------------------------------------ a card with children leaves for another zone

  /** Its children of this table come back one after the other. */
  function ComeBack(o: CardRef, ks: seq<CardRef>, visits: seq<seq<(int, int)>>): seq<TableOp>
    requires |visits| == |ks|
  {
    if ks == [] then [] else [Unattach(ks[0], o, visits[0])] + ComeBack(o, ks[1..], visits[1..])
  }

  lemma {:induction false} ChildrenComeBack(b: Board, o: CardRef, ks: seq<CardRef>, visits: seq<seq<(int, int)>>)
    requires Good(b) && ChildrenHere(b, o, ks) && |visits| == |ks| && BackVisits(b, o, ks, visits)
    ensures HarmlessRun(b, ComeBack(o, ks, visits))
    decreases |ks|
  {
    hide Good; hide ChildrenHere; hide Unattached; hide UnattachVisits; hide Possible; hide Harmless; hide Step;
    if ks != [] {
      SiblingsStay(b, o, ks, visits[0]);
      UnattachIsStep(b, o, ks[0], visits[0]);
      var op, rest := Unattach(ks[0], o, visits[0]), ComeBack(o, ks[1..], visits[1..]);
      assert ComeBack(o, ks, visits)[1..] == rest;
      ChildrenComeBack(Step(b, op), o, ks[1..], visits[1..]);
    }
  }

  lemma UnattachIsStep(b: Board, o: CardRef, k: CardRef, places: seq<(int, int)>)
    requires Good(b) && ChildHere(b, o, k) && UnattachVisits(b, k, o, places)
    ensures Threes(places) && Consistent(Freed(b, k, o))
    ensures Consistent(MovedOn(Freed(b, k, o), k, -1, b.heap[k].y, b.heap[k].faceDown))
    ensures var op := Unattach(k, o, places);
            Possible(b, op) && Harmless(b, op) && Step(b, op) == Unattached(b, k, o, places)
  {
    hide Consistent; hide AllSettled; hide AllAlone; hide MovedOn; hide AllFixed; hide Without; hide Visits; hide Unattached;
    UnattachedGood(b, k, o, places);
  }

  /**
   moveCard for a card with children that leaves the table for a zone of another name: it is lifted, its
   children of this table are unattached, and the table is compacted at the end.  The card had its pile for
   itself, so there is no gap in between; this is the run of its departure and its children's return,
   and the compaction at the end has nothing left to do.
   */
  lemma ParentDeparts(b: Board, o: CardRef, ks: seq<CardRef>, visits: seq<seq<(int, int)>>, places: seq<(int, int)>)
    requires Good(b) && o in b.cards && o in b.heap && b.heap[o].attached != [] && ChildrenHere(b, o, ks)
    requires |visits| == |ks| && Threes(places)
    ensures var t := TakenOff(b, o);
            && Good(t) && ChildrenHere(t, o, ks)
            && (BackVisits(t, o, ks, visits) ==>
                  && HarmlessRun(t, ComeBack(o, ks, visits))
                  && Good(Run(t, ComeBack(o, ks, visits)))
                  && AllFixed(Run(t, ComeBack(o, ks, visits)), places) == Run(t, ComeBack(o, ks, visits)))
    ensures Visits(TakenOff(b, o), places) ==>
              var op := Depart([o], places);
              Possible(b, op) && Step(b, op) == TakenOff(b, o)
  {
    hide Consistent; hide AllSettled; hide AllAlone; hide TakenOff; hide AllFixed; hide HarmlessRun; hide Run; hide ChildrenHere;
    hide ComeBack; hide BackVisits; hide Visits; hide IndexesAgree; hide NextColumnFree;
    ParentTakenOff(b, o, ks);
    var t := TakenOff(b, o);
    if BackVisits(t, o, ks, visits) {
      ChildrenComeBack(t, o, ks, visits);
      RunsStayGood(t, ComeBack(o, ks, visits));
      GoodNeedsNoFix(Run(t, ComeBack(o, ks, visits)), places);
    }
    if Visits(t, places) {
      DepartedGood(b, [o], places);
      OneTakenOff(b, o);
      GoodNeedsNoFix(t, places);
    }
  }

  lemma OneTakenOff(b: Board, o: CardRef)
    requires Consistent(b) && o in b.cards && o in b.heap
    ensures Distinct([o]) && (forall c :: c in [o] ==> c in b.cards) && AllTakenOff(b, [o]) == TakenOff(b, o)
  {
    assert [o][0] == o && [o][1..] == [];
  }

  lemma GoodNeedsNoFix(b: Board, places: seq<(int, int)>)
    requires Good(b) && Threes(places)
    ensures AllFixed(b, places) == b
  {
    forall y
      ensures GapFree(b.At(y))
    {
      assert Settled(b.At(y));
    }
    NothingToFix(b, places);
  }

  // ------------------------------------------------------------------ what holds over every run

  /** The index agreement, spelled out for one table. */
  ghost predicate IndexesAgree(b: Board)
  {
    && (forall c :: c in b.cards ==> AtOwnSlot(b, c))
    && (forall c, d :: c in b.cards && d in b.cards && SameSlot(b, c, d) ==> c == d)
    && (forall y :: ListingsAgree(b.At(y)) && SpaceIsFirstEmpty(b.At(y)))
  }

  ghost predicate SameSlot(b: Board, c: CardRef, d: CardRef)
  {
    c in b.heap && d in b.heap
    && b.heap[c].x >= 0 && b.heap[c].x == b.heap[d].x && b.heap[c].y == b.heap[d].y
  }

  /** A card with x >= 0 is what the grid has at its coordinates; an attached card is beside the grid. */
  ghost predicate AtOwnSlot(b: Board, c: CardRef)
  {
    c in b.heap &&
    var card := b.heap[c];
    card.x >= 0 ==>
      card.parent.None? && card.x in b.At(card.y).cells && b.At(card.y).cells[card.x] == Tile(c, card.name)
  }

  /** Every listing names the bottom card of a pile with room. */
  ghost predicate ListingsAgree(row: Row)
  {
    forall l :: l in row.piles ==>
      && l.base >= 0 && l.base % 3 == 0 && !PileFull(row.cells, l.base)
      && l.base in row.cells && row.cells[l.base].name == l.name
  }

  lemma GoodAgrees(b: Board)
    requires Good(b)
    ensures IndexesAgree(b)
  {
    forall y
      ensures ListingsAgree(b.At(y)) && SpaceIsFirstEmpty(b.At(y))
    {
      assert Settled(b.At(y));
      ListedAgree(b.At(y));
    }
    forall c | c in b.cards
      ensures AtOwnSlot(b, c)
    {
      OwnTile(b, c);
      if b.heap[c].x >= 0 {
        TileFree(b, b.heap[c].y, b.heap[c].x);
      }
    }
    forall c, d | c in b.cards && d in b.cards && SameSlot(b, c, d)
      ensures c == d
    {
      NoSharing(b, c, d);
    }
  }

  lemma TileFree(b: Board, y: int, x: int)
    requires Consistent(b) && x in b.At(y).cells
    ensures var c := b.At(y).cells[x].card; c in b.heap && b.heap[c].parent.None?
  {
    RowKnown(b, y);
  }

  lemma ListedAgree(row: Row)
    requires Settled(row)
    ensures ListingsAgree(row)
  {
    forall l | l in row.piles
      ensures l.base in row.cells
    {
      assert ListingOk(row.cells, l) && PileGapFree(row.cells, l.base);
    }
  }

  /**
   Over every harmless run the three indexes of every row agree with the cards' coordinates: no two
   cards share a slot, every card with x >= 0 is found at its own, each listing names the bottom card
   of its pile, no listed pile is full, the first empty pile is the first; so whatever column is asked
   for next, the server answers with a slot nobody uses, right on top of its pile.
   */
  lemma {:induction false} RunsStayGood(b: Board, ops: seq<TableOp>)
    requires Good(b) && HarmlessRun(b, ops)
    ensures Good(Run(b, ops)) && IndexesAgree(Run(b, ops))
    ensures var t := Run(b, ops);
            forall y, x, name, dontStack :: NextColumnFree(t, x, y, name, dontStack)
    decreases |ops|
  {
    hide Good; hide IndexesAgree; hide Possible; hide Harmless; hide Step;
    if ops == [] {
      GoodAgrees(b);
      forall y, x, name, dontStack
        ensures NextColumnFree(b, x, y, name, dontStack)
      {
        NextIsFree(b, x, y, name, dontStack);
      }
    } else {
      StepKeepsGoodIff(b, ops[0]);
      RunsStayGood(Step(b, ops[0]), ops[1..]);
    }
  }

  ghost predicate NextColumnFree(b: Board, x: int, y: int, name: string, dontStack: bool)
  {
    CardsKnown(b.At(y).cells, b.heap)
    && NextSlotOfPile(b.At(y).cells, FreeColumn(b.At(y), b.heap, x, name, dontStack))
  }

  lemma NextIsFree(b: Board, x: int, y: int, name: string, dontStack: bool)
    requires Good(b)
    ensures NextColumnFree(b, x, y, name, dontStack)
  {
    hide FreeColumn; hide Indexed; hide GapFree; hide Consistent;
    assert Settled(b.At(y));
    RowKnown(b, y);
    FreeColumnIsNextSlot(b.At(y), b.heap, x, name, dontStack);
  }

  /** A table nobody has played a card to. */
  lemma EmptyTableGood(place: Place, heap: Heap)
    ensures Good(Board(place, heap, [], Indexes(map[], map[], map[])))
  {
    var b := Board(place, heap, [], Indexes(map[], map[], map[]));
    forall y
      ensures Settled(b.At(y)) && ParentsAlone(b.At(y).cells, heap)
    {
      assert b.At(y) == EMPTY_ROW;
    }
  }
}

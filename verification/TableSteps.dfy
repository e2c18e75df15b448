/**
 What whole commands do to one table, and exactly when they leave it good: cards arriving, leaving,
 moving on the table, being attached and unattached.
 */
module TableSteps {
  import opened Wrappers
  import opened Cards
  import opened PileRow
  import opened PileRowProofs
  import opened Compaction
  import opened RowMoves
  import opened Shuffling
  import opened ZoneLists
  import opened TableZone

  // ------------------------------------------------------------------ fewer cards

  lemma FewerAlone(cells: map<int, Tile>, heap: Heap, fewer: map<int, Tile>, heap': Heap)
    requires CardsKnown(cells, heap) && ParentsAlone(cells, heap) && CardsKnown(fewer, heap')
    requires forall x :: x in fewer ==>
               x in cells && fewer[x] == cells[x] && heap'[fewer[x].card].attached == heap[fewer[x].card].attached
    ensures ParentsAlone(fewer, heap')
  {
    forall p | p >= 0 && p % 3 == 0
      ensures |PileSeq(fewer, p)| <= 1 || Unburdened(PileSeq(fewer, p), heap')
    {
      forall t | t in PileSeq(fewer, p)
        ensures t in PileSeq(cells, p) && t.card in heap' && heap'[t.card].attached == heap[t.card].attached
      {
        assert exists x :: x in fewer && fewer[x] == t && (x == p || x == p + 1 || x == p + 2);
      }
    }
  }

  lemma TakenOffLoose(b: Board, c: CardRef)
    requires Consistent(b) && AllIndexed(b) && c in b.cards && c in b.heap
    ensures Consistent(TakenOff(b, c)) && AllIndexed(TakenOff(b, c))
    ensures AllAlone(b) ==> Loose(TakenOff(b, c))
  {
    hide Consistent; hide Indexed; hide ParentsAlone; hide Remove; hide TakenOff;
    var t, card := TakenOff(b, c), b.heap[c];
    TakenOffConsistent(b, c);
    TakenOffRows(b, c);
    TakenOffShape(b, c);
    OwnTile(b, c);
    forall y
      ensures Indexed(t.At(y))
    {
      assert Indexed(b.At(y));
      if y == card.y {
        RemoveKeepsIndexed(b.At(y), card.name, card.x);
      }
    }
    if AllAlone(b) {
      forall y
        ensures ParentsAlone(t.At(y).cells, t.heap)
      {
        assert ParentsAlone(b.At(y).cells, b.heap);
        RowKnown(b, y);
        RowKnown(t, y);
        if y == card.y {
          RemoveShape(b.At(y), card.name, card.x);
        }
        FewerAlone(b.At(y).cells, b.heap, t.At(y).cells, t.heap);
      }
    }
  }

  lemma RemoveShape(row: Row, name: string, x: int)
    ensures Remove(row, name, x).cells == if x < 0 then row.cells else row.cells - {x}
  {
  }

  // ------------------------------------------------------------------ cards leave

  function AllTakenOff(b: Board, cs: seq<CardRef>): Board
    requires Consistent(b) && Distinct(cs) && forall c :: c in cs ==> c in b.cards
    decreases |cs|
  {
    if cs == [] then b
    else
      assert cs[0] in cs;
      TakenOffConsistent(b, cs[0]);
      WithoutFacts(b.cards, cs[0]);
      AllTakenOff(TakenOff(b, cs[0]), cs[1..])
  }

  lemma {:induction false} AllTakenOffLoose(b: Board, cs: seq<CardRef>)
    requires Loose(b) && Distinct(cs) && forall c :: c in cs ==> c in b.cards
    ensures Loose(AllTakenOff(b, cs))
    decreases |cs|
  {
    hide Consistent; hide AllIndexed; hide AllAlone; hide TakenOff;
    if cs != [] {
      assert cs[0] in cs;
      TakenOffConsistent(b, cs[0]);
      StillListed(b, cs);
      TakenOffLoose(b, cs[0]);
      AllTakenOffLoose(TakenOff(b, cs[0]), cs[1..]);
    }
  }

  lemma StillListed(b: Board, cs: seq<CardRef>)
    requires cs != [] && Distinct(cs) && Consistent(b) && forall c :: c in cs ==> c in b.cards
    ensures cs[0] in b.cards && cs[0] in b.heap
    ensures forall c :: c in cs[1..] ==> c in TakenOff(b, cs[0]).cards
  {
    assert cs[0] in cs && cs[0] !in cs[1..];
    WithoutFacts(b.cards, cs[0]);
  }

  /** Cards leave the table, which is compacted afterwards. */
  ghost function Departed(b: Board, cs: seq<CardRef>, places: seq<(int, int)>): Board
    requires Consistent(b) && Distinct(cs) && (forall c :: c in cs ==> c in b.cards)
    requires Consistent(AllTakenOff(b, cs)) && Threes(places)
  {
    AllFixed(AllTakenOff(b, cs), places)
  }

  lemma DepartedGood(b: Board, cs: seq<CardRef>, places: seq<(int, int)>)
    requires Good(b) && Distinct(cs) && forall c :: c in cs ==> c in b.cards
    ensures Consistent(AllTakenOff(b, cs))
    ensures Visits(AllTakenOff(b, cs), places) ==> Good(Departed(b, cs, places))
  {
    hide Consistent; hide AllTakenOff; hide AllFixed; hide AllSettled;
    GoodIsLoose(b);
    AllTakenOffLoose(b, cs);
    if Visits(AllTakenOff(b, cs), places) {
      LooseCompacts(AllTakenOff(b, cs), places);
    }
  }

  // ------------------------------------------------------------------ a card arrives in a row without gaps

  lemma ArrivedLoose(b: Board, c: CardRef, x: int, y: int, faceDown: bool)
    requires Loose(b) && GapFree(b.At(y)) && c in b.heap && c !in b.cards && b.heap[c].parent.None?
    ensures CardsKnown(b.At(y).cells, b.heap) && b.At(y).space % 3 == 0
    ensures b.heap[c].attached == [] || FreeColumn(b.At(y), b.heap, x, b.heap[c].name, faceDown) % 3 == 0 ==>
              Loose(Arrived(b, c, x, y, faceDown))
  {
    hide FreeColumn; hide Insert; hide Consistent; hide Arrived; hide Indexed; hide GapFree; hide ParentsAlone;
    hide NextSlotOfPile; hide Listable;
    RowKnown(b, y);
    SpaceAligned(b, y);
    var card := b.heap[c];
    var t, column := Tile(c, card.name), FreeColumn(b.At(y), b.heap, x, card.name, faceDown);
    assert Indexed(b.At(y)) && ParentsAlone(b.At(y).cells, b.heap);
    FreeColumnIsNextSlot(b.At(y), b.heap, x, card.name, faceDown);
    NextSlotIsSafe(b.At(y), t, column, Listable(card));
    InsertedCells(b.At(y), t, column, Listable(card));
    ArrivalKeepsAloneIff(b.At(y), b.heap, t, x, faceDown);
      JoinsOthersIff(b.At(y), b.heap, x, b.heap[c].name, faceDown);
    ArrivedConsistent(b, c, x, y, faceDown);
    ArrivedRows(b, c, x, y, faceDown);
    if card.attached == [] || column % 3 == 0 {
      OneRowMore(b, Arrived(b, c, x, y, faceDown), c, y, column);
    }
  }

  /** When one row got one card and all else is as before, the table is loose again if that row is right. */
  lemma OneRowMore(b: Board, t: Board, c: CardRef, y: int, column: int)
    requires Consistent(b) && AllIndexed(b) && AllAlone(b) && Consistent(t) && c in b.heap && c in t.heap
    requires t.heap == b.heap[c := t.heap[c]] && t.heap[c].attached == b.heap[c].attached && t.heap[c].parent == b.heap[c].parent
    requires t.At(y).cells == b.At(y).cells[column := Tile(c, b.heap[c].name)]
    requires forall z :: z != y ==> t.At(z) == b.At(z)
    requires Indexed(t.At(y)) && ParentsAlone(t.At(y).cells, b.heap)
    ensures Loose(t)
  {
    hide Consistent; hide Indexed; hide ParentsAlone;
    forall z
      ensures Indexed(t.At(z)) && ParentsAlone(t.At(z).cells, t.heap)
    {
      RowKnown(t, z);
      if z == y {
        MoreBurdens(t.At(y).cells, t.heap, b.heap, c);
      } else {
        assert Indexed(b.At(z)) && ParentsAlone(b.At(z).cells, b.heap);
        RowKnown(b, z);
        OneChangedBurdens(b.At(z).cells, b.heap, t.heap, c);
        SameBurdensAlone(b.At(z).cells, b.heap, t.heap);
      }
    }
  }

  /** A card that asks for an empty pile gets its bottom slot, gaps elsewhere or not. */
  lemma ArrivedAtEmptyPile(b: Board, c: CardRef, x: int, y: int, faceDown: bool)
    requires Loose(b) && c in b.heap && c !in b.cards && b.heap[c].parent.None?
    requires x >= 0 && x % 3 == 0 && PileEmpty(b.At(y).cells, x)
    ensures CardsKnown(b.At(y).cells, b.heap) && b.At(y).space % 3 == 0
    ensures Loose(Arrived(b, c, x, y, faceDown))
    ensures Arrived(b, c, x, y, faceDown).At(y).cells == b.At(y).cells[x := Tile(c, b.heap[c].name)]
  {
    hide Consistent; hide Arrived; hide Indexed; hide ParentsAlone; hide Listable; hide Insert; hide FreeColumn;
    RowKnown(b, y);
    SpaceAligned(b, y);
    var card := b.heap[c];
    var t := Tile(c, card.name);
    AskedEmptyPile(b.At(y), b.heap, x, card.name, faceDown);
    assert Indexed(b.At(y)) && ParentsAlone(b.At(y).cells, b.heap);
    EmptyPileIsSafe(b.At(y), t, x, Listable(card));
    InsertAligned(b.At(y), t, x, Listable(card));
    EmptyBySeq(b.At(y).cells, x);
    assert Base(x) == x;
    OneMoreStaysAlone(b.At(y).cells, b.heap, x, t);
    ArrivedConsistent(b, c, x, y, faceDown);
    ArrivedRows(b, c, x, y, faceDown);
    OneRowMore(b, Arrived(b, c, x, y, faceDown), c, y, x);
  }

  lemma AskedEmptyPile(row: Row, heap: Heap, x: int, name: string, dontStack: bool)
    requires CardsKnown(row.cells, heap) && x >= 0 && x % 3 == 0 && x !in row.cells
    ensures FreeColumn(row, heap, x, name, dontStack) == x
  {
    assert Base(x) == x;
  }

  lemma EmptyPileIsSafe(row: Row, t: Tile, x: int, listable: bool)
    requires Indexed(row) && x >= 0 && x % 3 == 0 && PileEmpty(row.cells, x)
    ensures Indexed(Insert(row, t, x, listable))
  {
    forall l | l in row.piles
      ensures l.base != x
    {
      assert ListingOk(row.cells, l);
    }
    InsertKeepsIndexedIff(row, t, x, listable);
  }

  // ------------------------------------------------------------------ moving a card on the table

  ghost predicate Shiftable(b: Board, c: CardRef)
  {
    Good(b) && c in b.cards && c in b.heap && b.heap[c].parent.None?
  }

  /** The row in question, in which the card itself counts as lifted. */
  function RowFor(b: Board, c: CardRef, y: int): Row
    requires c in b.heap
  {
    if b.heap[c].x >= 0 && b.heap[c].y == y then Discounted(b.At(y), b.heap[c].name, b.heap[c].x) else b.At(y)
  }

  /** A card with attachments is passed over or the request does not put it on other cards. */
  ghost predicate ParentLandsWell(b: Board, c: CardRef, x: int, y: int, faceDown: bool)
    requires Consistent(b) && c in b.cards && c in b.heap
  {
    RowKnown(b, y);
    b.heap[c].attached == [] || PassedOver(b.At(y).cells, b.heap[c], x)
    || !JoinsOthers(RowFor(b, c, y), b.heap, x, b.heap[c].name, faceDown)
  }

  /** The column the card gets once it is lifted off the table. */
  ghost function ColumnFor(b: Board, c: CardRef, x: int, y: int, faceDown: bool): int
    requires Consistent(b) && c in b.cards && c in b.heap
  {
    TakenOffConsistent(b, c);
    RowKnown(TakenOff(b, c), y);
    FreeColumn(TakenOff(b, c).At(y), TakenOff(b, c).heap, x, b.heap[c].name, faceDown)
  }

  /** For a card with attachments that is moved, that is to say: it gets a bottom slot. */
  lemma ParentLandsWellMeans(b: Board, c: CardRef, x: int, y: int, faceDown: bool)
    requires Shiftable(b, c) && b.heap[c].attached != [] && !PassedOver(b.At(y).cells, b.heap[c], x)
    ensures ParentLandsWell(b, c, x, y, faceDown) <==> ColumnFor(b, c, x, y, faceDown) % 3 == 0
  {
    hide Consistent; hide FreeColumn; hide TakenOff; hide Indexed; hide GapFree; hide ParentsAlone; hide Remove; hide JoinsOthers;
    hide LandsWell; hide PassedOver;
    var card := b.heap[c];
    RowKnown(b, y);
    OwnTile(b, c);
    TakenOffConsistent(b, c);
    TakenOffRows(b, c);
    TakenOffShape(b, c);
    var taken := TakenOff(b, c);
    RowKnown(taken, y);
    assert Settled(b.At(y)) && ParentsAlone(b.At(y).cells, b.heap);
    SameLooksSameColumn(b.heap, taken.heap, taken.At(y), x, card.name, faceDown);
    if card.x >= 0 && card.y == y {
      LandsWellMeans(b.At(y), b.heap, card.x, x, faceDown);
      LandsWellShape(b.At(y), b.heap, card.x, x, faceDown);
    } else {
      RemoveNothing(b.At(card.y), card.name, card.x);
      JoinsOthersIff(b.At(y), b.heap, x, card.name, faceDown);
    }
  }

  lemma LandsWellShape(row: Row, heap: Heap, from: int, x: int, faceDown: bool)
    requires CardsKnown(row.cells, heap) && from in row.cells
    ensures var t := row.cells[from];
            LandsWell(row, heap, from, x, faceDown)
            <==> heap[t.card].attached == [] || PassedOver(row.cells, heap[t.card], x)
                 || !JoinsOthers(Discounted(row, t.name, from), heap, x, t.name, faceDown)
  {
  }

  /** moveCard from the table to itself for one card; a command whose only card is passed over does nothing. */
  ghost function Shifted(b: Board, c: CardRef, x: int, y: int, faceDown: bool, places: seq<(int, int)>): Board
    requires Consistent(b) && c in b.cards && c in b.heap
    requires Consistent(MovedOn(b, c, x, y, faceDown)) && Threes(places)
  {
    if PassedOver(b.At(y).cells, b.heap[c], x) then b else AllFixed(MovedOn(b, c, x, y, faceDown), places)
  }

  lemma ShiftConsistent(b: Board, c: CardRef, x: int, y: int, faceDown: bool)
    requires Shiftable(b, c)
    ensures Consistent(MovedOn(b, c, x, y, faceDown))
  {
    hide Consistent; hide FreeColumn; hide TakenOff; hide Arrived; hide Indexed; hide AllAlone;
    if !PassedOver(b.At(y).cells, b.heap[c], x) {
      GoodIsLoose(b);
      TakenOffLoose(b, c);
      TakenOffConsistent(b, c);
      TakenOffShape(b, c);
      var t := TakenOff(b, c);
      RowKnown(t, y);
      assert Indexed(t.At(y));
      FreeColumnUnused(t.At(y), t.heap, x, b.heap[c].name, faceDown);
      ArrivedConsistent(t, c, x, y, faceDown);
    }
  }

  // ------------------------------------------------------------------ several cards moved into another row

  /** Cards of this table without attachments, on no other card, that lie in other rows or beside the grid. */
  ghost predicate FromOtherRows(b: Board, cs: seq<CardRef>, y: int)
  {
    Distinct(cs) && forall c :: c in cs ==> FromOtherRow(b, c, y)
  }

  ghost predicate FromOtherRow(b: Board, c: CardRef, y: int)
  {
    c in b.cards && c in b.heap && b.heap[c].parent.None? && b.heap[c].attached == [] && (b.heap[c].x < 0 || b.heap[c].y != y)
  }

  /** The row has no gaps when the rest of the table may have some. */
  ghost predicate LooseBut(b: Board, y: int)
  {
    Loose(b) && GapFree(b.At(y))
  }

  /** moveCard's loop for such cards: consecutive columns are asked for. */
  ghost function AllMovedOn(b: Board, cs: seq<CardRef>, x: int, y: int, faces: seq<bool>): (t: Board)
    requires LooseBut(b, y) && FromOtherRows(b, cs, y) && |faces| == |cs|
    ensures LooseBut(t, y)
    decreases |cs|
  {
    hide LooseBut; hide FromOtherRow; hide MovedOn; hide Consistent;
    if cs == [] then b
    else
      assert cs[0] in cs && FromOtherRow(b, cs[0], y);
      OneMovedAcross(b, cs, x, y, faces[0]);
      AllMovedOn(MovedOn(b, cs[0], x, y, faces[0]), cs[1..], x + 1, y, faces[1..])
  }

  lemma OneMovedAcross(b: Board, cs: seq<CardRef>, x: int, y: int, faceDown: bool)
    requires cs != [] && LooseBut(b, y) && FromOtherRows(b, cs, y)
    ensures cs[0] in b.cards && Consistent(b)
    ensures var t := MovedOn(b, cs[0], x, y, faceDown); LooseBut(t, y) && FromOtherRows(t, cs[1..], y)
  {
    hide Consistent; hide FreeColumn; hide TakenOff; hide Arrived; hide Indexed; hide GapFree; hide ParentsAlone; hide Remove;
    hide Listable; hide Insert; hide NextSlotOfPile;
    var c := cs[0];
    assert c in cs && c !in cs[1..];
    assert FromOtherRow(b, c, y);
    ListedOnce(b);
    TakenOffLoose(b, c);
    TakenOffConsistent(b, c);
    TakenOffRows(b, c);
    TakenOffShape(b, c);
    var t := TakenOff(b, c);
    RemoveNothing(b.At(b.heap[c].y), b.heap[c].name, b.heap[c].x);
    assert t.At(y) == b.At(y);
    RowKnown(t, y);
    SpaceAligned(t, y);
    ArrivedLoose(t, c, x, y, faceDown);
    ArrivedRows(t, c, x, y, faceDown);
    assert Indexed(t.At(y));
    var column := FreeColumn(t.At(y), t.heap, x, t.heap[c].name, faceDown);
    FreeColumnIsNextSlot(t.At(y), t.heap, x, t.heap[c].name, faceDown);
    NextSlotIsSafe(t.At(y), Tile(c, t.heap[c].name), column, Listable(t.heap[c]));
    var u := MovedOn(b, c, x, y, faceDown);
    MovedOnIs(b, c, x, y, faceDown);
    forall d | d in cs[1..]
      ensures FromOtherRow(u, d, y)
    {
      assert d in cs && FromOtherRow(b, d, y);
      WithoutFacts(b.cards, c);
    }
  }

  lemma ListedOnce(b: Board)
    requires Consistent(b)
    ensures Distinct(b.cards)
  {
  }

  /** Cards without attachments moved into another row by one command, with the compaction at its end, leave the table good. */
  lemma ShiftedAllGood(b: Board, cs: seq<CardRef>, x: int, y: int, faces: seq<bool>, places: seq<(int, int)>)
    requires Good(b) && FromOtherRows(b, cs, y) && |faces| == |cs|
    ensures LooseBut(b, y)
    ensures var t := AllMovedOn(b, cs, x, y, faces); Consistent(t) && (Visits(t, places) ==> Good(AllFixed(t, places)))
  {
    hide Consistent; hide AllMovedOn; hide FromOtherRows; hide Indexed; hide AllAlone;
    GoodIsLoose(b);
    assert Settled(b.At(y));
    if Visits(AllMovedOn(b, cs, x, y, faces), places) {
      LooseCompacts(AllMovedOn(b, cs, x, y, faces), places);
    }
  }

  // ------------------------------------------------------------------ one card moved

  /** Into another row, or from beside the grid: the card's old row has a gap, the new one none before it arrives. */
  lemma ShiftedAcross(b: Board, c: CardRef, x: int, y: int, faceDown: bool)
    requires Shiftable(b, c) && (b.heap[c].x < 0 || b.heap[c].y != y)
    requires !PassedOver(b.At(y).cells, b.heap[c], x) && ParentLandsWell(b, c, x, y, faceDown)
    ensures Loose(MovedOn(b, c, x, y, faceDown))
  {
    hide Consistent; hide FreeColumn; hide TakenOff; hide Arrived; hide Indexed; hide GapFree; hide ParentsAlone; hide Remove;
    GoodIsLoose(b);
    TakenOffLoose(b, c);
    TakenOffConsistent(b, c);
    TakenOffRows(b, c);
    TakenOffShape(b, c);
    var t := TakenOff(b, c);
    RemoveNothing(b.At(b.heap[c].y), b.heap[c].name, b.heap[c].x);
    assert Settled(b.At(y)) && t.At(y) == b.At(y);
    RowKnown(t, y);
    if b.heap[c].attached != [] {
      ParentLandsWellMeans(b, c, x, y, faceDown);
    }
    hide ParentLandsWell; hide JoinsOthers;
    ArrivedLoose(t, c, x, y, faceDown);
  }

  lemma RemoveNothing(row: Row, name: string, x: int)
    ensures x < 0 ==> Remove(row, name, x) == row
  {
  }

  /** Within its row the move is MoveWithin. */
  lemma ShiftedWithin(b: Board, c: CardRef, x: int, y: int, faceDown: bool)
    requires Shiftable(b, c) && b.heap[c].x >= 0 && b.heap[c].y == y && !PassedOver(b.At(y).cells, b.heap[c], x)
    ensures CardsKnown(b.At(y).cells, b.heap) && Indexed(b.At(y)) && b.heap[c].x in b.At(y).cells
    ensures b.At(y).cells[b.heap[c].x] == Tile(c, b.heap[c].name)
    ensures var t := MovedOn(b, c, x, y, faceDown);
            && t.At(y) == MoveWithin(b.At(y), b.heap, b.heap[c].x, x, faceDown)
            && (forall z :: z != y ==> t.At(z) == b.At(z))
            && c in t.heap && t.heap == b.heap[c := t.heap[c]]
            && t.heap[c].attached == b.heap[c].attached && t.heap[c].parent == b.heap[c].parent
    ensures LandsWell(b.At(y), b.heap, b.heap[c].x, x, faceDown) <==> ParentLandsWell(b, c, x, y, faceDown)
  {
    hide Consistent; hide FreeColumn; hide TakenOff; hide Arrived; hide Indexed; hide GapFree; hide ParentsAlone; hide Remove;
    hide Insert; hide Listable; hide MovedOn;
    var card := b.heap[c];
    RowKnown(b, y);
    OwnTile(b, c);
    assert Settled(b.At(y));
    TakenOffConsistent(b, c);
    TakenOffRows(b, c);
    TakenOffShape(b, c);
    var taken := TakenOff(b, c);
    RowKnown(taken, y);
    SpaceAligned(taken, y);
    RemovedKnown(b, c, y);
    SameLooksSameColumn(b.heap, taken.heap, taken.At(y), x, card.name, faceDown);
    MovedOnIs(b, c, x, y, faceDown);
    ArrivedRows(taken, c, x, y, faceDown);
    ListableShape(card);
  }

  lemma RemovedKnown(b: Board, c: CardRef, y: int)
    requires Consistent(b) && c in b.cards && c in b.heap && y == b.heap[c].y
    ensures CardsKnown(Remove(b.At(y), b.heap[c].name, b.heap[c].x).cells, b.heap)
  {
    RowKnown(b, y);
    RemoveShape(b.At(y), b.heap[c].name, b.heap[c].x);
  }

  lemma MovedOnIs(b: Board, c: CardRef, x: int, y: int, faceDown: bool)
    requires c in b.cards && c in b.heap && Consistent(b) && !PassedOver(b.At(y).cells, b.heap[c], x)
    ensures var t := TakenOff(b, c);
            && c in t.heap && CardsKnown(t.At(y).cells, t.heap) && t.At(y).space % 3 == 0
            && MovedOn(b, c, x, y, faceDown) == Arrived(t, c, x, y, faceDown)
  {
  }

  /** A card with attachments that is stacked on others: nothing repairs that. */
  lemma ShiftedOntoOthers(b: Board, c: CardRef, x: int, y: int, faceDown: bool, places: seq<(int, int)>)
    requires Shiftable(b, c) && !ParentLandsWell(b, c, x, y, faceDown)
    requires Consistent(MovedOn(b, c, x, y, faceDown)) && Threes(places)
    ensures !Good(Shifted(b, c, x, y, faceDown, places))
  {
    hide Consistent; hide FreeColumn; hide TakenOff; hide Arrived; hide Indexed; hide GapFree; hide ParentsAlone; hide Remove;
    hide AllFixed; hide MovedOn;
    ParentTakenOffGood(b, c);
    TakenOffConsistent(b, c);
    TakenOffShape(b, c);
    var taken := TakenOff(b, c);
    ArrivedGoodIff(taken, c, x, y, faceDown);
    PutOnOthers(b, c, x, y, faceDown);
    hide JoinsOthers; hide ParentLandsWell;
    MovedOnIs(b, c, x, y, faceDown);
    SettledIsLeft(Arrived(taken, c, x, y, faceDown), places);
  }

  lemma PutOnOthers(b: Board, c: CardRef, x: int, y: int, faceDown: bool)
    requires Shiftable(b, c) && !ParentLandsWell(b, c, x, y, faceDown)
    requires Good(TakenOff(b, c))
    ensures var taken := TakenOff(b, c);
            CardsKnown(taken.At(y).cells, taken.heap) && JoinsOthers(taken.At(y), taken.heap, x, b.heap[c].name, faceDown)
  {
    ParentLandsWellMeans(b, c, x, y, faceDown);
    hide Consistent; hide FreeColumn; hide TakenOff; hide Indexed; hide GapFree; hide ParentsAlone; hide Remove; hide JoinsOthers;
    hide ParentLandsWell;
    var taken := TakenOff(b, c);
    RowKnown(taken, y);
    assert Settled(taken.At(y));
    JoinsOthersIff(taken.At(y), taken.heap, x, b.heap[c].name, faceDown);
  }

  /** Lifting a card that has its pile for itself leaves no gap. */
  lemma ParentTakenOffGood(b: Board, c: CardRef)
    requires Good(b) && c in b.cards && c in b.heap && b.heap[c].attached != []
    ensures Good(TakenOff(b, c))
  {
    hide Consistent; hide Indexed; hide GapFree; hide ParentsAlone; hide TakenOff; hide Remove;
    GoodIsLoose(b);
    TakenOffLoose(b, c);
    TakenOffRows(b, c);
    OwnTile(b, c);
    var card := b.heap[c];
    RemoveNothing(b.At(card.y), card.name, card.x);
    RowKnown(b, card.y);
    assert Settled(b.At(card.y)) && ParentsAlone(b.At(card.y).cells, b.heap);
    if card.x >= 0 {
      ParentLeavesNoGap(b.At(card.y), b.heap, card.x);
    }
    forall y
      ensures Settled(TakenOff(b, c).At(y))
    {
      assert Settled(b.At(y)) && Indexed(TakenOff(b, c).At(y));
    }
  }

  /** Compaction leaves a table without gaps as it is, so shared parents stay where they are. */
  lemma SettledIsLeft(b: Board, places: seq<(int, int)>)
    requires Consistent(b) && AllSettled(b) && Threes(places)
    ensures Good(AllFixed(b, places)) ==> AllAlone(b)
  {
    hide Consistent; hide Indexed; hide GapFree; hide ParentsAlone; hide AllFixed; hide SameLooks;
    var t := AllFixed(b, places);
    AllFixedCompacts(b, places);
    if Good(t) {
      forall y
        ensures ParentsAlone(b.At(y).cells, b.heap)
      {
        assert Settled(b.At(y)) && RowCompacted(b, t, places, y) && ParentsAlone(t.At(y).cells, t.heap);
        RowKnown(b, y);
        InRowOrder(places, y);
        FixPilesIdle(b.At(y), b.heap, InRow(places, y));
        LooksAlone(b.At(y).cells, b.heap, t.heap);
      }
    }
  }

  /**
   One card moved on a good table leaves it good exactly if it is not put back, in its own row, into
   the hole of a full pile, and - when it carries attachments - is passed over or not put on others.
   */
  lemma ShiftedGoodIff(b: Board, c: CardRef, x: int, y: int, faceDown: bool, places: seq<(int, int)>)
    requires Shiftable(b, c) && Visits(MovedOn(b, c, x, y, faceDown), places)
    ensures Consistent(MovedOn(b, c, x, y, faceDown))
    ensures CardsKnown(b.At(y).cells, b.heap) && (b.heap[c].x >= 0 && b.heap[c].y == y ==> b.heap[c].x in b.At(y).cells)
    ensures Good(Shifted(b, c, x, y, faceDown, places))
            <==> && ParentLandsWell(b, c, x, y, faceDown)
                 && !(b.heap[c].x >= 0 && b.heap[c].y == y && RefillsFullPile(b.At(y), b.heap, b.heap[c].x, x, faceDown))
  {
    hide Consistent; hide FreeColumn; hide MovedOn; hide Indexed; hide GapFree; hide ParentsAlone; hide RefillsFullPile;
    hide AllFixed; hide LandsWell; hide ParentLandsWell; hide SameLooks;
    ShiftConsistent(b, c, x, y, faceDown);
    RowKnown(b, y);
    OwnTile(b, c);
    if PassedOver(b.At(y).cells, b.heap[c], x) {
      if b.heap[c].x >= 0 && b.heap[c].y == y {
        PassedOverRefillsNothing(b.At(y), b.heap, b.heap[c].x, x, faceDown);
      }
      PassedOverLandsWell(b, c, x, y, faceDown);
    } else if !ParentLandsWell(b, c, x, y, faceDown) {
      ShiftedOntoOthers(b, c, x, y, faceDown, places);
    } else if b.heap[c].x < 0 || b.heap[c].y != y {
      ShiftedAcross(b, c, x, y, faceDown);
      LooseCompacts(MovedOn(b, c, x, y, faceDown), places);
    } else {
      ShiftedWithin(b, c, x, y, faceDown);
      CompactedWithin(b, MovedOn(b, c, x, y, faceDown), c, x, y, faceDown, places);
    }
  }

  lemma PassedOverLandsWell(b: Board, c: CardRef, x: int, y: int, faceDown: bool)
    requires Shiftable(b, c) && PassedOver(b.At(y).cells, b.heap[c], x)
    ensures ParentLandsWell(b, c, x, y, faceDown)
  {
    hide Good;
  }

  lemma PassedOverRefillsNothing(row: Row, heap: Heap, from: int, x: int, faceDown: bool)
    requires CardsKnown(row.cells, heap) && from in row.cells && PassedOver(row.cells, heap[row.cells[from].card], x)
    ensures !RefillsFullPile(row, heap, from, x, faceDown)
  {
  }

  lemma CompactedWithin(b: Board, t: Board, c: CardRef, x: int, y: int, faceDown: bool, places: seq<(int, int)>)
    requires Good(b) && Consistent(t) && Visits(t, places) && c in b.heap && c in t.heap
    requires CardsKnown(b.At(y).cells, b.heap) && b.heap[c].x in b.At(y).cells && Indexed(b.At(y))
    requires LandsWell(b.At(y), b.heap, b.heap[c].x, x, faceDown)
    requires t.At(y) == MoveWithin(b.At(y), b.heap, b.heap[c].x, x, faceDown) && forall z :: z != y ==> t.At(z) == b.At(z)
    requires t.heap == b.heap[c := t.heap[c]]
    requires t.heap[c].attached == b.heap[c].attached && t.heap[c].parent == b.heap[c].parent
    ensures Good(AllFixed(t, places)) <==> !RefillsFullPile(b.At(y), b.heap, b.heap[c].x, x, faceDown)
  {
    hide Consistent; hide FreeColumn; hide Indexed; hide GapFree; hide ParentsAlone; hide RefillsFullPile;
    hide AllFixed; hide LandsWell; hide MoveWithin; hide SameLooks; hide SamePiles;
    var u := AllFixed(t, places);
    AllFixedCompacts(t, places);
    var from := b.heap[c].x;
    assert Settled(b.At(y)) && ParentsAlone(b.At(y).cells, b.heap);
    RowKnown(t, y);
    VisitsCover(t, places, y);
    MoveKeepsAlone(b.At(y), b.heap, from, x, faceDown);
    OneChangedBurdens(t.At(y).cells, b.heap, t.heap, c);
    SameBurdensAlone(t.At(y).cells, b.heap, t.heap);
    MoveWithinSettlesIff(b.At(y), b.heap, from, x, faceDown, t.heap, InRow(places, y));
    assert RowCompacted(t, u, places, y);
    if !RefillsFullPile(b.At(y), b.heap, from, x, faceDown) {
      MovedIndexedIff(b.At(y), b.heap, from, x, faceDown);
      forall z
        ensures Indexed(t.At(z)) && ParentsAlone(t.At(z).cells, t.heap)
      {
        if z != y {
          assert Settled(b.At(z)) && ParentsAlone(b.At(z).cells, b.heap);
          RowKnown(b, z);
          OneChangedBurdens(b.At(z).cells, b.heap, t.heap, c);
          SameBurdensAlone(b.At(z).cells, b.heap, t.heap);
        }
      }
      LooseCompacts(t, places);
    } else {
      assert !Settled(u.At(y));
    }
  }

  // ------------------------------------------------------------------ attaching

  /** setParentCard and updateCardCoordinates: c hangs under q, beside the grid. */
  function Hung(b: Board, c: CardRef, q: CardRef): Board
    requires c in b.heap && q in b.heap && c != q
  {
    var card := b.heap[c];
    Board(b.place, b.heap[c := card.(parent := Some(q), x := -1)][q := b.heap[q].(attached := b.heap[q].attached + [c])], b.cards,
          if card.x < 0 then b.indexes else b.indexes.With(card.y, Remove(b.At(card.y), card.name, card.x)))
  }

  /** isColumnStacked at the new parent's place. */
  predicate Stacked(b: Board, q: CardRef)
    requires q in b.heap
  {
    TruncatedBase(b.heap[q].x) + 1 in b.At(b.heap[q].y).cells
  }

  /** The new parent of a stacked pile moves to the pile that was the first empty one. */
  function SetAside(b: Board, q: CardRef): Board
    requires Consistent(b) && q in b.cards && q in b.heap
  {
    if Stacked(b, q) then MovedOn(b, q, b.At(b.heap[q].y).space, b.heap[q].y, b.heap[q].faceDown) else b
  }

  /** Compacted at once only if the new parent lies face down, its face being the flag of that move. */
  ghost function Aside(b: Board, q: CardRef, first: seq<(int, int)>): Board
    requires Consistent(b) && q in b.cards && q in b.heap && Consistent(SetAside(b, q)) && Threes(first)
  {
    if Stacked(b, q) && b.heap[q].faceDown then AllFixed(SetAside(b, q), first) else SetAside(b, q)
  }

  /** The places of that first compaction, when there is one. */
  ghost predicate AsideVisits(b: Board, q: CardRef, first: seq<(int, int)>)
    requires Consistent(b) && q in b.cards && q in b.heap
  {
    Threes(first) && (Stacked(b, q) && b.heap[q].faceDown ==> Visits(SetAside(b, q), first))
  }

  lemma HungShape(b: Board, c: CardRef, q: CardRef)
    requires c in b.heap && q in b.heap && c != q
    ensures var h, card := Hung(b, c, q), b.heap[c];
            && h.heap.Keys == b.heap.Keys && h.cards == b.cards && h.place == b.place
            && (forall d :: d in b.heap && d != c && d != q ==> h.heap[d] == b.heap[d])
            && h.heap[q] == b.heap[q].(attached := b.heap[q].attached + [c]) && h.heap[q].attached != []
            && h.heap[c] == card.(parent := Some(q), x := -1)
            && h.At(card.y) == Remove(b.At(card.y), card.name, card.x)
            && forall y :: y != card.y ==> h.At(y) == b.At(y)
  {
  }

  lemma HungConsistent(b: Board, c: CardRef, q: CardRef)
    requires Consistent(b) && c in b.cards && q in b.heap && c != q
    ensures c in b.heap && Consistent(Hung(b, c, q))
  {
    hide Hung; hide Remove; hide Distinct;
    var h, card := Hung(b, c, q), b.heap[c];
    HungShape(b, c, q);
    RemoveAligned(b.At(card.y), card.name, card.x);
    RemoveShape(b.At(card.y), card.name, card.x);
    forall y
      ensures h.At(y).cells == if y == card.y && card.x >= 0 then b.At(y).cells - {card.x} else b.At(y).cells
      ensures h.indexes.At(y).space % 3 == 0
    {
      assert b.indexes.At(y).space % 3 == 0;
    }
    HungInverse(b, h, c, q);
  }

  lemma HungInverse(b: Board, h: Board, c: CardRef, q: CardRef)
    requires Consistent(b) && c in b.cards && c in b.heap && q in b.heap && c != q && h.cards == b.cards
    requires q in h.heap && h.heap == b.heap[c := b.heap[c].(parent := Some(q), x := -1)][q := h.heap[q]]
    requires h.heap[q] == b.heap[q].(attached := h.heap[q].attached)
    requires forall y :: h.At(y).cells == if y == b.heap[c].y && b.heap[c].x >= 0 then b.At(y).cells - {b.heap[c].x} else b.At(y).cells
    ensures Inverse(h.heap, h.cards, h.indexes.coordinateMap)
  {
    hide Members; hide Aligned;
    var grid, after := b.indexes.coordinateMap, h.indexes.coordinateMap;
    assert forall y :: CellsAt(after, y) == h.At(y).cells && CellsAt(grid, y) == b.At(y).cells;
  }

  lemma HungIndexed(b: Board, c: CardRef, q: CardRef)
    requires Good(b) && c in b.cards && q in b.heap && c != q
    ensures c in b.heap && AllIndexed(Hung(b, c, q))
  {
    hide Consistent; hide Hung; hide Remove; hide Indexed; hide GapFree; hide AllAlone;
    OwnTile(b, c);
    var h, card := Hung(b, c, q), b.heap[c];
    HungShape(b, c, q);
    forall y
      ensures Indexed(h.At(y))
    {
      assert Settled(b.At(y));
      if y == card.y {
        RemoveKeepsIndexed(b.At(y), card.name, card.x);
      }
    }
  }

  /** The slots of the table without one more card, which is about to be lifted. */
  lemma WithoutParentAlone(b: Board, c: CardRef, q: CardRef)
    requires Good(b) && c in b.cards && q in b.cards && c != q
    ensures c in b.heap && q in b.heap && Consistent(Hung(b, c, q)) && Loose(TakenOff(Hung(b, c, q), q))
  {
    hide Consistent; hide Hung; hide Remove; hide Indexed; hide ParentsAlone; hide TakenOff; hide AllSettled;
    OwnTile(b, c);
    OwnTile(b, q);
    HungConsistent(b, c, q);
    HungIndexed(b, c, q);
    var h := Hung(b, c, q);
    HungShape(b, c, q);
    TakenOffLoose(h, q);
    var t := TakenOff(h, q);
    TakenOffConsistent(h, q);
    TakenOffRows(h, q);
    TakenOffShape(h, q);
    forall y
      ensures ParentsAlone(t.At(y).cells, t.heap)
    {
      assert ParentsAlone(b.At(y).cells, b.heap);
      RowKnown(b, y);
      RowKnown(t, y);
      RemoveShape(b.At(b.heap[c].y), b.heap[c].name, b.heap[c].x);
      RemoveShape(h.At(h.heap[q].y), h.heap[q].name, h.heap[q].x);
      OthersOnly(b, t, c, q, y);
      FewerAlone(b.At(y).cells, b.heap, t.At(y).cells, t.heap);
    }
  }

  lemma OthersOnly(b: Board, t: Board, c: CardRef, q: CardRef, y: int)
    requires Consistent(b) && c in b.heap && q in b.heap
    requires forall x :: x in t.At(y).cells ==> x in b.At(y).cells && t.At(y).cells[x] == b.At(y).cells[x]
    requires b.heap[c].x >= 0 && b.heap[c].y == y ==> b.heap[c].x !in t.At(y).cells
    requires b.heap[q].x >= 0 && b.heap[q].y == y ==> b.heap[q].x !in t.At(y).cells
    requires forall d :: d in b.heap && d != c && d != q ==> d in t.heap && t.heap[d].attached == b.heap[d].attached
    ensures forall x :: x in t.At(y).cells ==>
              var d := t.At(y).cells[x].card;
              d in b.heap && d in t.heap && t.heap[d].attached == b.heap[d].attached
  {
    forall x | x in t.At(y).cells
      ensures var d := t.At(y).cells[x].card;
              d in b.heap && d in t.heap && t.heap[d].attached == b.heap[d].attached
    {
      TileOwner(b, y, x);
    }
  }

  /** A stacked new parent gets the empty pile for itself; the rest of the table waits for compaction. */
  lemma SetAsideLoose(b: Board, q: CardRef)
    requires Consistent(b) && AllIndexed(b) && q in b.cards && q in b.heap && b.heap[q].parent.None?
    requires Loose(TakenOff(b, q)) && Stacked(b, q)
    ensures Loose(SetAside(b, q))
    ensures var y := b.heap[q].y;
            SetAside(b, q).At(y).cells
            == (if b.heap[q].x >= 0 then b.At(y).cells - {b.heap[q].x} else b.At(y).cells)[b.At(y).space := Tile(q, b.heap[q].name)]
    ensures forall z :: z != b.heap[q].y ==> SetAside(b, q).At(z) == b.At(z)
  {
    hide Consistent; hide TakenOff; hide Arrived; hide ParentsAlone; hide Remove; hide FreeColumn; hide Insert; hide ListingsOk;
    hide ListedByBottom;
    var card := b.heap[q];
    var y, x := card.y, b.At(card.y).space;
    assert Indexed(b.At(y));
    TakenOffConsistent(b, q);
    TakenOffRows(b, q);
    TakenOffShape(b, q);
    RemoveShape(b.At(y), card.name, card.x);
    assert PileEmpty(b.At(y).cells, x);
    assert !PassedOver(b.At(y).cells, card, x);
    MovedOnIs(b, q, x, y, card.faceDown);
    ArrivedAtEmptyPile(TakenOff(b, q), q, x, y, card.faceDown);
    ArrivedRows(TakenOff(b, q), q, x, y, card.faceDown);
  }

  /** The one attachment that leaves a pile stuck: the middle card of a pile is attached to the card above it. */
  predicate MiddleToTop(b: Board, c: CardRef, q: CardRef)
    requires c in b.heap && q in b.heap
  {
    && b.heap[c].x >= 0 && b.heap[c].x % 3 == 1
    && b.heap[q].y == b.heap[c].y && b.heap[q].x == b.heap[c].x + 1
  }

  /** The one that spills a card: the middle card of a full pile is attached to its bottom card. */
  ghost predicate MiddleToBottom(b: Board, c: CardRef, q: CardRef)
    requires c in b.heap && q in b.heap
  {
    && b.heap[c].x >= 0 && b.heap[c].x % 3 == 1
    && b.heap[q].y == b.heap[c].y && b.heap[q].x == b.heap[c].x - 1
    && b.heap[c].x + 1 in b.At(b.heap[c].y).cells
  }

  /** In all other cases a new parent that is not stacked has its pile for itself. */
  lemma UnstackedAlone(b: Board, c: CardRef, q: CardRef)
    requires Good(b) && c in b.cards && q in b.cards && c != q && c in b.heap && q in b.heap
    requires !Stacked(Hung(b, c, q), q) && !MiddleToTop(b, c, q) && !MiddleToBottom(b, c, q)
    ensures Loose(Hung(b, c, q))
  {
    hide Consistent; hide Hung; hide Remove; hide Indexed; hide ParentsAlone; hide GapFree;
    OwnTile(b, c);
    OwnTile(b, q);
    HungConsistent(b, c, q);
    HungIndexed(b, c, q);
    HungShape(b, c, q);
    var h := Hung(b, c, q);
    RemoveShape(b.At(b.heap[c].y), b.heap[c].name, b.heap[c].x);
    forall y
      ensures ParentsAlone(h.At(y).cells, h.heap)
    {
      assert Settled(b.At(y)) && ParentsAlone(b.At(y).cells, b.heap);
      RowKnown(b, y);
      RowKnown(h, y);
      if b.heap[q].x >= 0 && y == b.heap[q].y {
        NewParentAlone(b, h, c, q);
      } else {
        OthersOnly(b, h, c, q, y);
        FewerAlone(b.At(y).cells, b.heap, h.At(y).cells, h.heap);
      }
    }
  }

  lemma NewParentAlone(b: Board, h: Board, c: CardRef, q: CardRef)
    requires Good(b) && Consistent(h) && c in b.heap && q in b.heap && c in b.cards && q in b.cards && c != q
    requires h.heap.Keys == b.heap.Keys && h.heap[q].x == b.heap[q].x && h.heap[q].y == b.heap[q].y && b.heap[q].x >= 0
    requires forall d :: d in b.heap && d != c && d != q ==> h.heap[d].attached == b.heap[d].attached
    requires h.At(b.heap[q].y).cells
          == if b.heap[c].x >= 0 && b.heap[c].y == b.heap[q].y then b.At(b.heap[q].y).cells - {b.heap[c].x} else b.At(b.heap[q].y).cells
    requires !Stacked(h, q) && !MiddleToTop(b, c, q) && !MiddleToBottom(b, c, q)
    ensures ParentsAlone(h.At(b.heap[q].y).cells, h.heap)
  {
    NewParentPile(b, h, c, q);
    hide Consistent; hide Indexed; hide MiddleToTop; hide MiddleToBottom; hide Stacked;
    var y, p := b.heap[q].y, Base(b.heap[q].x);
    var after := h.At(y).cells;
    assert ParentsAlone(b.At(y).cells, b.heap);
    forall r | r >= 0 && r % 3 == 0
      ensures |PileSeq(after, r)| <= 1 || Unburdened(PileSeq(after, r), h.heap)
    {
      if r != p {
        assert p % 3 == 0 && p <= b.heap[q].x < p + 3;
        assert r + 2 < p || p + 2 < r;
        OtherPileUnburdened(b, h, c, q, r);
      }
    }
  }

  /** Nobody else is left in the new parent's pile. */
  lemma NewParentPile(b: Board, h: Board, c: CardRef, q: CardRef)
    requires Good(b) && Consistent(h) && c in b.heap && q in b.heap && c in b.cards && q in b.cards && c != q
    requires h.heap.Keys == b.heap.Keys && h.heap[q].x == b.heap[q].x && h.heap[q].y == b.heap[q].y && b.heap[q].x >= 0
    requires h.At(b.heap[q].y).cells
          == if b.heap[c].x >= 0 && b.heap[c].y == b.heap[q].y then b.At(b.heap[q].y).cells - {b.heap[c].x} else b.At(b.heap[q].y).cells
    requires !Stacked(h, q) && !MiddleToTop(b, c, q) && !MiddleToBottom(b, c, q)
    ensures |PileSeq(h.At(b.heap[q].y).cells, Base(b.heap[q].x))| <= 1
  {
    OwnTile(b, c);
    OwnTile(b, q);
    NoSharing(b, c, q);
    var y := b.heap[q].y;
    var cells, after := b.At(y).cells, h.At(y).cells;
    RowKnown(b, y);
    RowKnown(h, y);
    assert Settled(b.At(y));
    hide Consistent; hide Indexed; hide ParentsAlone;
    var p := Base(b.heap[q].x);
    assert p % 3 == 0 && p <= b.heap[q].x < p + 3;
    assert PileGapFree(cells, p);
    assert PileSeq(after, p) == [cells[b.heap[q].x]];
  }

  lemma OtherPileUnburdened(b: Board, h: Board, c: CardRef, q: CardRef, r: int)
    requires Consistent(b) && Consistent(h) && c in b.heap && q in b.heap && h.heap.Keys == b.heap.Keys && b.heap[q].x >= 0
    requires forall d :: d in b.heap && d != c && d != q ==> h.heap[d].attached == b.heap[d].attached
    requires var y := b.heap[q].y;
             && ParentsAlone(b.At(y).cells, b.heap)
             && h.At(y).cells == if b.heap[c].x >= 0 && b.heap[c].y == y then b.At(y).cells - {b.heap[c].x} else b.At(y).cells
    requires r >= 0 && r % 3 == 0 && b.heap[q].x != r && b.heap[q].x != r + 1 && b.heap[q].x != r + 2
    ensures var after := h.At(b.heap[q].y).cells; |PileSeq(after, r)| <= 1 || Unburdened(PileSeq(after, r), h.heap)
  {
    hide Consistent;
    var y := b.heap[q].y;
    var cells, after := b.At(y).cells, h.At(y).cells;
    FewerInPile(cells, after, r);
    hide PileSeq;
    if |PileSeq(after, r)| > 1 {
      forall t | t in PileSeq(after, r)
        ensures t.card in h.heap && h.heap[t.card].attached == []
      {
        var x :| r <= x < r + 3 && x in after && after[x] == t;
        OtherTile(b, c, q, y, x);
      }
    }
  }

  lemma OtherTile(b: Board, c: CardRef, q: CardRef, y: int, x: int)
    requires Consistent(b) && c in b.heap && q in b.heap && x in b.At(y).cells
    requires b.heap[c].y == y ==> b.heap[c].x != x
    requires b.heap[q].y == y ==> b.heap[q].x != x
    ensures var d := b.At(y).cells[x].card; d in b.heap && d != c && d != q
  {
    TileOwner(b, y, x);
  }

  lemma FewerInPile(cells: map<int, Tile>, fewer: map<int, Tile>, r: int)
    requires forall x :: x in fewer ==> x in cells && fewer[x] == cells[x]
    ensures |PileSeq(fewer, r)| <= |PileSeq(cells, r)|
    ensures forall t :: t in PileSeq(fewer, r) ==> t in PileSeq(cells, r) && exists x :: r <= x < r + 3 && x in fewer && fewer[x] == t
  {
    forall t | t in PileSeq(fewer, r)
      ensures t in PileSeq(cells, r) && exists x :: r <= x < r + 3 && x in fewer && fewer[x] == t
    {
      if r in fewer && fewer[r] == t {
      } else if r + 1 in fewer && fewer[r + 1] == t {
      } else {
        assert fewer[r + 2] == t;
      }
    }
  }

  /** When a pile with a gap is the only one, compaction in any order that visits it is the visit of that pile. */
  lemma {:induction false} OneGapVisited(row: Row, heap: Heap, order: seq<int>, p: int)
    requires CardsKnown(row.cells, heap) && PileOrder(order) && p >= 0 && p % 3 == 0 && p in order
    requires forall r :: r >= 0 && r % 3 == 0 && r != p ==> PileGapFree(row.cells, r)
    requires GapFree(FixPile(row, heap, p))
    ensures FixPiles(row, heap, order) == FixPile(row, heap, p)
    decreases |order|
  {
    hide FixPile; hide PileGapFree;
    FixPileKeepsKnown(row, heap, order[0]);
    if order[0] == p {
      FixPilesIdle(FixPile(row, heap, p), heap, order[1..]);
    } else {
      FixPileSlots(row, heap, order[0]);
      OneGapVisited(row, heap, order[1..], p);
    }
  }

  /** The middle card of a full pile is attached to the bottom card: compaction spills the top card. */
  lemma SpilledGood(b: Board, c: CardRef, q: CardRef, places: seq<(int, int)>)
    requires Good(b) && c in b.cards && q in b.cards && c != q && c in b.heap && q in b.heap
    requires MiddleToBottom(b, c, q) && Visits(Hung(b, c, q), places)
    ensures Consistent(Hung(b, c, q)) && Good(AllFixed(Hung(b, c, q), places))
  {
    hide Consistent; hide Hung; hide Remove; hide ParentsAlone; hide Indexed; hide GapFree; hide AllFixed; hide FixPile; hide FixPiles;
    hide SameLooks;
    OwnTile(b, c);
    OwnTile(b, q);
    HungConsistent(b, c, q);
    HungIndexed(b, c, q);
    HungShape(b, c, q);
    var h, y, p := Hung(b, c, q), b.heap[q].y, b.heap[q].x;
    var t := AllFixed(h, places);
    AllFixedCompacts(h, places);
    SpilledRow(b, h, c, q, InRow(places, y), places);
    var mid := FixPiles(h.At(y), h.heap, InRow(places, y));
    assert RowCompacted(h, t, places, y);
    forall z
      ensures Settled(t.At(z)) && ParentsAlone(t.At(z).cells, t.heap)
    {
      RowKnown(t, z);
      if z == y {
        RowKnown(h, y);
        FixPilesKnown(h.At(y), h.heap, InRow(places, y));
        LooksAlone(mid.cells, h.heap, t.heap);
      } else {
        assert Settled(b.At(z)) && ParentsAlone(b.At(z).cells, b.heap) && RowCompacted(h, t, places, z);
        RowKnown(b, z);
        RowKnown(h, z);
        InRowOrder(places, z);
        FixPilesIdle(h.At(z), h.heap, InRow(places, z));
        OthersOnly(b, h, c, q, z);
        FewerAlone(b.At(z).cells, b.heap, h.At(z).cells, h.heap);
        LooksAlone(h.At(z).cells, h.heap, t.heap);
      }
    }
  }

  lemma FixPilesKnown(row: Row, heap: Heap, order: seq<int>)
    requires CardsKnown(row.cells, heap) && PileOrder(order)
    ensures CardsKnown(FixPiles(row, heap, order).cells, heap)
    decreases |order|
  {
    hide FixPile;
    if order != [] {
      FixPileKeepsKnown(row, heap, order[0]);
      FixPilesKnown(FixPile(row, heap, order[0]), heap, order[1..]);
    }
  }

  lemma SpilledRow(b: Board, h: Board, c: CardRef, q: CardRef, order: seq<int>, places: seq<(int, int)>)
    requires Good(b) && Consistent(h) && Visits(h, places) && c in b.cards && q in b.cards && c != q && c in b.heap && q in b.heap
    requires MiddleToBottom(b, c, q)
    requires h.heap.Keys == b.heap.Keys && h.cards == b.cards && h.heap[q].attached != []
    requires h.heap[q].x == b.heap[q].x && h.heap[q].y == b.heap[q].y
    requires forall d :: d in b.heap && d != c && d != q ==> h.heap[d] == b.heap[d]
    requires h.At(b.heap[q].y) == Remove(b.At(b.heap[q].y), b.heap[c].name, b.heap[c].x)
    requires order == InRow(places, b.heap[q].y)
    ensures PileOrder(order) && CardsKnown(h.At(b.heap[q].y).cells, h.heap)
    ensures var r := FixPiles(h.At(b.heap[q].y), h.heap, order); Settled(r) && ParentsAlone(r.cells, h.heap)
  {
    hide Consistent; hide Remove; hide Indexed; hide FixPile; hide FixPiles;
    OwnTile(b, c);
    OwnTile(b, q);
    InRowOrder(places, b.heap[q].y);
    var y, p := b.heap[q].y, b.heap[q].x;
    var row, after := b.At(y), h.At(y);
    RowKnown(b, y);
    RowKnown(h, y);
    assert Settled(row) && ParentsAlone(row.cells, b.heap);
    FullUnderMiddle(b, c, q);
    RemoveShape(row, b.heap[c].name, b.heap[c].x);
    TopUnburdened(b, h, c, q);
    SpillFromParent(row, h.heap, p);
    assert TruncatedBase(p) == p && p in order;
    OtherPilesGapFree(row, after, p);
    OneGapVisited(after, h.heap, order, p);
    SpilledAlone(b, h, c, q);
  }

  lemma FullUnderMiddle(b: Board, c: CardRef, q: CardRef)
    requires Consistent(b) && c in b.cards && q in b.cards && c in b.heap && q in b.heap && MiddleToBottom(b, c, q)
    ensures var p := b.heap[q].x; p >= 0 && p % 3 == 0 && PileFull(b.At(b.heap[q].y).cells, p) && Base(p) == p
  {
    OwnTile(b, c);
    OwnTile(b, q);
  }

  lemma OtherPilesGapFree(row: Row, after: Row, p: int)
    requires GapFree(row) && p >= 0 && p % 3 == 0 && after.cells == row.cells - {p + 1}
    ensures forall r :: r >= 0 && r % 3 == 0 && r != p ==> PileGapFree(after.cells, r)
  {
    forall r | r >= 0 && r % 3 == 0 && r != p
      ensures PileGapFree(after.cells, r)
    {
      assert PileGapFree(row.cells, r);
      assert r + 2 < p || p + 2 < r;
    }
  }

  /** The top card of the pile shares it, so it carries no attachments. */
  lemma TopUnburdened(b: Board, h: Board, c: CardRef, q: CardRef)
    requires Good(b) && Consistent(h) && c in b.cards && q in b.cards && c != q && c in b.heap && q in b.heap
    requires MiddleToBottom(b, c, q) && h.heap.Keys == b.heap.Keys
    requires forall d :: d in b.heap && d != c && d != q ==> h.heap[d] == b.heap[d]
    requires var row := b.At(b.heap[q].y); PileFull(row.cells, b.heap[q].x)
    ensures var t := b.At(b.heap[q].y).cells[b.heap[q].x + 2]; t.card in h.heap && h.heap[t.card].attached == []
  {
    hide Indexed; hide GapFree;
    var y, p := b.heap[q].y, b.heap[q].x;
    var cells := b.At(y).cells;
    OwnTile(b, c);
    OwnTile(b, q);
    TileOwner(b, y, p + 2);
    assert ParentsAlone(cells, b.heap);
    assert cells[p + 2] in PileSeq(cells, p) && |PileSeq(cells, p)| == 3;
    assert p % 3 == 0;
  }

  lemma SpilledAlone(b: Board, h: Board, c: CardRef, q: CardRef)
    requires Good(b) && Consistent(h) && c in b.cards && q in b.cards && c != q && c in b.heap && q in b.heap
    requires MiddleToBottom(b, c, q) && h.heap.Keys == b.heap.Keys
    requires h.heap[q].x == b.heap[q].x && h.heap[q].y == b.heap[q].y
    requires forall d :: d in b.heap && d != c && d != q ==> h.heap[d] == b.heap[d]
    requires var p, cells := b.heap[q].x, b.At(b.heap[q].y).cells;
             && p >= 0 && p % 3 == 0 && PileFull(cells, p) && h.At(b.heap[q].y).cells == cells - {p + 1}
    ensures var p, cells := b.heap[q].x, b.At(b.heap[q].y).cells;
            ParentsAlone((cells - {p + 1, p + 2})[NextFreeBase(cells, p) := cells[p + 2]], h.heap)
  {
    hide Consistent; hide Indexed; hide NextFreeBase;
    var y, p := b.heap[q].y, b.heap[q].x;
    var cells := b.At(y).cells;
    var x, few := NextFreeBase(cells, p), cells - {p + 1, p + 2};
    TopUnburdened(b, h, c, q);
    assert Settled(b.At(y)) && PileGapFree(cells, x);
    assert (x - p) % 3 == 0 && x % 3 == 0 && x != p && Base(x) == x;
    assert PileSeq(few, x) == [];
    SpilledBelowAlone(b, h, c, q);
    hide ParentsAlone; hide PileSeq;
    OneMoreStaysAlone(few, h.heap, x, cells[p + 2]);
  }

  /** What stays of the table when the top card of the pile is lifted as well. */
  lemma SpilledBelowAlone(b: Board, h: Board, c: CardRef, q: CardRef)
    requires Good(b) && Consistent(h) && c in b.cards && q in b.cards && c != q && c in b.heap && q in b.heap
    requires MiddleToBottom(b, c, q) && h.heap.Keys == b.heap.Keys
    requires forall d :: d in b.heap && d != c && d != q ==> h.heap[d] == b.heap[d]
    requires var p, cells := b.heap[q].x, b.At(b.heap[q].y).cells;
             p >= 0 && p % 3 == 0 && h.At(b.heap[q].y).cells == cells - {p + 1}
    ensures ParentsAlone(b.At(b.heap[q].y).cells - {b.heap[q].x + 1, b.heap[q].x + 2}, h.heap)
  {
    hide Consistent; hide Indexed;
    var y, p := b.heap[q].y, b.heap[q].x;
    var few := b.At(y).cells - {p + 1, p + 2};
    forall r | r >= 0 && r % 3 == 0
      ensures |PileSeq(few, r)| <= 1 || Unburdened(PileSeq(few, r), h.heap)
    {
      if r != p {
        assert r + 2 < p || p + 2 < r;
        FewPileUnburdened(b, h, c, q, r);
        assert PileSeq(few, r) == PileSeq(h.At(y).cells, r);
      }
    }
  }

  lemma FewPileUnburdened(b: Board, h: Board, c: CardRef, q: CardRef, r: int)
    requires Good(b) && Consistent(h) && c in b.heap && q in b.heap && c in b.cards && q in b.cards && c != q
    requires MiddleToBottom(b, c, q) && h.heap.Keys == b.heap.Keys && b.heap[q].x >= 0
    requires forall d :: d in b.heap && d != c && d != q ==> h.heap[d] == b.heap[d]
    requires h.At(b.heap[q].y).cells == b.At(b.heap[q].y).cells - {b.heap[c].x}
    requires r >= 0 && r % 3 == 0 && b.heap[q].x != r && b.heap[q].x != r + 1 && b.heap[q].x != r + 2
    ensures var after := h.At(b.heap[q].y).cells; |PileSeq(after, r)| <= 1 || Unburdened(PileSeq(after, r), h.heap)
  {
    hide Consistent; hide Indexed;
    assert ParentsAlone(b.At(b.heap[q].y).cells, b.heap);
    OtherPileUnburdened(b, h, c, q, r);
  }

  /** cmdAttachCard for two cards of this table. */
  ghost function AttachedHere(b: Board, c: CardRef, q: CardRef, first: seq<(int, int)>, places: seq<(int, int)>): Board
    requires Consistent(b) && c in b.cards && q in b.cards && c in b.heap && q in b.heap && c != q
    requires AttachReady(b, c, q, first) && Threes(places)
  {
    AllFixed(Aside(Hung(b, c, q), q, first), places)
  }

  /** The table before the final compaction is consistent. */
  ghost predicate AttachReady(b: Board, c: CardRef, q: CardRef, first: seq<(int, int)>)
    requires c in b.heap && q in b.heap && c != q && q in b.cards
  {
    var h := Hung(b, c, q);
    && Consistent(h) && q in h.heap && Consistent(SetAside(h, q)) && Threes(first) && Consistent(Aside(h, q, first))
  }

  /** The places are those the compactions look at. */
  ghost predicate AttachVisits(b: Board, c: CardRef, q: CardRef, first: seq<(int, int)>, places: seq<(int, int)>)
    requires c in b.heap && q in b.heap && c != q && q in b.cards
  {
    AttachReady(b, c, q, first) ==>
      AsideVisits(Hung(b, c, q), q, first) && Visits(Aside(Hung(b, c, q), q, first), places)
  }

  /** Before the last compaction everything but gaps is right again, unless a pile got stuck or is to be spilled. */
  lemma AsideLoose(b: Board, c: CardRef, q: CardRef, first: seq<(int, int)>)
    requires Good(b) && c in b.cards && q in b.cards && c != q && c in b.heap && q in b.heap && b.heap[q].parent.None?
    requires Stacked(Hung(b, c, q), q) || (!MiddleToTop(b, c, q) && !MiddleToBottom(b, c, q))
    requires Threes(first)
    ensures var h := Hung(b, c, q);
            && Consistent(h) && q in h.heap && Loose(SetAside(h, q))
            && Consistent(Aside(h, q, first))
            && (AsideVisits(h, q, first) ==> Loose(Aside(h, q, first)))
  {
    hide Hung; hide SetAside; hide Stacked; hide AllFixed; hide MiddleToTop; hide MiddleToBottom; hide AllIndexed; hide AllAlone;
    hide Consistent; hide AllSettled; hide TakenOff; hide SameLooks; hide RowCompacted;
    var h := Hung(b, c, q);
    HungShape(b, c, q);
    HungConsistent(b, c, q);
    if Stacked(h, q) {
      WithoutParentAlone(b, c, q);
      HungIndexed(b, c, q);
      SetAsideLoose(h, q);
    } else {
      UnstackedAlone(b, c, q);
      NotSetAside(h, q);
    }
    AllFixedCompacts(SetAside(h, q), first);
    if Stacked(h, q) && h.heap[q].faceDown && AsideVisits(h, q, first) {
      LooseCompacts(SetAside(h, q), first);
      GoodIsLoose(AllFixed(SetAside(h, q), first));
    }
  }

  lemma NotSetAside(b: Board, q: CardRef)
    requires Consistent(b) && q in b.cards && q in b.heap && !Stacked(b, q)
    ensures SetAside(b, q) == b
  {
  }

  /** A pile of a settled row with the cards c and, above it, q: without c the pile is stuck, and nobody is set aside. */
  lemma StuckWithoutMiddle(b: Board, c: CardRef, q: CardRef)
    requires Good(b) && c in b.cards && q in b.cards && c != q && c in b.heap && q in b.heap && MiddleToTop(b, c, q)
    ensures var h := Hung(b, c, q);
            && Consistent(h) && q in h.heap && !Stacked(h, q)
            && b.heap[c].x - 1 >= 0 && (b.heap[c].x - 1) % 3 == 0
            && Stuck(h.At(b.heap[c].y).cells, h.heap, b.heap[c].x - 1)
  {
    hide Consistent; hide Hung; hide Remove; hide Indexed; hide AllAlone;
    OwnTile(b, c);
    OwnTile(b, q);
    HungConsistent(b, c, q);
    HungShape(b, c, q);
    var y, p := b.heap[c].y, b.heap[c].x - 1;
    assert Settled(b.At(y)) && PileGapFree(b.At(y).cells, p);
    RemoveShape(b.At(y), b.heap[c].name, b.heap[c].x);
    assert TruncatedBase(p + 2) == p;
  }

  /**
   Attaching a card to another one on a good table leaves it good exactly if it is not the middle
   card of a pile that is attached to the card above it.
   */
  lemma AttachedGoodIff(b: Board, c: CardRef, q: CardRef, first: seq<(int, int)>, places: seq<(int, int)>)
    requires Good(b) && c in b.cards && q in b.cards && c != q && c in b.heap && q in b.heap && b.heap[q].parent.None?
    requires Threes(first) && AttachVisits(b, c, q, first, places)
    ensures AttachReady(b, c, q, first) && Threes(places)
    ensures Good(AttachedHere(b, c, q, first, places)) <==> !MiddleToTop(b, c, q)
  {
    hide Hung; hide SetAside; hide Stacked; hide AllFixed; hide AllIndexed; hide AllAlone; hide Consistent; hide TakenOff;
    hide SameLooks; hide MiddleToTop; hide MiddleToBottom;
    var h := Hung(b, c, q);
    HungShape(b, c, q);
    HungConsistent(b, c, q);
    if Stacked(h, q) || (!MiddleToTop(b, c, q) && !MiddleToBottom(b, c, q)) {
      AsideLoose(b, c, q, first);
      LooseCompacts(Aside(h, q, first), places);
      if MiddleToTop(b, c, q) {
        StuckWithoutMiddle(b, c, q);
      }
    } else {
      NotSetAside(h, q);
      if MiddleToTop(b, c, q) {
        StuckWithoutMiddle(b, c, q);
        StaysStuck(h, b.heap[c].y, b.heap[c].x - 1, places);
      } else {
        SpilledGood(b, c, q, places);
      }
    }
  }

  lemma StaysStuck(b: Board, y: int, p: int, places: seq<(int, int)>)
    requires Consistent(b) && Threes(places) && p >= 0 && p % 3 == 0 && Stuck(b.At(y).cells, b.heap, p)
    ensures !Good(AllFixed(b, places))
  {
    hide AllFixed; hide SameLooks;
    var t := AllFixed(b, places);
    AllFixedCompacts(b, places);
    RowKnown(b, y);
    InRowOrder(places, y);
    SpoiledForGood(b.At(y), b.heap, InRow(places, y), p);
    SpoiledIsNotClosed(FixPiles(b.At(y), b.heap, InRow(places, y)).cells, b.heap, p);
    assert RowCompacted(b, t, places, y);
    StuckStaysStuck(b.At(y), b.heap, InRow(places, y), p);
    assert !PileGapFree(t.At(y).cells, p);
  }

  lemma {:induction false} StuckStaysStuck(row: Row, heap: Heap, order: seq<int>, p: int)
    requires CardsKnown(row.cells, heap) && PileOrder(order) && p >= 0 && p % 3 == 0 && Stuck(row.cells, heap, p)
    ensures Stuck(FixPiles(row, heap, order).cells, heap, p)
    decreases |order|
  {
    hide FixPile;
    if order != [] {
      FixPileKeepsKnown(row, heap, order[0]);
      if order[0] == p {
        SpoiledIsLeft(row, heap, p);
      } else {
        OtherSlotsStay(row, heap, order[0]);
        assert order[0] + 2 < p || p + 2 < order[0];
      }
      StuckStaysStuck(FixPile(row, heap, order[0]), heap, order[1..], p);
    }
  }

  // ------------------------------------------------------------------ attaching across tables

  /** cmdAttachCard for a card of this table and a card of another: it leaves its column, then comes compaction. */
  ghost function AttachedAway(b: Board, c: CardRef, q: CardRef, places: seq<(int, int)>): Board
    requires c in b.heap && q in b.heap && c != q && Consistent(Hung(b, c, q)) && Threes(places)
  {
    AllFixed(Hung(b, c, q), places)
  }

  lemma AttachedAwayGood(b: Board, c: CardRef, q: CardRef, places: seq<(int, int)>)
    requires Good(b) && c in b.cards && c in b.heap && q in b.heap && q !in b.cards && Visits(Hung(b, c, q), places)
    ensures c != q && Consistent(Hung(b, c, q)) && Good(AttachedAway(b, c, q, places))
  {
    hide Consistent; hide Hung; hide Remove; hide Indexed; hide ParentsAlone; hide GapFree; hide AllFixed;
    HungConsistent(b, c, q);
    HungIndexed(b, c, q);
    HungShape(b, c, q);
    var h := Hung(b, c, q);
    forall y
      ensures ParentsAlone(h.At(y).cells, h.heap)
    {
      assert ParentsAlone(b.At(y).cells, b.heap);
      RowKnown(b, y);
      RowKnown(h, y);
      RemoveShape(b.At(b.heap[c].y), b.heap[c].name, b.heap[c].x);
      OwnSameBurdens(b, h, c, q, y);
      FewerAlone(b.At(y).cells, b.heap, h.At(y).cells, h.heap);
    }
    LooseCompacts(h, places);
  }

  lemma OwnSameBurdens(b: Board, h: Board, c: CardRef, q: CardRef, y: int)
    requires Consistent(b) && c in b.heap && q in b.heap && q !in b.cards && c in h.heap && h.heap[c].attached == b.heap[c].attached
    requires forall d :: d in b.heap && d != c && d != q ==> d in h.heap && h.heap[d].attached == b.heap[d].attached
    requires forall x :: x in h.At(y).cells ==> x in b.At(y).cells && h.At(y).cells[x] == b.At(y).cells[x]
    ensures forall x :: x in h.At(y).cells ==>
              var d := h.At(y).cells[x].card;
              d in b.heap && d in h.heap && h.heap[d].attached == b.heap[d].attached
  {
    forall x | x in h.At(y).cells
      ensures var d := h.At(y).cells[x].card;
              d in b.heap && d in h.heap && h.heap[d].attached == b.heap[d].attached
    {
      TileOwner(b, y, x);
    }
  }

  /** A card of this table gets a child from another one. */
  function Burdened(b: Board, q: CardRef, k: CardRef): Board
    requires q in b.heap
  {
    b.(heap := b.heap[q := b.heap[q].(attached := b.heap[q].attached + [k])])
  }

  /** The new parent's side of cmdAttachCard when the child comes from another table: no compaction but for a face-down parent. */
  ghost function AdoptedFrom(b: Board, q: CardRef, k: CardRef, first: seq<(int, int)>): Board
    requires q in b.cards && q in b.heap && Consistent(Burdened(b, q, k)) && Consistent(SetAside(Burdened(b, q, k), q)) && Threes(first)
  {
    Aside(Burdened(b, q, k), q, first)
  }

  /** The new parent does not lie below another card of its pile, or lies face down. */
  predicate LeavesNoGap(b: Board, q: CardRef)
    requires q in b.heap
  {
    var card := b.heap[q];
    card.x < 0 || card.faceDown || card.x % 3 == 2 || card.x + 1 !in b.At(card.y).cells
  }

  lemma BurdenedConsistent(b: Board, q: CardRef, k: CardRef)
    requires Consistent(b) && q in b.heap
    ensures Consistent(Burdened(b, q, k))
  {
  }

  lemma BurdenedIndexed(b: Board, q: CardRef, k: CardRef)
    requires AllSettled(b) && q in b.heap
    ensures AllIndexed(Burdened(b, q, k)) && AllSettled(Burdened(b, q, k))
  {
    hide Indexed; hide GapFree;
    forall y
      ensures Settled(Burdened(b, q, k).At(y))
    {
      assert Settled(b.At(y)) && Burdened(b, q, k).At(y) == b.At(y);
    }
  }

  lemma BurdenedLifted(b: Board, q: CardRef, k: CardRef)
    requires Good(b) && q in b.cards && q in b.heap
    ensures Consistent(Burdened(b, q, k)) && Loose(TakenOff(Burdened(b, q, k), q))
  {
    hide Consistent; hide Remove; hide Indexed; hide ParentsAlone; hide TakenOff; hide GapFree;
    BurdenedConsistent(b, q, k);
    BurdenedIndexed(b, q, k);
    OwnTile(b, q);
    var h := Burdened(b, q, k);
    TakenOffLoose(h, q);
    var t := TakenOff(h, q);
    TakenOffConsistent(h, q);
    TakenOffRows(h, q);
    TakenOffShape(h, q);
    forall y
      ensures ParentsAlone(t.At(y).cells, t.heap)
    {
      assert ParentsAlone(b.At(y).cells, b.heap);
      RowKnown(b, y);
      RowKnown(t, y);
      RemoveShape(h.At(h.heap[q].y), h.heap[q].name, h.heap[q].x);
      OthersOnly(b, t, q, q, y);
      FewerAlone(b.At(y).cells, b.heap, t.At(y).cells, t.heap);
    }
  }

  lemma BurdenedUnstacked(b: Board, q: CardRef, k: CardRef)
    requires Good(b) && q in b.cards && q in b.heap && !Stacked(b, q)
    ensures Good(Burdened(b, q, k))
  {
    hide Consistent; hide Indexed;
    BurdenedConsistent(b, q, k);
    BurdenedIndexed(b, q, k);
    OwnTile(b, q);
    var h := Burdened(b, q, k);
    forall y
      ensures ParentsAlone(h.At(y).cells, h.heap)
    {
      assert Settled(b.At(y)) && ParentsAlone(b.At(y).cells, b.heap);
      RowKnown(b, y);
      RowKnown(h, y);
      forall r | r >= 0 && r % 3 == 0
        ensures |PileSeq(h.At(y).cells, r)| <= 1 || Unburdened(PileSeq(h.At(y).cells, r), h.heap)
      {
        assert PileGapFree(b.At(y).cells, r);
        if |PileSeq(h.At(y).cells, r)| > 1 {
          QNotInPile(b, q, y, r);
        }
      }
    }
  }

  /** In a pile with several cards there is no card that is not stacked. */
  lemma QNotInPile(b: Board, q: CardRef, y: int, r: int)
    requires Consistent(b) && q in b.heap && !Stacked(b, q) && r >= 0 && r % 3 == 0
    requires PileGapFree(b.At(y).cells, r) && |PileSeq(b.At(y).cells, r)| > 1
    ensures forall t :: t in PileSeq(b.At(y).cells, r) ==> t.card != q
  {
    var cells := b.At(y).cells;
    assert r in cells && r + 1 in cells;
    forall t | t in PileSeq(cells, r)
      ensures t.card != q
    {
      var x := if cells[r] == t then r else if cells[r + 1] == t then r + 1 else r + 2;
      TileOwner(b, y, x);
      assert TruncatedBase(x) == r;
    }
  }

  /**
   A card of a good table that gets a child from another table leaves its own table good exactly if
   it was not lying below another card, or lies face down.
   */
  lemma AdoptedGoodIff(b: Board, q: CardRef, k: CardRef, first: seq<(int, int)>)
    requires Good(b) && q in b.cards && q in b.heap && b.heap[q].parent.None? && Threes(first)
    requires Consistent(Burdened(b, q, k)) && AsideVisits(Burdened(b, q, k), q, first)
    ensures Consistent(SetAside(Burdened(b, q, k), q))
    ensures Good(AdoptedFrom(b, q, k, first)) <==> LeavesNoGap(b, q)
  {
    hide Consistent; hide SetAside; hide AllFixed; hide Indexed; hide ParentsAlone; hide TakenOff; hide GapFree; hide Visits;
    var h := Burdened(b, q, k);
    BurdenedIndexed(b, q, k);
    OwnTile(b, q);
    if Stacked(h, q) {
      BurdenedLifted(b, q, k);
      SetAsideLoose(h, q);
      var s := SetAside(h, q);
      if b.heap[q].faceDown {
        LooseCompacts(s, first);
      } else {
        SetAsideGap(b, q, s);
      }
    } else {
      NotSetAside(h, q);
      BurdenedUnstacked(b, q, k);
      UnstackedLeavesNoGap(b, q);
    }
  }

  lemma UnstackedLeavesNoGap(b: Board, q: CardRef)
    requires Good(b) && q in b.cards && q in b.heap && !Stacked(b, q)
    ensures LeavesNoGap(b, q)
  {
    hide Consistent; hide Indexed;
    OwnTile(b, q);
    var x, y := b.heap[q].x, b.heap[q].y;
    if x >= 0 {
      assert Settled(b.At(y)) && PileGapFree(b.At(y).cells, Base(x));
      assert x == Base(x) || x == Base(x) + 1 || x == Base(x) + 2;
    }
  }

  /** Setting a card aside leaves a gap exactly if another card lay on it. */
  lemma SetAsideGap(b: Board, q: CardRef, s: Board)
    requires Good(b) && q in b.cards && q in b.heap && !b.heap[q].faceDown && Loose(s)
    requires Stacked(b, q)
    requires var y := b.heap[q].y;
             && (forall z :: z != y ==> s.At(z).cells == b.At(z).cells)
             && s.At(y).cells
                == (if b.heap[q].x >= 0 then b.At(y).cells - {b.heap[q].x} else b.At(y).cells)[b.At(y).space := Tile(q, b.heap[q].name)]
    ensures Good(s) <==> LeavesNoGap(b, q)
  {
    hide Consistent;
    OwnTile(b, q);
    var x, y, space := b.heap[q].x, b.heap[q].y, b.At(b.heap[q].y).space;
    assert Settled(b.At(y));
    assert space % 3 == 0 && PileEmpty(b.At(y).cells, space);
    if !LeavesNoGap(b, q) {
      assert PileGapFree(b.At(y).cells, Base(x));
      assert x == Base(x) || x == Base(x) + 1;
      assert space != Base(x);
      assert !PileGapFree(s.At(y).cells, Base(x));
      assert !Settled(s.At(y));
    } else {
      forall z
        ensures Settled(s.At(z))
      {
        assert Settled(b.At(z)) && Indexed(s.At(z));
        forall r | r >= 0 && r % 3 == 0
          ensures PileGapFree(s.At(z).cells, r)
        {
          assert PileGapFree(b.At(z).cells, r);
          assert z == y && r != space ==> r + 2 < space || space + 2 < r;
          if x >= 0 {
            assert x == Base(x) || x == Base(x) + 1 || x == Base(x) + 2;
            assert r != Base(x) ==> r + 2 < Base(x) || Base(x) + 2 < r;
          }
        }
      }
    }
  }

  // ------------------------------------------------------------------ unattaching and refreshing

  /** setParentCard(nullptr): the card is under nobody; its old parent, here or elsewhere, has one child less. */
  function Freed(b: Board, k: CardRef, o: CardRef): Board
    requires k in b.heap && o in b.heap && k != o && k in b.heap[o].attached
  {
    b.(heap := b.heap[k := b.heap[k].(parent := None)][o := b.heap[o].(attached := Without(b.heap[o].attached, k))])
  }

  /** unattachCard for the card itself: back into the grid, where its name puts it. */
  ghost function Unattached(b: Board, k: CardRef, o: CardRef, places: seq<(int, int)>): Board
    requires k in b.heap && o in b.heap && k != o && k in b.heap[o].attached && k in b.cards && k in Freed(b, k, o).cards
    requires Consistent(Freed(b, k, o)) && Consistent(MovedOn(Freed(b, k, o), k, -1, b.heap[k].y, b.heap[k].faceDown)) && Threes(places)
  {
    var t := MovedOn(Freed(b, k, o), k, -1, b.heap[k].y, b.heap[k].faceDown);
    if b.heap[k].faceDown then AllFixed(t, places) else t
  }

  lemma FreedConsistent(b: Board, k: CardRef, o: CardRef)
    requires Consistent(b) && k in b.cards && k in b.heap && b.heap[k].x < 0 && o in b.heap && k != o && k in b.heap[o].attached
    ensures Consistent(Freed(b, k, o))
  {
    hide Without;
  }

  lemma FreedGood(b: Board, k: CardRef, o: CardRef)
    requires Good(b) && k in b.cards && k in b.heap && b.heap[k].x < 0 && o in b.heap && k != o && k in b.heap[o].attached
    ensures Good(Freed(b, k, o))
  {
    hide Indexed; hide GapFree; hide Without;
    var f := Freed(b, k, o);
    forall y
      ensures Settled(f.At(y)) && ParentsAlone(f.At(y).cells, f.heap)
    {
      assert Settled(b.At(y)) && ParentsAlone(b.At(y).cells, b.heap);
      FreedAlone(b, f, k, o, y);
    }
  }

  lemma FreedAlone(b: Board, f: Board, k: CardRef, o: CardRef, y: int)
    requires Consistent(b) && ParentsAlone(b.At(y).cells, b.heap) && o in b.heap && b.heap[o].attached != []
    requires f.At(y) == b.At(y) && f.heap.Keys == b.heap.Keys
    requires forall d :: d in b.heap && d != o ==> f.heap[d].attached == b.heap[d].attached
    ensures ParentsAlone(f.At(y).cells, f.heap)
  {
    forall r | r >= 0 && r % 3 == 0
      ensures |PileSeq(f.At(y).cells, r)| <= 1 || Unburdened(PileSeq(f.At(y).cells, r), f.heap)
    {
      if |PileSeq(b.At(y).cells, r)| > 1 {
        assert Unburdened(PileSeq(b.At(y).cells, r), b.heap);
      }
    }
  }

  /** The card hangs under none, or beside the grid under one that knows of it. */
  predicate LinkKnown(b: Board, c: CardRef)
  {
    c in b.heap &&
    (b.heap[c].parent.Some? ==>
       var o := b.heap[c].parent.value; o in b.heap && o != c && c in b.heap[o].attached && b.heap[c].x < 0)
  }

  /** What setParentCard does first: the old parent has one child less. */
  function Unhooked(b: Board, c: CardRef): Board
    requires LinkKnown(b, c)
  {
    if b.heap[c].parent.Some? then Freed(b, c, b.heap[c].parent.value) else b
  }

  lemma UnhookedGood(b: Board, c: CardRef)
    requires Good(b) && c in b.cards && LinkKnown(b, c)
    ensures var t := Unhooked(b, c);
            && Good(t) && t.cards == b.cards && t.heap.Keys == b.heap.Keys && t.heap[c].parent.None?
            && t.indexes == b.indexes && t.place == b.place
            && forall d :: d in b.heap ==>
                 && t.heap[d].x == b.heap[d].x && t.heap[d].y == b.heap[d].y
                 && (d != c ==> t.heap[d].parent == b.heap[d].parent)
  {
    hide Consistent; hide AllSettled; hide AllAlone; hide Without;
    if b.heap[c].parent.Some? {
      FreedGood(b, c, b.heap[c].parent.value);
    }
  }

  /** A card without children that is unattached on a good table leaves it good. */
  lemma UnattachedGood(b: Board, k: CardRef, o: CardRef, places: seq<(int, int)>)
    requires Good(b) && k in b.cards && k in b.heap && b.heap[k].x < 0 && b.heap[k].attached == []
    requires o in b.heap && k != o && k in b.heap[o].attached && Threes(places)
    ensures Consistent(Freed(b, k, o)) && Consistent(MovedOn(Freed(b, k, o), k, -1, b.heap[k].y, b.heap[k].faceDown))
    ensures Visits(MovedOn(Freed(b, k, o), k, -1, b.heap[k].y, b.heap[k].faceDown), places) ==>
              Good(Unattached(b, k, o, places))
    ensures !b.heap[k].faceDown ==> Good(Unattached(b, k, o, places))
  {
    hide Consistent; hide AllSettled; hide AllAlone; hide MovedOn; hide Without; hide AllFixed; hide FreeColumn; hide TakenOff;
    hide Arrived; hide Visits;
    FreedGood(b, k, o);
    var f, y := Freed(b, k, o), b.heap[k].y;
    ShiftConsistent(f, k, -1, y, b.heap[k].faceDown);
    var t := MovedOn(f, k, -1, y, b.heap[k].faceDown);
    LiftedBeside(f, k);
    MovedOnIs(f, k, -1, y, b.heap[k].faceDown);
    TakenOffConsistent(f, k);
    TakenOffShape(f, k);
    ArrivedGoodIff(TakenOff(f, k), k, -1, y, b.heap[k].faceDown);
    if Visits(t, places) {
      GoodIsLoose(t);
      LooseCompacts(t, places);
    }
  }

  // ------------------------------------------------------------------ a card leaves its children behind

  /** These cards of the table hang under o. */
  ghost predicate ChildrenHere(b: Board, o: CardRef, ks: seq<CardRef>)
  {
    Distinct(ks) && o in b.heap && forall k :: k in ks ==> ChildHere(b, o, k)
  }

  ghost predicate ChildHere(b: Board, o: CardRef, k: CardRef)
  {
    && k in b.cards && k in b.heap && k != o && o in b.heap && k in b.heap[o].attached
    && b.heap[k].parent == Some(o) && b.heap[k].x < 0 && b.heap[k].attached == []
  }

  /** The places of the compaction that follows when the child lies face down. */
  ghost predicate UnattachVisits(b: Board, k: CardRef, o: CardRef, places: seq<(int, int)>)
    requires Good(b) && ChildHere(b, o, k)
  {
    Threes(places) &&
    (UnattachedGood(b, k, o, places);
    b.heap[k].faceDown ==> Visits(MovedOn(Freed(b, k, o), k, -1, b.heap[k].y, true), places))
  }

  /** Unattaching changes coordinates only, once the link is gone. */
  lemma UnattachedShape(b: Board, k: CardRef, o: CardRef, places: seq<(int, int)>)
    requires Good(b) && ChildHere(b, o, k) && UnattachVisits(b, k, o, places)
    ensures Consistent(Freed(b, k, o)) && Consistent(MovedOn(Freed(b, k, o), k, -1, b.heap[k].y, b.heap[k].faceDown))
    ensures Threes(places)
    ensures var t := Unattached(b, k, o, places);
            Good(t) && SameLooks(Freed(b, k, o).heap, t.heap) && multiset(t.cards) == multiset(b.cards)
  {
    hide Consistent; hide AllSettled; hide AllAlone; hide MovedOn; hide AllFixed; hide Without; hide Visits; hide TakenOff;
    hide Arrived; hide FreeColumn; hide RowCompacted;
    UnattachedGood(b, k, o, places);
    FreedGood(b, k, o);
    var f, y, face := Freed(b, k, o), b.heap[k].y, b.heap[k].faceDown;
    MovedOnIs(f, k, -1, y, face);
    TakenOffShape(f, k);
    TakenOffConsistent(f, k);
    RowKnown(TakenOff(f, k), y);
    SpaceAligned(TakenOff(f, k), y);
    ArrivedRows(TakenOff(f, k), k, -1, y, face);
    var t := MovedOn(f, k, -1, y, face);
    assert SameLooks(f.heap, t.heap);
    AllFixedCompacts(t, places);
    SameLooksTransitive(f.heap, t.heap, AllFixed(t, places).heap);
  }

  lemma SiblingStays(b: Board, t: Board, o: CardRef, k: CardRef, j: CardRef)
    requires Consistent(t) && ChildHere(b, o, k) && ChildHere(b, o, j) && j != k
    requires SameLooks(Freed(b, k, o).heap, t.heap) && multiset(t.cards) == multiset(b.cards)
    ensures ChildHere(t, o, j)
  {
    assert j in multiset(b.cards);
    assert j in t.cards;
    assert j in multiset(b.heap[o].attached);
    assert j in Without(b.heap[o].attached, k) by { WithoutKeeps(b.heap[o].attached, k, j); }
    if t.heap[j].x >= 0 {
      OwnTile(t, j);
      RowKnown(t, t.heap[j].y);
    }
  }

  lemma WithoutKeeps(cards: seq<CardRef>, c: CardRef, d: CardRef)
    requires c in cards && d in cards && d != c
    ensures d in Without(cards, c)
  {
    var i := IndexOf(cards, c);
    var j :| 0 <= j < |cards| && cards[j] == d;
    assert if j < i then Without(cards, c)[j] == d else Without(cards, c)[j - 1] == d;
  }

  /** Unattaching one child leaves the others hanging. */
  lemma SiblingsStay(b: Board, o: CardRef, ks: seq<CardRef>, places: seq<(int, int)>)
    requires Good(b) && ks != [] && ChildrenHere(b, o, ks)
    ensures ChildHere(b, o, ks[0])
    ensures UnattachVisits(b, ks[0], o, places) ==>
              && Threes(places) && Consistent(Freed(b, ks[0], o))
              && Consistent(MovedOn(Freed(b, ks[0], o), ks[0], -1, b.heap[ks[0]].y, b.heap[ks[0]].faceDown))
              && Good(Unattached(b, ks[0], o, places)) && ChildrenHere(Unattached(b, ks[0], o, places), o, ks[1..])
  {
    hide Good; hide Consistent; hide Unattached; hide MovedOn; hide SameLooks; hide UnattachVisits; hide Without;
    var k := ks[0];
    assert k in ks && k !in ks[1..];
    assert ChildHere(b, o, k);
    if UnattachVisits(b, k, o, places) {
      UnattachedShape(b, k, o, places);
      var t := Unattached(b, k, o, places);
      OldParentStays(b, t, k, o);
      forall j | j in ks[1..]
        ensures ChildHere(t, o, j)
      {
        assert j in ks;
        GoodIsLoose(t);
        LooseConsistent(t);
        SiblingStays(b, t, o, k, j);
      }
    }
  }

  /** Children unattached one after the other. */
  ghost predicate BackVisits(b: Board, o: CardRef, ks: seq<CardRef>, visits: seq<seq<(int, int)>>)
    requires Good(b) && ChildrenHere(b, o, ks) && |visits| == |ks|
    decreases |ks|
  {
    hide Good; hide ChildrenHere; hide Unattached; hide UnattachVisits;
    ks != [] ==>
      (SiblingsStay(b, o, ks, visits[0]);
       && UnattachVisits(b, ks[0], o, visits[0])
       && BackVisits(Unattached(b, ks[0], o, visits[0]), o, ks[1..], visits[1..]))
  }

  /** A table without gaps is left as it is. */
  lemma {:induction false} NothingToFix(b: Board, places: seq<(int, int)>)
    requires Consistent(b) && Threes(places) && forall y :: GapFree(b.At(y))
    ensures AllFixed(b, places) == b
    decreases |places|
  {
    hide Consistent; hide SlotMoved;
    if places != [] {
      var (p, y) := places[0];
      assert GapFree(b.At(y)) && places[0] in places;
      assert p >= 0 ==> PileGapFree(b.At(y).cells, p);
      assert PlaceFixed(b, places[0]) == b;
      hide GapFree; hide PlaceFixed;
      NothingToFix(b, places[1..]);
    }
  }

  /** Once a card with children is lifted the table is good, with the children still hanging. */
  lemma ParentTakenOff(b: Board, o: CardRef, ks: seq<CardRef>)
    requires Good(b) && o in b.cards && o in b.heap && b.heap[o].attached != [] && ChildrenHere(b, o, ks)
    ensures Good(TakenOff(b, o)) && ChildrenHere(TakenOff(b, o), o, ks)
  {
    hide Consistent; hide AllSettled; hide AllAlone; hide TakenOff;
    ParentTakenOffGood(b, o);
    TakenOffShape(b, o);
    ListedOnce(b);
    var t := TakenOff(b, o);
    forall k | k in ks
      ensures ChildHere(t, o, k)
    {
      assert ChildHere(b, o, k);
      WithoutFacts(b.cards, o);
    }
  }

  lemma LooseConsistent(b: Board)
    requires Loose(b)
    ensures Consistent(b)
  {
  }

  lemma OldParentStays(b: Board, t: Board, k: CardRef, o: CardRef)
    requires ChildHere(b, o, k) && SameLooks(Freed(b, k, o).heap, t.heap)
    ensures o in t.heap
  {
  }

  /** Taking up a card that lies beside the grid leaves every row alone. */
  lemma LiftedBeside(b: Board, c: CardRef)
    requires Good(b) && c in b.cards && c in b.heap && b.heap[c].x < 0
    ensures Good(TakenOff(b, c))
  {
    hide Consistent; hide Indexed; hide GapFree; hide ParentsAlone; hide TakenOff; hide Remove;
    GoodIsLoose(b);
    TakenOffLoose(b, c);
    TakenOffRows(b, c);
    RemoveNothing(b.At(b.heap[c].y), b.heap[c].name, b.heap[c].x);
    forall y
      ensures Settled(TakenOff(b, c).At(y))
    {
      assert Settled(b.At(y));
    }
  }

  /** updateCardCoordinates for a card that stays where it is. */
  function Refreshed(b: Board, c: CardRef): Board
    requires c in b.heap && (b.heap[c].x >= 0 ==> b.heap[c].x in b.At(b.heap[c].y).cells)
    requires b.heap[c].x >= 0 && b.heap[c].x % 3 == 2 ==> Base(b.heap[c].x) in b.At(b.heap[c].y).cells
  {
    var card := b.heap[c];
    if card.x < 0 then b else b.(indexes := b.indexes.With(card.y, Refresh(b.At(card.y), card.x, Listable(card))))
  }

  /** Not the middle card of a full pile, nor a bottom card of one that may be listed or has its like above it. */
  predicate Refreshable(b: Board, c: CardRef)
    requires c in b.heap
  {
    var card := b.heap[c];
    card.x >= 0 ==>
      var cells := b.At(card.y).cells;
      !(PileFull(cells, Base(card.x)) && card.x % 3 != 2 && (card.x % 3 == 0 ==> Listable(card) || Alike(cells, Base(card.x))))
  }

  lemma RefreshedGoodIff(b: Board, c: CardRef)
    requires Good(b) && c in b.cards && c in b.heap
    ensures b.heap[c].x >= 0 ==> b.heap[c].x in b.At(b.heap[c].y).cells
    ensures b.heap[c].x >= 0 && b.heap[c].x % 3 == 2 ==> Base(b.heap[c].x) in b.At(b.heap[c].y).cells
    ensures Good(Refreshed(b, c)) <==> Refreshable(b, c)
  {
    hide Consistent; hide Indexed; hide GapFree; hide ParentsAlone; hide Refresh; hide Listable; hide Alike;
    OwnTile(b, c);
    var card := b.heap[c];
    if card.x >= 0 {
      assert Settled(b.At(card.y));
      RefreshSettlesIff(b.At(card.y), card.x, Listable(card));
      var r := Refreshed(b, c);
      if Settled(r.At(card.y)) {
        assert forall y :: Settled(r.At(y)) by {
          forall y
            ensures Settled(r.At(y))
          {
            assert Settled(b.At(y));
          }
        }
        RefreshedConsistent(b, r, card.y);
        forall y
          ensures ParentsAlone(r.At(y).cells, r.heap)
        {
          assert ParentsAlone(b.At(y).cells, b.heap) && r.At(y).cells == b.At(y).cells;
        }
      }
    }
  }

  lemma RefreshedConsistent(b: Board, r: Board, y: int)
    requires Consistent(b) && r.heap == b.heap && r.cards == b.cards && r.place == b.place
    requires forall z :: r.At(z).cells == b.At(z).cells && (z != y ==> r.At(z) == b.At(z))
    requires r.At(y).space % 3 == 0 || Settled(r.At(y))
    ensures Consistent(r)
  {
    var grid, after := b.indexes.coordinateMap, r.indexes.coordinateMap;
    assert forall z :: CellsAt(after, z) == r.At(z).cells && CellsAt(grid, z) == b.At(z).cells;
    forall z
      ensures r.indexes.At(z).space % 3 == 0
    {
      assert b.indexes.At(z).space % 3 == 0 && r.At(z) == r.indexes.At(z);
    }
  }

  // ------------------------------------------------------------------ what happens elsewhere

  /** Other commands change cards without touching this table's coordinates, and make no parent here. */
  ghost predicate Elsewhere(b: Board, heap: Heap)
  {
    forall c :: c in b.cards && c in b.heap ==>
         && c in heap && heap[c].x == b.heap[c].x && heap[c].y == b.heap[c].y && heap[c].name == b.heap[c].name && heap[c].zone == b.heap[c].zone
         && (b.heap[c].parent.None? && b.heap[c].x >= 0 ==> heap[c].parent.None?)
         && (b.heap[c].attached == [] ==> heap[c].attached == [])
  }

  lemma ElsewhereGood(b: Board, heap: Heap)
    requires Good(b) && Elsewhere(b, heap)
    ensures Good(b.(heap := heap))
  {
    hide Indexed; hide GapFree;
    var t := b.(heap := heap);
    assert Consistent(t) by {
      hide ParentsAlone;
    }
    forall y
      ensures Settled(t.At(y)) && ParentsAlone(t.At(y).cells, heap)
    {
      assert Settled(b.At(y)) && ParentsAlone(b.At(y).cells, b.heap);
      ElsewhereAlone(b, heap, y);
    }
  }

  lemma ElsewhereAlone(b: Board, heap: Heap, y: int)
    requires Consistent(b) && Elsewhere(b, heap) && ParentsAlone(b.At(y).cells, b.heap)
    ensures ParentsAlone(b.At(y).cells, heap)
  {
    var cells := b.At(y).cells;
    forall r | r >= 0 && r % 3 == 0
      ensures |PileSeq(cells, r)| <= 1 || Unburdened(PileSeq(cells, r), heap)
    {
      forall t | t in PileSeq(cells, r)
        ensures t.card in b.cards && t.card in b.heap
      {
        var x := if r in cells && cells[r] == t then r else if r + 1 in cells && cells[r + 1] == t then r + 1 else r + 2;
        TileOwner(b, y, x);
      }
    }
  }
}

/** A card zone as the server keeps it: the list, the three indexes, and the operations on them. */
module CardZone {
  import opened Wrappers
  import opened Cards
  import opened PileRow
  import opened PileRowProofs
  import opened Compaction
  import opened RowMoves
  import opened TableZone
  import opened TableSteps
  import opened Rng
  import opened Shuffling
  import opened ZoneLists

  /** The card objects, shared by all zones. */
  class CardStore {
    var heap: Heap

    constructor ()
      ensures heap == map[]
    {
      heap := map[];
    }
  }

  /** The search for the next empty pile when the first one is taken. */
  method EmptyPileAfter(cells: map<int, Tile>, x: int) returns (nextFreeX: int)
    ensures nextFreeX == NextEmptyPile(cells, x + 3)
    ensures nextFreeX > x && (nextFreeX - x) % 3 == 0 && PileEmpty(cells, nextFreeX)
  {
    nextFreeX := x + 3;
    while nextFreeX in cells || nextFreeX + 1 in cells || nextFreeX + 2 in cells
      invariant nextFreeX >= x + 3 && (nextFreeX - x) % 3 == 0
      invariant NextEmptyPile(cells, x + 3) == NextEmptyPile(cells, nextFreeX)
      decreases |set c | c in cells && nextFreeX <= c|
    {
      FewerAbove(cells, nextFreeX, nextFreeX + 3,
        if nextFreeX in cells then nextFreeX else if nextFreeX + 1 in cells then nextFreeX + 1 else nextFreeX + 2);
      nextFreeX := nextFreeX + 3;
    }
  }

  /** The updates of the three indexes of a row when a card leaves column oldX >= 0. */
  method RowWithout(row: Row, name: string, oldX: int) returns (r: Row)
    requires oldX >= 0
    ensures r == Remove(row, name, oldX)
  {
    hide Unlist;
    var baseX, piles, space := oldX / 3 * 3, row.piles, row.space;
    if baseX in row.cells && baseX + 1 in row.cells && baseX + 2 in row.cells {
      piles := [Listing(row.cells[baseX].name, baseX)] + piles;
    }
    var cells := row.cells - {oldX};
    if !(baseX in cells && cells[baseX].name == name)
       && !(baseX + 1 in cells && cells[baseX + 1].name == name)
       && !(baseX + 2 in cells && cells[baseX + 2].name == name) {
      piles := Unlist(piles, Listing(name, baseX));
    }
    if baseX !in cells && baseX + 1 !in cells && baseX + 2 !in cells {
      if baseX < space {
        space := baseX;
      }
    }
    r := Row(cells, piles, space);
  }

  /** The updates of the three indexes of a row when a card comes to column x >= 0. */
  method RowWith(row: Row, tile: Tile, x: int, listable: bool) returns (r: Row)
    requires x >= 0 && (x % 3 == 2 ==> Base(x) in row.cells)
    ensures r == Insert(row, tile, x, listable)
  {
    hide Unlist;
    var cells, piles, space := row.cells[x := tile], row.piles, row.space;
    if x % 3 == 0 {
      if listable && Listing(tile.name, x) !in piles {
        piles := [Listing(tile.name, x)] + piles;
      }
      if space == x {
        space := EmptyPileAfter(cells, x);
      }
    } else if (x - 2) % 3 == 0 {
      var baseX := x / 3 * 3;
      piles := Unlist(piles, Listing(cells[baseX].name, baseX));
    }
    r := Row(cells, piles, space);
  }

  // ------------------------------------------------------------------ what the methods rely on

  /** The maps after a card called `name` has left the column. */
  function LeftBy(ix: Indexes, name: string, oldX: int, oldY: int): Indexes
  {
    if oldX < 0 then ix else ix.With(oldY, Remove(ix.At(oldY), name, oldX))
  }

  /** The maps after a card has left one column for another. */
  function Updated(ix: Indexes, c: CardRef, card: Card, oldX: int, oldY: int): Indexes
    requires card.x >= 0 && card.x % 3 == 2 ==> Base(card.x) in LeftBy(ix, card.name, oldX, oldY).At(card.y).cells
  {
    var left := LeftBy(ix, card.name, oldX, oldY);
    if card.x < 0 then left else left.With(card.y, Insert(left.At(card.y), Tile(c, card.name), card.x, Listable(card)))
  }

  /** Before the card got its new coordinates everything agreed; nobody else is at the new ones. */
  ghost predicate UpdatedFits(b: Board, c: CardRef, oldX: int, oldY: int)
    requires c in b.heap
  {
    var card := b.heap[c];
    && c in b.cards && Consistent(b.(heap := b.heap[c := card.(x := oldX, y := oldY)]))
    && (card.x >= 0 ==> card.parent.None? && card.x !in LeftBy(b.indexes, card.name, oldX, oldY).At(card.y).cells)
  }

  lemma UpdatedConsistent(b: Board, c: CardRef, oldX: int, oldY: int, ix: Indexes)
    requires c in b.heap && UpdatedFits(b, c, oldX, oldY)
    requires var card := b.heap[c];
             card.x >= 0 && card.x % 3 == 2 ==> Base(card.x) in LeftBy(b.indexes, card.name, oldX, oldY).At(card.y).cells
    requires ix == Updated(b.indexes, c, b.heap[c], oldX, oldY)
    ensures Consistent(b.(indexes := ix))
  {
    hide Distinct; hide Remove; hide Insert;
    var card, left, t := b.heap[c], LeftBy(b.indexes, b.heap[c].name, oldX, oldY), b.(indexes := ix);
    RemoveShape(b.indexes.At(oldY), card.name, oldX);
    RemoveAligned(b.indexes.At(oldY), card.name, oldX);
    forall y
      ensures left.At(y).cells == if y == oldY && oldX >= 0 then b.At(y).cells - {oldX} else b.At(y).cells
      ensures left.At(y).space % 3 == 0
    {
      assert b.(heap := b.heap[c := card.(x := oldX, y := oldY)]).indexes.At(y).space % 3 == 0;
    }
    InsertAligned(left.At(card.y), Tile(c, card.name), card.x, Listable(card));
    forall y
      ensures t.At(y).cells == if y == card.y && card.x >= 0 then left.At(y).cells[card.x := Tile(c, card.name)] else left.At(y).cells
      ensures t.indexes.At(y).space % 3 == 0
    {
      assert left.At(y).space % 3 == 0;
    }
    UpdatedInverse(b, t, left, c, oldX, oldY);
  }

  lemma UpdatedInverse(b: Board, t: Board, left: Indexes, c: CardRef, oldX: int, oldY: int)
    requires c in b.heap && c in b.cards && t.heap == b.heap && t.cards == b.cards
    requires Inverse(b.heap[c := b.heap[c].(x := oldX, y := oldY)], b.cards, b.indexes.coordinateMap)
    requires forall y :: left.At(y).cells == if y == oldY && oldX >= 0 then b.At(y).cells - {oldX} else b.At(y).cells
    requires var card := b.heap[c];
             && (card.x >= 0 ==> card.parent.None? && card.x !in left.At(card.y).cells)
             && forall y :: t.At(y).cells == if y == card.y && card.x >= 0 then left.At(y).cells[card.x := Tile(c, card.name)]
                                             else left.At(y).cells
    ensures Inverse(t.heap, t.cards, t.indexes.coordinateMap)
  {
    var card := b.heap[c];
    var cells := (y: int) => if y == oldY && oldX >= 0 then CellsAt(b.indexes.coordinateMap, y) - {oldX} else CellsAt(b.indexes.coordinateMap, y);
    forall y
      ensures CellsAt(t.indexes.coordinateMap, y) == if y == card.y && card.x >= 0 then cells(y)[card.x := Tile(c, card.name)] else cells(y)
    {
      assert t.At(y).cells == CellsAt(t.indexes.coordinateMap, y) && b.At(y).cells == CellsAt(b.indexes.coordinateMap, y);
      assert left.At(y).cells == cells(y);
    }
    assert left.At(card.y).cells == cells(card.y);
    UpdatedGrid(b.heap, b.cards, b.indexes.coordinateMap, t.indexes.coordinateMap, cells, c, oldX, oldY);
  }

  lemma UpdatedGrid(
    heap: Heap, cards: seq<CardRef>, grid: Grid, after: Grid, cells: int -> map<int, Tile>, c: CardRef, oldX: int, oldY: int)
    requires c in heap && c in cards && Inverse(heap[c := heap[c].(x := oldX, y := oldY)], cards, grid)
    requires forall y :: cells(y) == if y == oldY && oldX >= 0 then CellsAt(grid, y) - {oldX} else CellsAt(grid, y)
    requires heap[c].x >= 0 ==> heap[c].parent.None? && heap[c].x !in cells(heap[c].y)
    requires forall y :: CellsAt(after, y) ==
               if y == heap[c].y && heap[c].x >= 0 then cells(y)[heap[c].x := Tile(c, heap[c].name)] else cells(y)
    ensures Inverse(heap, cards, after)
  {
    var was := heap[c := heap[c].(x := oldX, y := oldY)];
    forall d | d in cards && d in heap && heap[d].x >= 0
      ensures var m := CellsAt(after, heap[d].y); heap[d].x in m && m[heap[d].x] == Tile(d, heap[d].name)
    {
      if d != c {
        assert was[d] == heap[d] && CellsAt(grid, heap[d].y)[heap[d].x] == Tile(d, heap[d].name);
      }
    }
    forall y, x | x in CellsAt(after, y)
      ensures var t := CellsAt(after, y)[x];
              && x >= 0 && t.card in cards && t.card in heap && heap[t.card].parent.None?
              && heap[t.card].x == x && heap[t.card].y == y && heap[t.card].name == t.name
    {
      if !(y == heap[c].y && x == heap[c].x) {
        assert x in CellsAt(grid, y) && x in cells(y);
        var t := CellsAt(grid, y)[x];
        assert was[t.card].x == x && was[t.card].y == y;
        assert t.card != c;
      }
    }
  }

  lemma ArrivalColumn(b: Board, x: int, y: int, name: string, dontStack: bool)
    requires Consistent(b) && (x >= 0 || Indexed(b.At(y)))
    ensures CardsKnown(b.At(y).cells, b.heap)
    ensures var c := FreeColumn(b.At(y), b.heap, x, name, dontStack);
            c !in b.At(y).cells && (c >= 0 && c % 3 == 2 ==> Base(c) in b.At(y).cells)
  {
    RowKnown(b, y);
    SpaceAligned(b, y);
    if x >= 0 {
      ColumnUnused(b, x, y, name, dontStack);
    } else {
      FreeColumnUnused(b.At(y), b.heap, x, name, dontStack);
    }
  }

  lemma PutOnHeap(b: Board, c: CardRef, x: int, y: int)
    requires c in b.heap && (x >= 0 && x % 3 == 2 ==> Base(x) in b.At(y).cells)
    ensures c in PutOn(b, c, x, y).heap
  {
  }

  lemma SpaceEmpty(b: Board, y: int)
    requires AllIndexed(b)
    ensures b.At(y).space >= 0
  {
    assert Indexed(b.At(y));
  }

  lemma {:induction false} AllFixedOneMore(b: Board, places: seq<(int, int)>, spot: (int, int))
    requires Consistent(b) && Threes(places) && spot.0 % 3 == 0
    ensures Consistent(AllFixed(b, places)) && Threes(places + [spot])
    ensures AllFixed(b, places + [spot]) == PlaceFixed(AllFixed(b, places), spot)
    decreases |places|
  {
    hide Consistent; hide PlaceFixed; hide SameLooks; hide RowCompacted;
    AllFixedCompacts(b, places);
    if places == [] {
      PlaceFixedRow(b, spot);
      assert ([] + [spot])[1..] == [];
    } else {
      PlaceFixedRow(b, places[0]);
      AllFixedOneMore(PlaceFixed(b, places[0]), places[1..], spot);
      assert (places + [spot])[1..] == places[1..] + [spot];
    }
  }

  lemma DistinctTail(cs: seq<CardRef>)
    requires Distinct(cs) && cs != []
    ensures Distinct(cs[1..]) && cs[0] !in cs[1..] && cs[0] in cs
  {
  }

  lemma AllTakenOffFirst(b: Board, cs: seq<CardRef>)
    requires Consistent(b) && Distinct(cs) && cs != [] && forall c :: c in cs ==> c in b.cards
    ensures cs[0] in b.cards && cs[0] in b.heap && Consistent(TakenOff(b, cs[0])) && Distinct(cs[1..])
    ensures forall c :: c in cs[1..] ==> c in TakenOff(b, cs[0]).cards
    ensures AllTakenOff(b, cs) == AllTakenOff(TakenOff(b, cs[0]), cs[1..])
  {
    hide TakenOff;
    TakenOffConsistent(b, cs[0]);
    StillListed(b, cs);
  }

  lemma AllTakenOffNone(b: Board)
    requires Consistent(b)
    ensures AllTakenOff(b, []) == b
  {
  }

  class CardZone {
    const store: CardStore
    const place: Place
    var cards: seq<CardRef>
    var coordinateMap: map<int, map<int, Tile>>
    var freePilesMap: map<int, seq<Listing>>
    var freeSpaceMap: map<int, int>

    constructor (store: CardStore, place: Place)
      ensures this.store == store && this.place == place && cards == []
      ensures forall y :: RowAt(y) == EMPTY_ROW
    {
      this.store, this.place := store, place;
      cards, coordinateMap, freePilesMap, freeSpaceMap := [], map[], map[], map[];
    }

    function Maps(): Indexes
      reads this
    {
      Indexes(coordinateMap, freePilesMap, freeSpaceMap)
    }

    function RowAt(y: int): Row
      reads this
    {
      Maps().At(y)
    }

    /** The zone as a value. */
    function Table(): Board
      reads this, store
    {
      Board(place, store.heap, cards, Maps())
    }

    // -------------------------------------------------------------- invariants

    ghost predicate Members()
      reads this, store
    {
      TableZone.Members(store.heap, cards, place)
    }

    ghost predicate Valid()
      reads this, store
    {
      Members() && (HasCoords(place.zone) ==> Consistent(Table()))
    }

    // -------------------------------------------------------------- the coordinate indexes

    method InsertCardIntoCoordMap(card: CardRef, x: int, y: int)
      requires card in store.heap
      requires x >= 0 && x % 3 == 2 ==> Base(x) in RowAt(y).cells
      modifies this`coordinateMap, this`freePilesMap, this`freeSpaceMap
      ensures var c := store.heap[card];
              Maps() == if x < 0 then old(Maps())
                        else old(Maps()).With(y, Insert(old(RowAt(y)), Tile(card, c.name), x, Listable(c)))
    {
      if x < 0 {
        return;
      }
      var c := store.heap[card];
      var row := RowWith(RowAt(y), Tile(card, c.name), x, !c.faceDown && c.attached == []);
      coordinateMap := coordinateMap[y := row.cells];
      freePilesMap := freePilesMap[y := row.piles];
      freeSpaceMap := freeSpaceMap[y := row.space];
    }

    method RemoveCardFromCoordMap(card: CardRef, oldX: int, oldY: int)
      requires card in store.heap
      modifies this`coordinateMap, this`freePilesMap, this`freeSpaceMap
      ensures Maps() == if oldX < 0 then old(Maps())
                        else old(Maps()).With(oldY, Remove(old(RowAt(oldY)), store.heap[card].name, oldX))
    {
      if oldX < 0 {
        return;
      }
      var row := RowWithout(RowAt(oldY), store.heap[card].name, oldX);
      coordinateMap := coordinateMap[oldY := row.cells];
      freePilesMap := freePilesMap[oldY := row.piles];
      freeSpaceMap := freeSpaceMap[oldY := row.space];
    }

    method GetFreeGridColumn(x: int, y: int, cardName: string, dontStackSameName: bool) returns (r: int)
      requires CardsKnown(RowAt(y).cells, store.heap)
      ensures r == FreeColumn(RowAt(y), store.heap, x, cardName, dontStackSameName)
    {
      var row := RowAt(y);
      var coordMap := row.cells;
      if x == -1 {
        if !dontStackSameName && Listed(row.piles, cardName) {
          var base := Lookup(row.piles, cardName) / 3 * 3;
          if base in coordMap
             && (store.heap[coordMap[base].card].faceDown || store.heap[coordMap[base].card].attached != []) {
            return row.space;
          } else if base !in coordMap {
            return base;
          } else if base + 1 !in coordMap {
            return base + 1;
          } else {
            return base + 2;
          }
        }
      } else if x >= 0 {
        var base := x / 3 * 3;
        if base !in coordMap {
          return base;
        } else if store.heap[coordMap[base].card].attached == [] {
          if base + 1 !in coordMap {
            return base + 1;
          } else if base + 2 !in coordMap {
            return base + 2;
          }
        }
        r := base;
        while r in coordMap
          invariant NextFreeBase(coordMap, base) == NextFreeBase(coordMap, r)
          decreases |set c | c in coordMap && r <= c|
        {
          FewerAbove(coordMap, r, r + 3, r);
          r := r + 3;
        }
        return r;
      }
      return row.space;
    }

    /**
     The card has got new coordinates, or not; the old ones are passed on.  If the grid was the inverse
     of the coordinates before the card got its new ones, and nobody else is at these, it is so again.
     */
    method UpdateCardCoordinates(card: CardRef, oldX: int, oldY: int)
      requires card in store.heap && HasCoords(place.zone)
      requires var c := store.heap[card];
               c.x >= 0 && c.x % 3 == 2 ==> Base(c.x) in LeftBy(Maps(), c.name, oldX, oldY).At(c.y).cells
      modifies this`coordinateMap, this`freePilesMap, this`freeSpaceMap
      ensures Maps() == Updated(old(Maps()), card, store.heap[card], oldX, oldY)
      ensures old(UpdatedFits(Table(), card, oldX, oldY)) ==> Consistent(Table())
    {
      if oldX != -1 {
        RemoveCardFromCoordMap(card, oldX, oldY);
      }
      InsertCardIntoCoordMap(card, store.heap[card].x, store.heap[card].y);
      if old(UpdatedFits(Table(), card, oldX, oldY)) {
        UpdatedConsistent(old(Table()), card, oldX, oldY, Maps());
      }
    }

    // -------------------------------------------------------------- the list of cards

    /** A slot in use is overwritten, as in any map; then the card that was there is lost to the grid. */
    method InsertCard(card: CardRef, x: int, y: int)
      requires Members() && card in store.heap && card !in cards
      requires HasCoords(place.zone) && x >= 0 && x % 3 == 2 ==> Base(x) in RowAt(y).cells
      modifies this, store
      ensures Members()
      ensures HasCoords(place.zone) ==> Table() == PutOn(old(Table()), card, x, y)
      ensures HasCoords(place.zone) && old(Valid() && store.heap[card].parent.None? && x !in RowAt(y).cells) ==> Valid()
      ensures !HasCoords(place.zone) ==>
                && Valid() && cards == InsertAt(old(cards), x, card) && Maps() == old(Maps())
                && store.heap == old(store.heap)[card := old(store.heap[card]).(x := 0, y := 0, zone := Some(place))]
    {
      if HasCoords(place.zone) {
        InsertWithCoords(card, x, y);
      } else {
        store.heap := store.heap[card := store.heap[card].(x := 0, y := 0)];
        if 0 <= x < |cards| {
          cards := cards[..x] + [card] + cards[x..];
        } else {
          cards := cards + [card];
        }
        store.heap := store.heap[card := store.heap[card].(zone := Some(place))];
      }
    }

    method InsertWithCoords(card: CardRef, x: int, y: int)
      requires Members() && card in store.heap && card !in cards
      requires x >= 0 && x % 3 == 2 ==> Base(x) in RowAt(y).cells
      modifies this, store
      ensures Members() && Table() == PutOn(old(Table()), card, x, y)
      ensures old(Consistent(Table()) && store.heap[card].parent.None? && x !in RowAt(y).cells) ==> Consistent(Table())
    {
      store.heap := store.heap[card := store.heap[card].(x := x, y := y)];
      cards := cards + [card];
      InsertCardIntoCoordMap(card, x, y);
      store.heap := store.heap[card := store.heap[card].(zone := Some(place))];
      assert store.heap == old(store.heap)[card := old(store.heap[card]).(x := x, y := y, zone := Some(place))];
      if old(Consistent(Table()) && store.heap[card].parent.None? && x !in RowAt(y).cells) {
        PutOnConsistent(old(Table()), card, x, y);
      }
    }

    method RemoveCard(card: CardRef) returns (index: nat)
      requires Valid() && card in cards
      modifies this, store
      ensures Valid() && card !in cards
      ensures index == IndexOf(old(cards), card) && cards == RemoveAt(old(cards), index)
      ensures store.heap == old(store.heap)[card := old(store.heap[card]).(zone := None)]
      ensures HasCoords(place.zone) ==> Table() == TakenOff(old(Table()), card)
      ensures !HasCoords(place.zone) ==> Maps() == old(Maps())
    {
      WithoutFacts(cards, card);
      hide Distinct; hide Inverse; hide Aligned; hide Remove;
      index := IndexOf(cards, card);
      cards := cards[..index] + cards[index + 1..];
      assert cards == Without(old(cards), card);
      hide Without; hide RemoveAt;
      if HasCoords(place.zone) {
        TakenOffConsistent(old(Table()), card);
        RemoveCardFromCoordMap(card, store.heap[card].x, store.heap[card].y);
      }
      store.heap := store.heap[card := store.heap[card].(zone := None)];
    }

    // -------------------------------------------------------------- commands on this table

    /** A card comes to the table: its column is looked up, then it is inserted, then turned. */
    method Arrive(card: CardRef, x: int, y: int, faceDown: bool)
      requires Valid() && HasCoords(place.zone) && card in store.heap && card !in cards && store.heap[card].parent.None?
      requires x >= 0 || Indexed(RowAt(y))
      modifies this, store
      ensures Valid()
      ensures CardsKnown(old(RowAt(y)).cells, old(store.heap)) && old(RowAt(y)).space % 3 == 0
      ensures Table() == Arrived(old(Table()), card, x, y, faceDown)
    {
      hide FreeColumn; hide PutOn; hide Indexed;
      RowKnown(Table(), y);
      SpaceAligned(Table(), y);
      ArrivalColumn(Table(), x, y, store.heap[card].name, faceDown);
      var newX := GetFreeGridColumn(x, y, store.heap[card].name, faceDown);
      PutOnConsistent(Table(), card, newX, y);
      ghost var there := PutOn(Table(), card, newX, y);
      PutOnHeap(Table(), card, newX, y);
      FacedConsistent(there, card, faceDown);
      InsertCard(card, newX, y);
      store.heap := store.heap[card := store.heap[card].(faceDown := faceDown)];
    }

    /** moveCard for one card that stays on this table, without the compaction. */
    method MoveCardOn(card: CardRef, x: int, y: int, faceDown: bool) returns (moved: bool)
      requires Valid() && HasCoords(place.zone) && card in cards && store.heap[card].parent.None?
      requires x >= 0 || AllIndexed(Table())
      modifies this, store
      ensures Valid() && Table() == MovedOn(old(Table()), card, x, y, faceDown)
      ensures moved == !PassedOver(old(RowAt(y)).cells, old(store.heap[card]), x)
    {
      hide FreeColumn; hide TakenOff; hide Arrived; hide Consistent; hide Indexed;
      if store.heap[card].attached != [] && TruncatedBase(x) in RowAt(y).cells {
        return false;
      }
      ghost var before := Table();
      TakenOffConsistent(before, card);
      TakenOffShape(before, card);
      if x < 0 {
        TakenOffLoose(before, card);
      }
      MovedOnIs(before, card, x, y, faceDown);
      var index := RemoveCard(card);
      assert x < 0 ==> Indexed(Table().At(y));
      Arrive(card, x, y, faceDown);
      return true;
    }

    // -------------------------------------------------------------- compaction

    method MoveCardInRow(card: CardRef, x: int, y: int)
      requires Valid() && HasCoords(place.zone) && card in cards && store.heap[card].parent.None? && x >= 0
      modifies this, store
      ensures Valid() && Table() == MovedOn(old(Table()), card, x, y, old(store.heap[card].faceDown))
    {
      var moved := MoveCardOn(card, x, y, store.heap[card].faceDown);
    }

    /** The card in the slot is moved. */
    method MoveSlot(y: int, from: int, to: int)
      requires Valid() && HasCoords(place.zone) && from in RowAt(y).cells && to >= 0
      modifies this, store
      ensures Valid() && Table() == SlotMoved(old(Table()), y, from, to)
    {
      hide Consistent; hide MovedOn;
      TileOwner(Table(), y, from);
      RowKnown(Table(), y);
      MoveCardInRow(RowAt(y).cells[from].card, to, y);
    }

    /** The body of the loop of fixFreeSpaces. */
    method FixPlace(baseX: int, y: int)
      requires Valid() && HasCoords(place.zone)
      modifies this, store
      ensures Valid() && Table() == PlaceFixed(old(Table()), (baseX, y))
    {
      hide Consistent; hide SlotMoved; hide RowReplaced; hide MoveInRow;
      if baseX < 0 {
        return; // no slot left of column 0 is ever in use
      }
      if baseX !in RowAt(y).cells {
        if baseX + 1 in RowAt(y).cells {
          MoveSlot(y, baseX + 1, baseX);
        } else if baseX + 2 in RowAt(y).cells {
          MoveSlot(y, baseX + 2, baseX);
          return;
        } else {
          return;
        }
      }
      if baseX + 1 !in RowAt(y).cells && baseX + 2 in RowAt(y).cells {
        MoveSlot(y, baseX + 2, baseX + 1);
      }
    }

    /** fixFreeSpaces: visits, in any order, every pile in which a card lies. */
    method FixFreeSpaces() returns (ghost places: seq<(int, int)>)
      requires Valid()
      modifies this, store
      ensures Valid()
      ensures HasCoords(place.zone) ==>
                && old(Consistent(Table())) && Visits(old(Table()), places)
                && Table() == AllFixed(old(Table()), places)
      ensures !HasCoords(place.zone) ==> cards == old(cards) && store.heap == old(store.heap) && Maps() == old(Maps())
    {
      places := [];
      if !HasCoords(place.zone) {
        return;
      }
      hide Consistent; hide PlaceFixed; hide RowCompacted; hide SameLooks;
      ghost var start := Table();
      var placesToLook := set c | c in cards :: (TruncatedBase(store.heap[c].x), store.heap[c].y);
      ghost var all := placesToLook;
      while placesToLook != {}
        invariant Valid() && Threes(places) && Table() == AllFixed(start, places)
        invariant forall p :: p in placesToLook ==> p.0 % 3 == 0
        invariant forall p :: p in all ==> p in placesToLook || p in places
        decreases placesToLook
      {
        var spot :| spot in placesToLook;
        AllFixedOneMore(start, places, spot);
        FixPlace(spot.0, spot.1);
        placesToLook := placesToLook - {spot};
        places := places + [spot];
      }
    }

    /** The whole move of one card on this table; nothing happens when it is passed over. */
    method ShiftCard(card: CardRef, x: int, y: int, faceDown: bool) returns (moved: bool, ghost places: seq<(int, int)>)
      requires Valid() && HasCoords(place.zone) && card in cards && store.heap[card].parent.None?
      requires x >= 0 || AllIndexed(Table())
      modifies this, store
      ensures Valid() && Threes(places)
      ensures old(Consistent(Table())) && Consistent(MovedOn(old(Table()), card, x, y, faceDown))
      ensures moved ==> Visits(MovedOn(old(Table()), card, x, y, faceDown), places)
      ensures moved == !PassedOver(old(RowAt(y)).cells, old(store.heap[card]), x)
      ensures Table() == Shifted(old(Table()), card, x, y, faceDown, places)
    {
      hide Consistent; hide AllFixed; hide PassedOver; hide Indexed; hide TakenOff; hide Arrived;
      places := [];
      moved := MoveCardOn(card, x, y, faceDown);
      if moved {
        places := FixFreeSpaces();
      }
    }

    /** Cards leave the table for elsewhere, then it is compacted. */
    method Depart(cs: seq<CardRef>) returns (ghost places: seq<(int, int)>)
      requires Valid() && HasCoords(place.zone) && Distinct(cs) && forall c :: c in cs ==> c in cards
      modifies this, store
      ensures Valid()
      ensures old(Consistent(Table())) && Consistent(AllTakenOff(old(Table()), cs))
      ensures Visits(AllTakenOff(old(Table()), cs), places) && Table() == Departed(old(Table()), cs, places)
    {
      hide Consistent; hide TakenOff; hide AllFixed;
      ghost var start := Table();
      for i := 0 to |cs|
        invariant Valid() && Distinct(cs[i..]) && forall c :: c in cs[i..] ==> c in cards
        invariant AllTakenOff(Table(), cs[i..]) == AllTakenOff(start, cs)
      {
        assert cs[i..][0] == cs[i] && cs[i..][1..] == cs[i + 1..];
        DistinctTail(cs[i..]);
        AllTakenOffFirst(Table(), cs[i..]);
        var index := RemoveCard(cs[i]);
      }
      assert cs[|cs|..] == [];
      AllTakenOffNone(Table());
      places := FixFreeSpaces();
    }

    /** cmdAttachCard for two cards of this table, after its checks and once the card has lost its own children. */
    method AttachCard(card: CardRef, target: CardRef) returns (ghost first: seq<(int, int)>, ghost places: seq<(int, int)>)
      requires Valid() && HasCoords(place.zone) && card in cards && target in cards && card != target
      requires store.heap[target].parent.None? && LinkKnown(Table(), card)
      requires Good(Table())
      modifies this, store
      ensures Valid() && Threes(first) && Threes(places)
      ensures old(LinkKnown(Table(), card))
      ensures var before := Unhooked(old(Table()), card);
              && card in before.heap && target in before.heap && Consistent(before) && card in before.cards && target in before.cards
              && AttachReady(before, card, target, first) && AttachVisits(before, card, target, first, places)
              && Table() == AttachedHere(before, card, target, first, places)
    {
      hide Consistent; hide AllFixed; hide MovedOn; hide Remove; hide AllSettled; hide AllAlone; hide TakenOff;
      hide Indexed;
      ghost var before := Unhooked(Table(), card);
      UnhookedGood(Table(), card);
      hide Unhooked; hide LinkKnown;
      HungConsistent(before, card, target);
      HungIndexed(before, card, target);
      Hang(card, target);
      first := [];
      var c := store.heap[target];
      if TruncatedBase(c.x) + 1 in RowAt(c.y).cells {
        SpaceEmpty(Table(), c.y);
        var moved := MoveCardOn(target, RowAt(c.y).space, c.y, c.faceDown);
        ghost var aside := Table();
        if c.faceDown {
          first := FixFreeSpaces();
        }
      }
      places := FixFreeSpaces();
    }

    /** setParentCard, setCoords and updateCardCoordinates. */
    method Hang(card: CardRef, target: CardRef)
      requires Valid() && HasCoords(place.zone) && card in cards && target in store.heap && card != target
      requires LinkKnown(Table(), card)
      modifies this, store
      ensures Valid() && old(LinkKnown(Table(), card))
      ensures card in Unhooked(old(Table()), card).heap && target in Unhooked(old(Table()), card).heap
      ensures Table() == Hung(Unhooked(old(Table()), card), card, target)
    {
      hide Consistent; hide Remove; hide ZoneLists.RemoveAt;
      Unhook(card);
      HungConsistent(Table(), card, target);
      var oldX, oldY := store.heap[card].x, store.heap[card].y;
      store.heap := store.heap[card := store.heap[card].(parent := Some(target))];
      store.heap := store.heap[target := store.heap[target].(attached := store.heap[target].attached + [card])];
      store.heap := store.heap[card := store.heap[card].(x := -1)];
      UpdateCardCoordinates(card, oldX, oldY);
      assert store.heap == Hung(Unhooked(old(Table()), card), card, target).heap;
    }

    /** removeAttachedCard of the old parent. */
    method Unhook(card: CardRef)
      requires Valid() && HasCoords(place.zone) && card in cards && LinkKnown(Table(), card)
      modifies store
      ensures Valid() && old(LinkKnown(Table(), card)) && Table() == Unhooked(old(Table()), card)
      ensures store.heap[card].parent.None?
    {
      hide Remove;
      if store.heap[card].parent.Some? {
        var o := store.heap[card].parent.value;
        FreedConsistent(Table(), card, o);
        store.heap := store.heap[o := store.heap[o].(attached := RemoveAt(store.heap[o].attached, IndexOf(store.heap[o].attached, card)))];
        store.heap := store.heap[card := store.heap[card].(parent := None)];
        assert store.heap == Freed(old(Table()), card, o).heap;
      }
    }

    // -------------------------------------------------------------- looking up and shuffling

    /** Hidden zones are addressed by position, all others by card id. */
    method GetCard(id: int, remove: bool) returns (r: Option<(CardRef, nat)>)
      requires Members()
      requires remove ==> !HasCoords(place.zone)
      modifies this, store
      ensures Members()
      ensures r.Some? ==> var (card, i) := r.value;
                && i < |old(cards)| && old(cards)[i] == card
                && (if TypeOf(place.zone) == HiddenZone then i == id
                    else old(store.heap[card]).id == id
                         && forall k :: 0 <= k < i ==> old(cards[k] in store.heap && store.heap[cards[k]].id != id))
                && (remove ==> cards == RemoveAt(old(cards), i)
                               && store.heap == old(store.heap)[card := old(store.heap[card]).(zone := None)])
      ensures r.None? ==>
                if TypeOf(place.zone) == HiddenZone then !(0 <= id < |cards|)
                else forall c :: c in cards ==> store.heap[c].id != id
      ensures r.None? || !remove ==> cards == old(cards) && store.heap == old(store.heap)
      ensures coordinateMap == old(coordinateMap) && freePilesMap == old(freePilesMap) && freeSpaceMap == old(freeSpaceMap)
    {
      var position: nat;
      if TypeOf(place.zone) != HiddenZone {
        position := 0;
        while position < |cards| && store.heap[cards[position]].id != id
          invariant position <= |cards|
          invariant forall k :: 0 <= k < position ==> cards[k] in store.heap && store.heap[cards[k]].id != id
        {
          position := position + 1;
        }
        if position == |cards| {
          return None;
        }
      } else {
        if id >= |cards| || id < 0 {
          return None;
        }
        position := id;
      }
      var card := cards[position];
      if remove {
        cards := cards[..position] + cards[position + 1..];
        store.heap := store.heap[card := store.heap[card].(zone := None)];
      }
      return Some((card, position));
    }

    /** Negative positions count from the end of the zone. */
    function FromEnd(position: int): int
      reads this
    {
      if position < 0 then position + |cards| else position
    }

    lemma SameCardsSameZone(before: seq<CardRef>, after: seq<CardRef>)
      requires multiset(before) == multiset(after) && Distinct(before)
      ensures Distinct(after) && forall c :: c in before <==> c in after
    {
      DistinctByMultiset(before);
      DistinctByMultiset(after);
      assert forall c :: c in before <==> c in multiset(before);
      assert forall c :: c in after <==> c in multiset(after);
    }

    /** Swaps the card at i with one at a random position in [start, i]. */
    method SwapWithRandom(start: nat, i: nat, rng: Generator) returns (ok: bool)
      requires Valid() && rng.Valid() && start < i < |cards| <= 0x7FFF_FFFF
      modifies this`cards, rng
      ensures rng.Valid() && Valid() && multiset(cards) == old(multiset(cards)) && |cards| == |old(cards)|
      ensures var k := FirstAccepted(rng.words, old(rng.pos), start, i);
              if k == |rng.words| then !ok && cards == old(cards)
              else ok && rng.pos == k + 1 && start <= Sample(rng.words[k], start, i) <= i
                   && cards == Swap(old(cards), Sample(rng.words[k], start, i), i)
    {
      var j := rng.Rand(start, i);
      if j.Err? {
        return false;
      }
      SwapKeepsCards(cards, j.value, i);
      SameCardsSameZone(cards, Swap(cards, j.value, i));
      cards := cards[j.value := cards[i]][i := cards[j.value]];
      return true;
    }

    /** Shuffles the cards from `start` to `end`; ok is false when the generator's words run out. */
    method Shuffle(start: int, end: int, rng: Generator) returns (ok: bool)
      requires Valid() && rng.Valid() && |cards| <= 0x7FFF_FFFF
      modifies this`cards, rng
      ensures rng.Valid()
      ensures multiset(cards) == old(multiset(cards)) && Valid()
      ensures var (s, e) := (old(FromEnd(start)), old(FromEnd(end)));
              if |old(cards)| < 2 || !(0 <= s < |old(cards)| && 0 <= e < |old(cards)|)
              then ok && cards == old(cards) && rng.pos == old(rng.pos)
              else var d := Drawn(rng.words, old(rng.pos), s, e);
                && ok == d.Some?
                && (ok ==> ValidChoices(d.value.0, s, e)
                           && cards == Shuffled(old(cards), s, e, d.value.0) && rng.pos == d.value.1)
    {
      if |cards| < 2 {
        return true;
      }
      var e := if end < 0 then end + |cards| else end;
      var s := if start < 0 then start + |cards| else start;
      if s < 0 || e < 0 || s >= |cards| || e >= |cards| {
        return true;
      }
      ok := ShuffleSlice(s, e, rng);
    }

    /** The loop of shuffle, from the last position of the slice downwards. */
    method ShuffleSlice(s: nat, e: nat, rng: Generator) returns (ok: bool)
      requires Valid() && rng.Valid() && s < |cards| && e < |cards| <= 0x7FFF_FFFF
      modifies this`cards, rng
      ensures rng.Valid() && Valid() && multiset(cards) == old(multiset(cards))
      ensures var d := Drawn(rng.words, old(rng.pos), s, e);
              && ok == d.Some?
              && (ok ==> ValidChoices(d.value.0, s, e)
                         && cards == Shuffled(old(cards), s, e, d.value.0) && rng.pos == d.value.1)
    {
      ok := RunSwapLoop(s, e, rng);
      SwapLoopShuffles(old(cards), rng.words, old(rng.pos), s, e);
    }

    method RunSwapLoop(s: nat, e: nat, rng: Generator) returns (ok: bool)
      requires Valid() && rng.Valid() && s < |cards| && e < |cards| <= 0x7FFF_FFFF
      modifies this`cards, rng
      ensures rng.Valid() && Valid() && multiset(cards) == old(multiset(cards))
      ensures var r := SwapLoop(old(cards), rng.words, old(rng.pos), s, e);
              ok == r.Some? && (ok ==> r.value == (cards, rng.pos))
    {
      ghost var result := SwapLoop(cards, rng.words, rng.pos, s, e);
      var i := e;
      while i > s
        invariant i <= e && |cards| == |old(cards)|
        invariant rng.Valid() && Valid() && multiset(cards) == old(multiset(cards))
        invariant result == SwapLoop(cards, rng.words, rng.pos, s, i)
        decreases i
      {
        ok := SwapWithRandom(s, i, rng);
        if !ok {
          return;
        }
        i := i - 1;
      }
      ok := true;
    }
  }
}

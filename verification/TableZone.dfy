/**
 A table zone as a value: its cards, their coordinates and the three indexes of every row, with what
 the server's operations make of them.  Class CardZone performs the same operations in place.
 */
module TableZone {
  import opened Wrappers
  import opened Cards
  import opened PileRow
  import opened PileRowProofs
  import opened Compaction
  import opened RowMoves
  import opened Shuffling
  import opened ZoneLists

  type Grid = map<int, map<int, Tile>>

  function CellsAt(grid: Grid, y: int): map<int, Tile>
  {
    if y in grid then grid[y] else map[]
  }

  /** The three maps; a missing entry reads as an empty map, an empty multi-map and 0. */
  datatype Indexes = Indexes(coordinateMap: Grid, freePilesMap: map<int, seq<Listing>>, freeSpaceMap: map<int, int>) {
    function At(y: int): Row
    {
      Row(CellsAt(coordinateMap, y),
          if y in freePilesMap then freePilesMap[y] else [],
          if y in freeSpaceMap then freeSpaceMap[y] else 0)
    }

    function With(y: int, row: Row): (r: Indexes)
      ensures r.At(y) == row && forall z :: z != y ==> r.At(z) == At(z)
    {
      Indexes(coordinateMap[y := row.cells], freePilesMap[y := row.piles], freeSpaceMap[y := row.space])
    }
  }

  datatype Board = Board(place: Place, heap: Heap, cards: seq<CardRef>, indexes: Indexes) {
    function At(y: int): Row
    {
      indexes.At(y)
    }
  }

  // ------------------------------------------------------------------ the invariants

  /** The grid is exactly the inverse of the coordinates of the cards with x >= 0, none of which is attached. */
  ghost predicate Inverse(heap: Heap, cards: seq<CardRef>, grid: Grid)
  {
    && (forall c :: c in cards && c in heap && heap[c].x >= 0 ==>
          var cells := CellsAt(grid, heap[c].y);
          heap[c].x in cells && cells[heap[c].x] == Tile(c, heap[c].name))
    && (forall y, x :: x in CellsAt(grid, y) ==>
          var t := CellsAt(grid, y)[x];
          && x >= 0 && t.card in cards && t.card in heap && heap[t.card].parent.None?
          && heap[t.card].x == x && heap[t.card].y == y && heap[t.card].name == t.name)
  }

  /** The listed cards exist, are listed once, and know the zone they are in. */
  ghost predicate Members(heap: Heap, cards: seq<CardRef>, place: Place)
  {
    Distinct(cards) && forall c :: c in cards ==> c in heap && heap[c].zone == Some(place)
  }

  ghost predicate Aligned(ix: Indexes)
  {
    forall y :: ix.At(y).space % 3 == 0
  }

  /** Holds at all times: list, zone fields and grid agree, and the first empty piles are piles. */
  ghost predicate Consistent(b: Board)
  {
    Members(b.heap, b.cards, b.place) && Inverse(b.heap, b.cards, b.indexes.coordinateMap) && Aligned(b.indexes)
  }

  ghost predicate AllIndexed(b: Board)
  {
    forall y :: Indexed(b.At(y))
  }

  ghost predicate AllSettled(b: Board)
  {
    forall y :: Settled(b.At(y))
  }

  ghost predicate AllAlone(b: Board)
  {
    forall y :: ParentsAlone(b.At(y).cells, b.heap)
  }

  /** Between two commands: the indexes of every row are right, there are no gaps, and parents are alone. */
  ghost predicate Good(b: Board)
  {
    Consistent(b) && AllSettled(b) && AllAlone(b)
  }

  /** Within a command: there may be gaps waiting for compaction. */
  ghost predicate Loose(b: Board)
  {
    Consistent(b) && AllIndexed(b) && AllAlone(b)
  }

  lemma RowKnown(b: Board, y: int)
    requires Consistent(b)
    ensures CardsKnown(b.At(y).cells, b.heap)
  {
  }

  lemma GoodIsLoose(b: Board)
    requires Good(b)
    ensures Loose(b)
  {
  }

  /** Two cards never share a slot. */
  lemma NoSharing(b: Board, c: CardRef, d: CardRef)
    requires Consistent(b) && c in b.cards && d in b.cards
    ensures c in b.heap && d in b.heap
    ensures b.heap[c].x >= 0 && b.heap[c].x == b.heap[d].x && b.heap[c].y == b.heap[d].y ==> c == d
  {
  }

  /** The heaps hold the same cards and differ at most in coordinates and zone fields. */
  ghost predicate SameLooks(a: Heap, b: Heap)
  {
    a.Keys == b.Keys && forall c :: c in a ==> b[c] == a[c].(x := b[c].x, y := b[c].y, zone := b[c].zone)
  }

  lemma SameLooksTransitive(a: Heap, b: Heap, c: Heap)
    requires SameLooks(a, b) && SameLooks(b, c)
    ensures SameLooks(a, c)
  {
  }

  lemma SameLooksSameColumn(a: Heap, b: Heap, row: Row, x: int, name: string, dontStack: bool)
    requires SameLooks(a, b) && CardsKnown(row.cells, a)
    ensures CardsKnown(row.cells, b)
    ensures FreeColumn(row, a, x, name, dontStack) == FreeColumn(row, b, x, name, dontStack)
  {
  }

  lemma SameLooksSameMove(a: Heap, b: Heap, row: Row, from: int, to: int)
    requires SameLooks(a, b) && CardsKnown(row.cells, a) && from in row.cells && to >= 0
    ensures CardsKnown(row.cells, b)
    ensures MoveInRow(row, a, from, to) == MoveInRow(row, b, from, to)
  {
    var t := row.cells[from];
    SameLooksSameColumn(a, b, Remove(row, t.name, from), to, t.name, a[t.card].faceDown);
  }

  lemma SameLooksSameFix(a: Heap, b: Heap, row: Row, p: int)
    requires SameLooks(a, b) && CardsKnown(row.cells, a) && p >= 0 && p % 3 == 0
    ensures CardsKnown(row.cells, b)
    ensures FixPile(row, a, p) == FixPile(row, b, p)
  {
    hide MoveInRow; hide SameLooks; hide CardsKnown;
    if p !in row.cells && p + 1 !in row.cells {
      if p + 2 in row.cells {
        SameLooksSameMove(a, b, row, p + 2, p);
      } else {
        SameLooksSameColumn(a, b, row, 0, "", false);
      }
    } else {
      SameLooksSameColumn(a, b, row, 0, "", false);
      var r := row;
      if p !in row.cells {
        SameLooksSameMove(a, b, row, p + 1, p);
        MoveKeepsOthers(row, a, p + 1, p, p);
        r := MoveInRow(row, a, p + 1, p);
      }
      if p + 1 !in r.cells && p + 2 in r.cells {
        SameLooksSameMove(a, b, r, p + 2, p + 1);
      }
    }
  }

  lemma SameLooksSameBurdens(cells: map<int, Tile>, a: Heap, b: Heap)
    requires SameLooks(a, b) && CardsKnown(cells, a)
    ensures SameBurdens(cells, a, b)
  {
  }

  // ------------------------------------------------------------------ removeCard and insertCard

  /** removeCard. */
  function TakenOff(b: Board, c: CardRef): Board
    requires c in b.cards && c in b.heap
  {
    var card := b.heap[c];
    Board(b.place, b.heap[c := card.(zone := None)], Without(b.cards, c),
          if card.x < 0 then b.indexes else b.indexes.With(card.y, Remove(b.At(card.y), card.name, card.x)))
  }

  /** insertCard. */
  function PutOn(b: Board, c: CardRef, x: int, y: int): Board
    requires c in b.heap && (x >= 0 && x % 3 == 2 ==> Base(x) in b.At(y).cells)
  {
    var card := b.heap[c];
    Board(b.place, b.heap[c := card.(x := x, y := y, zone := Some(b.place))], b.cards + [c],
          if x < 0 then b.indexes else b.indexes.With(y, Insert(b.At(y), Tile(c, card.name), x, Listable(card))))
  }

  lemma TakenOffRows(b: Board, c: CardRef)
    requires c in b.cards && c in b.heap
    ensures var t, card := TakenOff(b, c), b.heap[c];
            && t.At(card.y) == Remove(b.At(card.y), card.name, card.x)
            && forall y :: y != card.y ==> t.At(y) == b.At(y)
  {
  }

  lemma TakenOffConsistent(b: Board, c: CardRef)
    requires Consistent(b) && c in b.cards
    ensures c in b.heap && Consistent(TakenOff(b, c)) && c !in TakenOff(b, c).cards
  {
    WithoutFacts(b.cards, c);
    var t, card := TakenOff(b, c), b.heap[c];
    TakenOffRows(b, c);
    RemoveAligned(b.At(card.y), card.name, card.x);
    hide Remove; hide Without; hide Distinct;
    if card.x >= 0 {
      RemovedCells(b.At(card.y), card.name, card.x);
    }
    forall y
      ensures t.At(y).cells == if y == card.y && card.x >= 0 then b.At(y).cells - {card.x} else b.At(y).cells
      ensures t.At(y).space % 3 == 0
    {
      assert b.indexes.At(y).space % 3 == 0;
    }
    TakenOffInverse(b, t, c);
  }

  lemma TakenOffInverse(b: Board, t: Board, c: CardRef)
    requires Consistent(b) && c in b.cards && c in b.heap && c !in t.cards && (forall d :: d in b.cards <==> d in t.cards || d == c)
    requires t.heap == b.heap[c := b.heap[c].(zone := None)]
    requires forall y :: t.At(y).cells == if y == b.heap[c].y && b.heap[c].x >= 0 then b.At(y).cells - {b.heap[c].x} else b.At(y).cells
    ensures Inverse(t.heap, t.cards, t.indexes.coordinateMap)
  {
    hide Members; hide Aligned;
    var grid, after := b.indexes.coordinateMap, t.indexes.coordinateMap;
    assert forall y :: CellsAt(after, y) == t.At(y).cells && CellsAt(grid, y) == b.At(y).cells;
  }

  lemma RemoveAligned(row: Row, name: string, x: int)
    requires row.space % 3 == 0
    ensures Remove(row, name, x).space % 3 == 0
  {
    hide Unlist;
  }

  lemma InsertAligned(row: Row, t: Tile, x: int, listable: bool)
    requires row.space % 3 == 0 && (x >= 0 && x % 3 == 2 ==> Base(x) in row.cells)
    ensures Insert(row, t, x, listable).space % 3 == 0
    ensures Insert(row, t, x, listable).cells == if x < 0 then row.cells else row.cells[x := t]
  {
    hide Unlist;
  }

  lemma PutOnRows(b: Board, c: CardRef, x: int, y: int)
    requires c in b.heap && (x >= 0 && x % 3 == 2 ==> Base(x) in b.At(y).cells)
    ensures var t, card := PutOn(b, c, x, y), b.heap[c];
            && t.At(y) == Insert(b.At(y), Tile(c, card.name), x, Listable(card))
            && forall z :: z != y ==> t.At(z) == b.At(z)
  {
  }

  /** A card that is under no other one may be put into any slot nobody uses, or beside the grid. */
  lemma PutOnConsistent(b: Board, c: CardRef, x: int, y: int)
    requires Consistent(b) && c in b.heap && c !in b.cards && b.heap[c].parent.None?
    requires x !in b.At(y).cells && (x >= 0 && x % 3 == 2 ==> Base(x) in b.At(y).cells)
    ensures Consistent(PutOn(b, c, x, y))
  {
    var t, card := PutOn(b, c, x, y), b.heap[c];
    PutOnRows(b, c, x, y);
    assert b.indexes.At(y).space % 3 == 0;
    InsertAligned(b.At(y), Tile(c, card.name), x, Listable(card));
    hide Insert; hide Listable;
    forall z
      ensures t.At(z).cells == if z == y && x >= 0 then b.At(z).cells[x := Tile(c, card.name)] else b.At(z).cells
      ensures t.indexes.At(z).space % 3 == 0
    {
      assert b.indexes.At(z).space % 3 == 0;
    }
    PutOnInverse(b, t, c, x, y);
    PutOnMembers(b, t, c, x, y);
  }

  lemma PutOnMembers(b: Board, t: Board, c: CardRef, x: int, y: int)
    requires Consistent(b) && c in b.heap && c !in b.cards && t.place == b.place && t.cards == b.cards + [c]
    requires t.heap == b.heap[c := b.heap[c].(x := x, y := y, zone := Some(b.place))]
    ensures Members(t.heap, t.cards, t.place)
  {
    hide Inverse; hide Aligned;
  }

  lemma PutOnInverse(b: Board, t: Board, c: CardRef, x: int, y: int)
    requires Consistent(b) && c in b.heap && c !in b.cards && b.heap[c].parent.None? && t.cards == b.cards + [c]
    requires t.heap == b.heap[c := b.heap[c].(x := x, y := y, zone := Some(b.place))] && x !in b.At(y).cells
    requires forall z :: t.At(z).cells == if z == y && x >= 0 then b.At(z).cells[x := Tile(c, b.heap[c].name)] else b.At(z).cells
    ensures Inverse(t.heap, t.cards, t.indexes.coordinateMap)
  {
    hide Members; hide Aligned;
    var grid, after := b.indexes.coordinateMap, t.indexes.coordinateMap;
    assert forall z :: CellsAt(after, z) == t.At(z).cells && CellsAt(grid, z) == b.At(z).cells;
  }

  // ------------------------------------------------------------------ arriving

  function Faced(b: Board, c: CardRef, faceDown: bool): Board
    requires c in b.heap
  {
    b.(heap := b.heap[c := b.heap[c].(faceDown := faceDown)])
  }

  /** drawCryptCards: a card comes face down to the table, beside the grid, and under no other card. */
  function Beside(b: Board, c: CardRef): Board
    requires c in b.heap
  {
    PutOn(Faced(b, c, true), c, -1, 0)
  }

  lemma BesideGood(b: Board, c: CardRef)
    requires Good(b) && c in b.heap && c !in b.cards && b.heap[c].parent.None?
    ensures Good(Beside(b, c))
  {
    hide Indexed; hide GapFree; hide ParentsAlone;
    var t := Beside(b, c);
    assert Consistent(t) by {
      FacedConsistent(b, c, true);
      RowKnown(b, 0);
      assert Settled(b.At(0));
      NoSlotMinusOne(b.At(0));
      hide Consistent; hide AllSettled; hide AllAlone;
      PutOnConsistent(Faced(b, c, true), c, -1, 0);
    }
    forall y
      ensures Settled(t.At(y)) && ParentsAlone(t.At(y).cells, t.heap)
    {
      assert Settled(b.At(y)) && ParentsAlone(b.At(y).cells, b.heap) && t.At(y) == b.At(y);
      RowKnown(b, y);
      OneChangedBurdens(b.At(y).cells, b.heap, t.heap, c);
      SameBurdensAlone(b.At(y).cells, b.heap, t.heap);
    }
  }

  lemma NoSlotMinusOne(row: Row)
    requires Indexed(row)
    ensures -1 !in row.cells
  {
  }

  /** A card comes to the table at the column the server finds for the request, and gets its face. */
  function Arrived(b: Board, c: CardRef, x: int, y: int, faceDown: bool): Board
    requires c in b.heap && CardsKnown(b.At(y).cells, b.heap) && b.At(y).space % 3 == 0
  {
    Faced(PutOn(b, c, FreeColumn(b.At(y), b.heap, x, b.heap[c].name, faceDown), y), c, faceDown)
  }

  lemma FacedConsistent(b: Board, c: CardRef, faceDown: bool)
    requires Consistent(b) && c in b.heap
    ensures Consistent(Faced(b, c, faceDown))
  {
  }

  lemma ArrivedConsistent(b: Board, c: CardRef, x: int, y: int, faceDown: bool)
    requires Consistent(b) && c in b.heap && c !in b.cards && b.heap[c].parent.None?
    requires FreeColumn(b.At(y), b.heap, x, b.heap[c].name, faceDown) !in b.At(y).cells
    ensures b.At(y).space % 3 == 0 && CardsKnown(b.At(y).cells, b.heap)
    ensures Consistent(Arrived(b, c, x, y, faceDown))
  {
    hide FreeColumn;
    assert b.indexes.At(y).space % 3 == 0;
    RowKnown(b, y);
    var column := FreeColumn(b.At(y), b.heap, x, b.heap[c].name, faceDown);
    PutOnConsistent(b, c, column, y);
    FacedConsistent(PutOn(b, c, column, y), c, faceDown);
  }

  lemma ArrivedRows(b: Board, c: CardRef, x: int, y: int, faceDown: bool)
    requires c in b.heap && CardsKnown(b.At(y).cells, b.heap) && b.At(y).space % 3 == 0
    ensures var t, card := Arrived(b, c, x, y, faceDown), b.heap[c];
            var column := FreeColumn(b.At(y), b.heap, x, card.name, faceDown);
            && (column >= 0 && column % 3 == 2 ==> Base(column) in b.At(y).cells)
            && t.At(y) == Insert(b.At(y), Tile(c, card.name), column, Listable(card))
            && (forall z :: z != y ==> t.At(z) == b.At(z))
            && t.heap == b.heap[c := card.(x := column, y := y, zone := Some(b.place), faceDown := faceDown)]
            && t.cards == b.cards + [c] && t.place == b.place
  {
    hide FreeColumn;
    var column := FreeColumn(b.At(y), b.heap, x, b.heap[c].name, faceDown);
    PutOnRows(b, c, column, y);
    hide Insert;
  }

  /** What a change of one card that keeps its attachments means for the burdens in any slots. */
  lemma OneChangedBurdens(cells: map<int, Tile>, a: Heap, b: Heap, c: CardRef)
    requires CardsKnown(cells, a) && c in a && c in b && b == a[c := b[c]]
    requires b[c].attached == a[c].attached && b[c].parent == a[c].parent
    ensures SameBurdens(cells, a, b)
  {
  }

  /**
   A card under no other one that arrives on a good table leaves it good exactly if it carries no
   attachments itself or the request does not put it on other cards.
   */
  lemma ArrivedGoodIff(b: Board, c: CardRef, x: int, y: int, faceDown: bool)
    requires Good(b) && c in b.heap && c !in b.cards && b.heap[c].parent.None?
    ensures CardsKnown(b.At(y).cells, b.heap) && b.At(y).space % 3 == 0
    ensures var column := FreeColumn(b.At(y), b.heap, x, b.heap[c].name, faceDown);
            && NextSlotOfPile(b.At(y).cells, column)
            && Consistent(Arrived(b, c, x, y, faceDown)) && AllSettled(Arrived(b, c, x, y, faceDown))
            && (Good(Arrived(b, c, x, y, faceDown))
                <==> b.heap[c].attached == [] || !JoinsOthers(b.At(y), b.heap, x, b.heap[c].name, faceDown))
  {
    hide JoinsOthers;
    hide FreeColumn; hide Insert; hide Consistent; hide Arrived; hide Settled; hide ParentsAlone; hide NextSlotOfPile; hide Listable;
    RowKnown(b, y);
    var card := b.heap[c];
    var t, column := Tile(c, card.name), FreeColumn(b.At(y), b.heap, x, card.name, faceDown);
    assert Settled(b.At(y)) && ParentsAlone(b.At(y).cells, b.heap);
    FreeColumnIsNextSlot(b.At(y), b.heap, x, card.name, faceDown);
    NextSlotIsSafe(b.At(y), t, column, Listable(card));
    InsertedCells(b.At(y), t, column, Listable(card));
    ArrivalKeepsAloneIff(b.At(y), b.heap, t, x, faceDown);
    ArrivedConsistent(b, c, x, y, faceDown);
    ArrivedRows(b, c, x, y, faceDown);
    var r := Arrived(b, c, x, y, faceDown);
    forall z
      ensures Settled(r.At(z))
    {
      assert Settled(b.At(z));
    }
    RowKnown(r, y);
    MoreBurdens(b.At(y).cells[column := t], r.heap, b.heap, c);
    forall z | z != y
      ensures ParentsAlone(r.At(z).cells, r.heap)
    {
      assert ParentsAlone(b.At(z).cells, b.heap);
      RowKnown(b, z);
      OneChangedBurdens(b.At(z).cells, b.heap, r.heap, c);
      SameBurdensAlone(b.At(z).cells, b.heap, r.heap);
    }
  }

  lemma MoreBurdens(cells: map<int, Tile>, a: Heap, b: Heap, c: CardRef)
    requires CardsKnown(cells, a) && c in a && c in b && a == b[c := a[c]]
    requires b[c].attached == a[c].attached && b[c].parent == a[c].parent
    ensures ParentsAlone(cells, a) <==> ParentsAlone(cells, b)
  {
    assert b == a[c := b[c]];
    OneChangedBurdens(cells, a, b, c);
    SameBurdensAlone(cells, a, b);
  }

  // ------------------------------------------------------------------ moving on the table, compaction

  /** moveCard from the table to itself for one card, before any compaction. */
  function MovedOn(b: Board, c: CardRef, x: int, y: int, faceDown: bool): Board
    requires c in b.cards && Consistent(b)
  {
    TakenOffConsistent(b, c);
    var taken := TakenOff(b, c);
    RowKnown(taken, y);
    assert taken.indexes.At(y).space % 3 == 0;
    if PassedOver(b.At(y).cells, b.heap[c], x) then b
    else Arrived(taken, c, x, y, faceDown)
  }

  lemma MovedOnPassedOver(b: Board, c: CardRef, x: int, y: int, faceDown: bool)
    requires Consistent(b) && c in b.cards && c in b.heap && PassedOver(b.At(y).cells, b.heap[c], x)
    ensures MovedOn(b, c, x, y, faceDown) == b
  {
  }

  /** Moving a card in its row does to the row what MoveInRow says, and nothing to other rows or other fields. */
  lemma MovedInRow(b: Board, c: CardRef, x: int)
    requires Consistent(b) && c in b.cards && c in b.heap && b.heap[c].x >= 0 && x >= 0
    ensures var card := b.heap[c];
            var t := MovedOn(b, c, x, card.y, card.faceDown);
            && Consistent(t) && SameLooks(b.heap, t.heap) && multiset(t.cards) == multiset(b.cards) && t.place == b.place
            && card.x in b.At(card.y).cells && b.At(card.y).cells[card.x] == Tile(c, card.name)
            && CardsKnown(b.At(card.y).cells, b.heap)
            && t.At(card.y) == MoveInRow(b.At(card.y), b.heap, card.x, x)
            && forall z :: z != card.y ==> t.At(z) == b.At(z)
  {
    hide FreeColumn; hide Insert; hide Remove; hide Consistent; hide Arrived; hide TakenOff; hide Listable;
    var card := b.heap[c];
    OwnTile(b, c);
    RowKnown(b, card.y);
    if !PassedOver(b.At(card.y).cells, card, x) {
      TakenOffConsistent(b, c);
      var taken := TakenOff(b, c);
      TakenOffShape(b, c);
      TakenOffRows(b, c);
      RowKnown(taken, card.y);
      SpaceAligned(taken, card.y);
      SameLooksSameColumn(b.heap, taken.heap, taken.At(card.y), x, card.name, card.faceDown);
      ColumnUnused(taken, x, card.y, card.name, card.faceDown);
      ArrivedConsistent(taken, c, x, card.y, card.faceDown);
      ArrivedRows(taken, c, x, card.y, card.faceDown);
      ListableShape(card);
    }
  }

  lemma ListableShape(card: Card)
    ensures Listable(card) <==> !card.faceDown && card.attached == []
    ensures Listable(card.(zone := None)) == Listable(card)
  {
  }

  lemma SpaceAligned(b: Board, y: int)
    requires Consistent(b)
    ensures b.At(y).space % 3 == 0
  {
    assert b.indexes.At(y).space % 3 == 0;
  }

  lemma ColumnUnused(b: Board, x: int, y: int, name: string, dontStack: bool)
    requires Consistent(b) && x >= 0
    ensures CardsKnown(b.At(y).cells, b.heap) && FreeColumn(b.At(y), b.heap, x, name, dontStack) !in b.At(y).cells
  {
    RowKnown(b, y);
  }

  lemma TakenOffShape(b: Board, c: CardRef)
    requires c in b.cards && c in b.heap
    ensures var t := TakenOff(b, c);
            && t.heap == b.heap[c := b.heap[c].(zone := None)] && t.place == b.place
            && multiset(t.cards + [c]) == multiset(b.cards)
            && t.cards == Without(b.cards, c)
            && SameLooks(b.heap, t.heap)
  {
    assert c in multiset(b.cards);
  }

  /** A card is found at its own slot. */
  lemma OwnTile(b: Board, c: CardRef)
    requires Consistent(b) && c in b.cards
    ensures c in b.heap
    ensures var card := b.heap[c];
            card.x >= 0 ==> card.x in b.At(card.y).cells && b.At(card.y).cells[card.x] == Tile(c, card.name)
  {
  }

  /** The card in a slot is listed and has the slot as its coordinates. */
  lemma TileOwner(b: Board, y: int, x: int)
    requires Consistent(b) && x in b.At(y).cells
    ensures var c := b.At(y).cells[x].card;
            c in b.cards && c in b.heap && b.heap[c].x == x && b.heap[c].y == y && x >= 0
  {
    assert x in CellsAt(b.indexes.coordinateMap, y);
  }

  /** moveCardInRow for the card in slot `from`. */
  function SlotMoved(b: Board, y: int, from: int, to: int): Board
    requires Consistent(b) && from in b.At(y).cells
  {
    TileOwner(b, y, from);
    var c := b.At(y).cells[from].card;
    MovedOn(b, c, to, y, b.heap[c].faceDown)
  }

  /** What one move of the compaction keeps, row by row. */
  ghost predicate RowReplaced(b: Board, t: Board, y: int, row: Row)
  {
    && Consistent(t) && SameLooks(b.heap, t.heap) && multiset(t.cards) == multiset(b.cards) && t.place == b.place
    && t.At(y) == row
    && forall z :: z != y ==> t.At(z) == b.At(z)
  }

  lemma SlotMovedRow(b: Board, y: int, from: int, to: int)
    requires Consistent(b) && from in b.At(y).cells && to >= 0
    ensures CardsKnown(b.At(y).cells, b.heap)
    ensures RowReplaced(b, SlotMoved(b, y, from, to), y, MoveInRow(b.At(y), b.heap, from, to))
  {
    hide Consistent; hide MovedOn; hide MoveInRow; hide SameLooks;
    TileOwner(b, y, from);
    MovedInRow(b, b.At(y).cells[from].card, to);
  }

  /** The body of fixFreeSpaces's loop; no slot left of column 0 is ever in use. */
  function PlaceFixed(b: Board, spot: (int, int)): (t: Board)
    requires Consistent(b)
  {
    hide Consistent; hide SlotMoved; hide RowReplaced; hide MoveInRow;
    var (p, y) := spot;
    if p < 0 then b
    else if p !in b.At(y).cells && p + 1 !in b.At(y).cells then
      if p + 2 in b.At(y).cells then SlotMoved(b, y, p + 2, p) else b
    else
      var first := if p !in b.At(y).cells then SlotMoved(b, y, p + 1, p) else b;
      if p !in b.At(y).cells then
        SlotMovedRow(b, y, p + 1, p);
        ReplacedConsistent(b, first, y, MoveInRow(b.At(y), b.heap, p + 1, p));
        SecondFixed(first, p, y)
      else SecondFixed(b, p, y)
  }

  function SecondFixed(b: Board, p: int, y: int): Board
    requires Consistent(b) && p >= 0
  {
    if p + 1 !in b.At(y).cells && p + 2 in b.At(y).cells then SlotMoved(b, y, p + 2, p + 1) else b
  }

  lemma ReplacedConsistent(b: Board, t: Board, y: int, row: Row)
    requires RowReplaced(b, t, y, row)
    ensures Consistent(t) && SameLooks(b.heap, t.heap) && t.At(y) == row
  {
  }

  lemma NothingReplaced(b: Board, y: int)
    requires Consistent(b)
    ensures RowReplaced(b, b, y, b.At(y))
  {
  }

  lemma ReplacedThen(b: Board, t: Board, u: Board, y: int, row: Row, row': Row)
    requires RowReplaced(b, t, y, row) && RowReplaced(t, u, y, row')
    ensures RowReplaced(b, u, y, row')
  {
    SameLooksTransitive(b.heap, t.heap, u.heap);
    hide SameLooks; hide Consistent;
  }

  lemma SecondFixedRow(b: Board, p: int, y: int)
    requires Consistent(b) && p >= 0
    ensures CardsKnown(b.At(y).cells, b.heap)
    ensures RowReplaced(b, SecondFixed(b, p, y), y,
                        if p + 1 !in b.At(y).cells && p + 2 in b.At(y).cells
                        then MoveInRow(b.At(y), b.heap, p + 2, p + 1) else b.At(y))
  {
    hide Consistent; hide SlotMoved; hide RowReplaced; hide MoveInRow;
    RowKnown(b, y);
    NothingReplaced(b, y);
    if p + 1 !in b.At(y).cells && p + 2 in b.At(y).cells {
      SlotMovedRow(b, y, p + 2, p + 1);
    }
  }

  /** Visiting a place compacts its pile as FixPile says. */
  lemma PlaceFixedRow(b: Board, spot: (int, int))
    requires Consistent(b) && spot.0 % 3 == 0
    ensures CardsKnown(b.At(spot.1).cells, b.heap)
    ensures RowReplaced(b, PlaceFixed(b, spot), spot.1,
                        if spot.0 >= 0 then FixPile(b.At(spot.1), b.heap, spot.0) else b.At(spot.1))
  {
    hide Consistent; hide SlotMoved; hide RowReplaced; hide MoveInRow; hide SecondFixed;
    var (p, y) := spot;
    RowKnown(b, y);
    NothingReplaced(b, y);
    if p >= 0 {
      if p !in b.At(y).cells && p + 1 !in b.At(y).cells {
        if p + 2 in b.At(y).cells {
          SlotMovedRow(b, y, p + 2, p);
        }
      } else if p !in b.At(y).cells {
        var row := MoveInRow(b.At(y), b.heap, p + 1, p);
        var first := SlotMoved(b, y, p + 1, p);
        SlotMovedRow(b, y, p + 1, p);
        ReplacedConsistent(b, first, y, row);
        SecondFixedRow(first, p, y);
        MoveKeepsOthers(b.At(y), b.heap, p + 1, p, p);
        if p + 1 !in row.cells && p + 2 in row.cells {
          SameLooksSameMove(b.heap, first.heap, row, p + 2, p + 1);
          ReplacedThen(b, first, SecondFixed(first, p, y), y, row, MoveInRow(row, first.heap, p + 2, p + 1));
        } else {
          ReplacedThen(b, first, SecondFixed(first, p, y), y, row, row);
        }
      } else {
        SecondFixedRow(b, p, y);
      }
    }
  }

  ghost predicate Threes(places: seq<(int, int)>)
  {
    forall i :: 0 <= i < |places| ==> places[i].0 % 3 == 0
  }

  lemma PlaceFixedConsistent(b: Board, spot: (int, int))
    requires Consistent(b) && spot.0 % 3 == 0
    ensures Consistent(PlaceFixed(b, spot))
  {
    hide Consistent; hide PlaceFixed;
    PlaceFixedRow(b, spot);
  }

  /** fixFreeSpaces, for the order in which the set yields the places to look at. */
  ghost function AllFixed(b: Board, places: seq<(int, int)>): Board
    requires Consistent(b) && Threes(places)
    decreases |places|
  {
    if places == [] then b
    else
      PlaceFixedRow(b, places[0]);
      AllFixed(PlaceFixed(b, places[0]), places[1..])
  }

  /** The piles of one row among the places. */
  function InRow(places: seq<(int, int)>, y: int): (r: seq<int>)
    ensures forall p :: p in r <==> p >= 0 && (p, y) in places
  {
    if places == [] then []
    else (if places[0].0 >= 0 && places[0].1 == y then [places[0].0] else []) + InRow(places[1..], y)
  }

  lemma {:induction false} InRowOrder(places: seq<(int, int)>, y: int)
    requires Threes(places)
    ensures PileOrder(InRow(places, y))
    decreases |places|
  {
    if places != [] {
      InRowOrder(places[1..], y);
    }
  }

  lemma {:induction false} SameLooksSameFixes(a: Heap, b: Heap, row: Row, order: seq<int>)
    requires SameLooks(a, b) && CardsKnown(row.cells, a) && PileOrder(order)
    ensures CardsKnown(row.cells, b)
    ensures FixPiles(row, a, order) == FixPiles(row, b, order)
    decreases |order|
  {
    hide SameLooks; hide CardsKnown; hide FixPile;
    if order == [] {
      SameLooksSameColumn(a, b, row, 0, "", false);
    } else {
      SameLooksSameFix(a, b, row, order[0]);
      FixPileKeepsKnown(row, a, order[0]);
      SameLooksSameFixes(a, b, FixPile(row, a, order[0]), order[1..]);
    }
  }

  /** What compaction does to the table as a whole: every row is compacted, all else but coordinates stays. */
  ghost predicate Compacted(b: Board, t: Board, places: seq<(int, int)>)
    requires Consistent(b) && Threes(places)
  {
    && Consistent(t) && SameLooks(b.heap, t.heap) && multiset(t.cards) == multiset(b.cards) && t.place == b.place
    && forall y :: RowCompacted(b, t, places, y)
  }

  ghost predicate RowCompacted(b: Board, t: Board, places: seq<(int, int)>, y: int)
    requires Consistent(b) && Threes(places)
  {
    InRowOrder(places, y);
    RowKnown(b, y);
    t.At(y) == FixPiles(b.At(y), b.heap, InRow(places, y))
  }

  lemma NothingCompacted(b: Board)
    requires Consistent(b)
    ensures Compacted(b, b, [])
  {
    forall y
      ensures RowCompacted(b, b, [], y)
    {
      assert InRow([], y) == [];
    }
  }

  lemma RowCompactedThen(b: Board, t: Board, u: Board, places: seq<(int, int)>, y: int)
    requires Consistent(b) && Consistent(t) && Threes(places) && places != [] && SameLooks(b.heap, t.heap)
    requires var (p, row) := places[0];
             && CardsKnown(b.At(row).cells, b.heap)
             && t.At(row) == (if p >= 0 then FixPile(b.At(row), b.heap, p) else b.At(row))
             && forall z :: z != row ==> t.At(z) == b.At(z)
    requires RowCompacted(t, u, places[1..], y)
    ensures RowCompacted(b, u, places, y)
  {
    hide Consistent; hide SameLooks; hide FixPile;
    RowKnown(b, y);
    RowKnown(t, y);
    InRowOrder(places, y);
    InRowOrder(places[1..], y);
    SameLooksBack(b.heap, t.heap);
    var rest := InRow(places[1..], y);
    SameLooksSameFixes(t.heap, b.heap, t.At(y), rest);
    if places[0].0 >= 0 && places[0].1 == y {
      assert InRow(places, y) == [places[0].0] + rest;
      assert InRow(places, y)[0] == places[0].0 && InRow(places, y)[1..] == rest;
    } else {
      assert InRow(places, y) == rest;
    }
  }

  lemma SameLooksBack(a: Heap, b: Heap)
    requires SameLooks(a, b)
    ensures SameLooks(b, a)
  {
  }

  lemma {:induction false} AllFixedCompacts(b: Board, places: seq<(int, int)>)
    requires Consistent(b) && Threes(places)
    ensures Compacted(b, AllFixed(b, places), places)
    decreases |places|
  {
    hide Consistent; hide SameLooks; hide PlaceFixed; hide FixPile; hide RowCompacted;
    if places == [] {
      NothingCompacted(b);
    } else {
      PlaceFixedRow(b, places[0]);
      var t := PlaceFixed(b, places[0]);
      AllFixedCompacts(t, places[1..]);
      var u := AllFixed(t, places[1..]);
      SameLooksTransitive(b.heap, t.heap, u.heap);
      forall y
        ensures RowCompacted(b, u, places, y)
      {
        assert RowCompacted(t, u, places[1..], y);
        RowCompactedThen(b, t, u, places, y);
      }
    }
  }

  /** fixFreeSpaces looks at the pile of every card; a card beside the grid stands for the first pile. */
  ghost predicate Visits(b: Board, places: seq<(int, int)>)
  {
    Threes(places) && forall c :: c in b.cards && c in b.heap ==> (TruncatedBase(b.heap[c].x), b.heap[c].y) in places
  }

  lemma VisitsCover(b: Board, places: seq<(int, int)>, y: int)
    requires Consistent(b) && Visits(b, places)
    ensures GapsCovered(b.At(y).cells, InRow(places, y))
  {
    InRowOrder(places, y);
    forall p | p >= 0 && p % 3 == 0 && !PileGapFree(b.At(y).cells, p)
      ensures p in InRow(places, y)
    {
      var x := if p + 1 in b.At(y).cells then p + 1 else p + 2;
      TileOwner(b, y, x);
      var c := b.At(y).cells[x].card;
      assert TruncatedBase(b.heap[c].x) == p;
    }
  }

  lemma SamePilesAlone(a: map<int, Tile>, b: map<int, Tile>, heap: Heap)
    requires SamePiles(a, b) && ParentsAlone(a, heap)
    ensures ParentsAlone(b, heap)
  {
    forall p | p >= 0 && p % 3 == 0
      ensures |PileSeq(b, p)| <= 1 || Unburdened(PileSeq(b, p), heap)
    {
      assert PileSeq(a, p) == PileSeq(b, p);
    }
  }

  lemma LooksAlone(cells: map<int, Tile>, a: Heap, b: Heap)
    requires SameLooks(a, b) && CardsKnown(cells, a)
    ensures ParentsAlone(cells, a) <==> ParentsAlone(cells, b)
  {
    SameLooksSameBurdens(cells, a, b);
    SameBurdensAlone(cells, a, b);
  }

  /** Compaction of a table with nothing but gaps makes it good again, every pile keeping its cards in order. */
  lemma LooseCompacts(b: Board, places: seq<(int, int)>)
    requires Loose(b) && Visits(b, places)
    ensures var t := AllFixed(b, places);
            && Good(t)
            && forall y :: SamePiles(b.At(y).cells, t.At(y).cells) && (GapFree(b.At(y)) ==> t.At(y) == b.At(y))
  {
    hide Consistent; hide SameLooks; hide AllFixed; hide ParentsAlone; hide Indexed; hide GapFree; hide SamePiles;
    var t := AllFixed(b, places);
    AllFixedCompacts(b, places);
    forall y
      ensures Settled(t.At(y)) && ParentsAlone(t.At(y).cells, t.heap)
      ensures SamePiles(b.At(y).cells, t.At(y).cells) && (GapFree(b.At(y)) ==> t.At(y) == b.At(y))
    {
      RowKnown(b, y);
      VisitsCover(b, places, y);
      assert Indexed(b.At(y)) && ParentsAlone(b.At(y).cells, b.heap) && RowCompacted(b, t, places, y);
      AloneIsClosable(b.At(y).cells, b.heap);
      FixPilesCloses(b.At(y), b.heap, InRow(places, y));
      SamePilesAlone(b.At(y).cells, t.At(y).cells, b.heap);
      LooksAlone(t.At(y).cells, b.heap, t.heap);
    }
  }
}

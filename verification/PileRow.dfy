/**
 One row (one y) of a table zone: the slots in use and the two incremental indexes that
 Server_CardZone keeps beside them (common/server_cardzone.cpp).  Columns are grouped in piles
 of three; a pile is named by its leftmost column, a multiple of three.
 */
module PileRow {
  import opened Cards
  import opened Collections

  /** What a slot holds: a card, together with its name, which never changes. */
  datatype Tile = Tile(card: CardRef, name: string)

  /** An entry of freePilesMap[y]: cards called `name` may be stacked on the pile at `base`. */
  datatype Listing = Listing(name: string, base: int)

  /** coordinateMap[y], freePilesMap[y] (most recently inserted first) and freeSpaceMap[y]. */
  datatype Row = Row(cells: map<int, Tile>, piles: seq<Listing>, space: int)

  const EMPTY_ROW := Row(map[], [], 0)

  /** x / 3 * 3 for the columns in use; C++ division agrees for x >= 0. */
  function Base(x: int): int
  {
    x / 3 * 3
  }

  predicate PileFull(cells: map<int, Tile>, b: int)
  {
    b in cells && b + 1 in cells && b + 2 in cells
  }

  predicate PileEmpty(cells: map<int, Tile>, b: int)
  {
    b !in cells && b + 1 !in cells && b + 2 !in cells
  }

  predicate NameAt(cells: map<int, Tile>, name: string, x: int)
  {
    x in cells && cells[x].name == name
  }

  predicate NameInPile(cells: map<int, Tile>, name: string, b: int)
  {
    NameAt(cells, name, b) || NameAt(cells, name, b + 1) || NameAt(cells, name, b + 2)
  }

  // ------------------------------------------------------------------ multi-map of listings

  function Unlist(piles: seq<Listing>, l: Listing): (r: seq<Listing>)
    ensures forall m :: m in r <==> m in piles && m != l
    ensures l !in piles ==> r == piles
  {
    if piles == [] then []
    else if piles[0] == l then Unlist(piles[1..], l)
    else [piles[0]] + Unlist(piles[1..], l)
  }

  /** The most recently inserted base for a name. */
  function Lookup(piles: seq<Listing>, name: string): (b: int)
    requires exists l :: l in piles && l.name == name
    ensures Listing(name, b) in piles
  {
    if piles[0].name == name then piles[0].base else Lookup(piles[1..], name)
  }

  predicate Listed(piles: seq<Listing>, name: string)
  {
    exists l :: l in piles && l.name == name
  }

  // ------------------------------------------------------------------ the two search loops

  lemma FewerAbove(cells: map<int, Tile>, lo: int, hi: int, k: int)
    requires k in cells && lo <= k < hi
    ensures |set c | c in cells && hi <= c| < |set c | c in cells && lo <= c|
  {
    var above := set c | c in cells && hi <= c;
    var all := set c | c in cells && lo <= c;
    assert above <= all - {k};
    SubsetSize(above, all - {k});
  }

  /** The first wholly empty pile at or after x. */
  function NextEmptyPile(cells: map<int, Tile>, x: int): (b: int)
    ensures x <= b && (b - x) % 3 == 0 && PileEmpty(cells, b)
    ensures forall p :: x <= p < b && (p - x) % 3 == 0 ==> !PileEmpty(cells, p)
    decreases |set c | c in cells && x <= c|
  {
    if PileEmpty(cells, x) then x
    else
      var k := if x in cells then x else if x + 1 in cells then x + 1 else x + 2;
      FewerAbove(cells, x, x + 3, k);
      NextEmptyPile(cells, x + 3)
  }

  /** The first pile at or after x whose leftmost slot is unused. */
  function NextFreeBase(cells: map<int, Tile>, x: int): (b: int)
    ensures x <= b && (b - x) % 3 == 0 && b !in cells
    ensures forall p :: x <= p < b && (p - x) % 3 == 0 ==> p in cells
    decreases |set c | c in cells && x <= c|
  {
    if x !in cells then x
    else
      FewerAbove(cells, x, x + 3, x);
      NextFreeBase(cells, x + 3)
  }

  // ------------------------------------------------------------------ insert, remove, find

  /**
   insertCardIntoCoordMap.  `listable`: the card is face up and carries no attached cards.
   Filling a third slot reads the name of the bottom card, which therefore has to exist.
   */
  function Insert(row: Row, t: Tile, x: int, listable: bool): Row
    requires x >= 0 && x % 3 == 2 ==> Base(x) in row.cells
  {
    if x < 0 then row
    else
      var cells := row.cells[x := t];
      if x % 3 == 0 then
        Row(cells,
            if listable && Listing(t.name, x) !in row.piles then [Listing(t.name, x)] + row.piles else row.piles,
            if row.space == x then NextEmptyPile(cells, x + 3) else row.space)
      else if x % 3 == 2 then
        Row(cells, Unlist(row.piles, Listing(cells[Base(x)].name, Base(x))), row.space)
      else
        Row(cells, row.piles, row.space)
  }

  /** removeCardFromCoordMap, for a card called `name` that sits (or sat) at column x. */
  function Remove(row: Row, name: string, x: int): Row
  {
    if x < 0 then row
    else
      var b := Base(x);
      var listed := if PileFull(row.cells, b) then [Listing(row.cells[b].name, b)] + row.piles else row.piles;
      var cells := row.cells - {x};
      Row(cells,
          if NameInPile(cells, name, b) then listed else Unlist(listed, Listing(name, b)),
          if PileEmpty(cells, b) && b < row.space then b else row.space)
  }

  /** The cards in the slots exist and hang under no other card: attached cards have left their slots. */
  predicate CardsKnown(cells: map<int, Tile>, heap: Heap)
  {
    forall x :: x in cells ==> cells[x].card in heap && heap[cells[x].card].parent.None?
  }

  /** getFreeGridColumn: the column at which a card called `name` is put when x is asked for. */
  function FreeColumn(row: Row, heap: Heap, x: int, name: string, dontStackSameName: bool): (r: int)
    requires CardsKnown(row.cells, heap)
    ensures x >= 0 ==> r >= 0 && r !in row.cells
    ensures x >= 0 || row.space % 3 == 0 ==> (r % 3 != 0 ==> Base(r) in row.cells)
  {
    if x == -1 then
      if !dontStackSameName && Listed(row.piles, name) then
        var b := Base(Lookup(row.piles, name));
        assert b % 3 == 0 && Base(b + 1) == b && Base(b + 2) == b;
        if b in row.cells && (heap[row.cells[b].card].faceDown || heap[row.cells[b].card].attached != []) then
          row.space
        else if b !in row.cells then b
        else if b + 1 !in row.cells then b + 1
        else b + 2
      else row.space
    else if x >= 0 then
      var b := Base(x);
      assert b % 3 == 0 && Base(b + 1) == b && Base(b + 2) == b;
      if b !in row.cells then b
      else if heap[row.cells[b].card].attached != [] then NextFreeBase(row.cells, b)
      else if b + 1 !in row.cells then b + 1
      else if b + 2 !in row.cells then b + 2
      else NextFreeBase(row.cells, b)
    else row.space
  }

  // ------------------------------------------------------------------ compaction

  /** x / 3 * 3 as C++ computes it: division rounds towards zero. */
  function TruncatedBase(x: int): (b: int)
    ensures x >= 0 ==> b == Base(x)
    ensures b % 3 == 0
  {
    if x < 0 then -(-x / 3 * 3) else x / 3 * 3
  }

  /** isColumnEmpty: nothing lies at the bottom of the pile of x. */
  predicate ColumnEmpty(cells: map<int, Tile>, x: int)
  {
    TruncatedBase(x) !in cells
  }

  /** moveCard passes a card over that carries attachments and is to go where the bottom slot is taken. */
  predicate PassedOver(cells: map<int, Tile>, card: Card, x: int)
  {
    card.attached != [] && !ColumnEmpty(cells, x)
  }

  /** moveCardInRow: take the card out of its slot and put it at the column found for `to`. */
  function MoveInRow(row: Row, heap: Heap, from: int, to: int): Row
    requires CardsKnown(row.cells, heap) && from in row.cells && to >= 0
  {
    var t := row.cells[from];
    var card := heap[t.card];
    if PassedOver(row.cells, card, to) then row
    else
      var taken := Remove(row, t.name, from);
      Insert(taken, t, FreeColumn(taken, heap, to, t.name, card.faceDown), !card.faceDown && card.attached == [])
  }

  /** The body of fixFreeSpaces for one pile. */
  function FixPile(row: Row, heap: Heap, b: int): Row
    requires CardsKnown(row.cells, heap) && b >= 0
  {
    if b !in row.cells && b + 1 !in row.cells then
      if b + 2 in row.cells then MoveInRow(row, heap, b + 2, b) else row
    else
      var r := if b !in row.cells then MoveInRow(row, heap, b + 1, b) else row;
      if b + 1 !in r.cells && b + 2 in r.cells then MoveInRow(r, heap, b + 2, b + 1) else r
  }

  /** The cards of a pile from left to right. */
  function PileSeq(cells: map<int, Tile>, b: int): seq<Tile>
  {
    (if b in cells then [cells[b]] else [])
    + (if b + 1 in cells then [cells[b + 1]] else [])
    + (if b + 2 in cells then [cells[b + 2]] else [])
  }

  // ------------------------------------------------------------------ the index invariant

  /** freeSpaceMap[y] is the least pile with three unused slots. */
  ghost predicate SpaceIsFirstEmpty(row: Row)
  {
    && row.space >= 0 && row.space % 3 == 0 && PileEmpty(row.cells, row.space)
    && forall b :: 0 <= b < row.space && b % 3 == 0 ==> !PileEmpty(row.cells, b)
  }

  /** Every listing is a pile with room that holds a card of the listed name. */
  ghost predicate ListingOk(cells: map<int, Tile>, l: Listing)
  {
    l.base >= 0 && l.base % 3 == 0 && !PileFull(cells, l.base) && NameInPile(cells, l.name, l.base)
  }

  ghost predicate ListingsOk(row: Row)
  {
    forall l :: l in row.piles ==> ListingOk(row.cells, l)
  }

  /** A listed pile whose bottom slot is in use is listed under the bottom card's name. */
  ghost predicate ListedByBottom(row: Row)
  {
    forall l :: l in row.piles && l.base in row.cells ==> row.cells[l.base].name == l.name
  }

  ghost predicate NoNegative(row: Row)
  {
    forall x :: x in row.cells ==> x >= 0
  }

  /** Holds at all times, also while a pile has a gap waiting for compaction. */
  ghost predicate Indexed(row: Row)
  {
    NoNegative(row) && SpaceIsFirstEmpty(row) && ListingsOk(row) && ListedByBottom(row)
  }

  /** The cards of a pile fill its slots from the left. */
  ghost predicate PileGapFree(cells: map<int, Tile>, b: int)
  {
    (b + 1 in cells ==> b in cells) && (b + 2 in cells ==> b in cells && b + 1 in cells)
  }

  ghost predicate GapFree(row: Row)
  {
    forall b :: b >= 0 && b % 3 == 0 ==> PileGapFree(row.cells, b)
  }

  /** The state between two commands: indexes right, no gaps. */
  ghost predicate Settled(row: Row)
  {
    Indexed(row) && GapFree(row)
  }
}

/** What the row operations keep, and exactly when. */
module PileRowProofs {
  import opened Cards
  import opened PileRow

  // ------------------------------------------------------------------ removal

  /** A listing that is right for a row's cells: its pile has room, and a bottom card bears its name. */
  ghost predicate RightListing(cells: map<int, Tile>, l: Listing)
  {
    ListingOk(cells, l) && (l.base in cells ==> cells[l.base].name == l.name)
  }

  lemma RemoveKeepsOtherListing(row: Row, name: string, x: int, l: Listing)
    requires x >= 0 && RightListing(row.cells, l) && l.base != Base(x)
    ensures RightListing(Remove(row, name, x).cells, l)
  {
    hide Unlist;
    var b := Base(x);
    assert x == b || x == b + 1 || x == b + 2;
    assert l.base + 2 < b || b + 2 < l.base;
  }

  lemma RemoveKeepsOwnListing(row: Row, name: string, x: int, l: Listing)
    requires NameAt(row.cells, name, x) && RightListing(row.cells, l) && x >= 0 && l.base == Base(x)
    requires l in Remove(row, name, x).piles
    ensures RightListing(Remove(row, name, x).cells, l)
  {
    var b := Base(x);
    assert x == b || x == b + 1 || x == b + 2;
  }

  lemma RemoveAddsListing(row: Row, name: string, x: int, l: Listing)
    requires NameAt(row.cells, name, x) && x >= 0
    requires l !in row.piles && l in Remove(row, name, x).piles
    ensures RightListing(Remove(row, name, x).cells, l)
  {
    var b := Base(x);
    assert x == b || x == b + 1 || x == b + 2;
    assert l == Listing(row.cells[b].name, b) && PileFull(row.cells, b);
  }

  lemma RemoveListings(row: Row, name: string, x: int, l: Listing)
    requires Indexed(row) && NameAt(row.cells, name, x)
    requires l in Remove(row, name, x).piles
    ensures RightListing(Remove(row, name, x).cells, l)
  {
    hide Remove;
    if l !in row.piles {
      RemoveAddsListing(row, name, x, l);
    } else if l.base != Base(x) {
      RemoveKeepsOtherListing(row, name, x, l);
    } else {
      RemoveKeepsOwnListing(row, name, x, l);
    }
  }

  /** Taking a card off the table never damages an index, gaps or not. */
  lemma RemoveKeepsIndexed(row: Row, name: string, x: int)
    requires Indexed(row)
    requires x >= 0 ==> NameAt(row.cells, name, x)
    ensures Indexed(Remove(row, name, x))
  {
    if x >= 0 {
      var r := Remove(row, name, x);
      var b := Base(x);
      assert x == b || x == b + 1 || x == b + 2;
      forall l | l in r.piles
        ensures ListingOk(r.cells, l)
        ensures l.base in r.cells ==> r.cells[l.base].name == l.name
      {
        RemoveListings(row, name, x, l);
      }
      forall p | 0 <= p < r.space && p % 3 == 0
        ensures !PileEmpty(r.cells, p)
      {
        assert !PileEmpty(row.cells, p);
        assert p != b ==> p + 2 < b || b + 2 < p;
      }
    }
  }

  // ------------------------------------------------------------------ insertion

  /** Does the pile of x become full when x is filled? */
  predicate Completes(cells: map<int, Tile>, x: int)
  {
    PileFull(cells[x := Tile(0, "")], Base(x))
  }

  predicate PileListed(row: Row, b: int)
  {
    exists l :: l in row.piles && l.base == b
  }

  /**
   When insertion at an unused slot keeps all three indexes right: a middle slot may not open the
   first empty pile, a bottom card may not go under cards listed by another name, and - the case
   the code does not look at - the hole that makes a pile full must be the third slot unless the
   pile is unlisted and stays so.
   */
  predicate SafeSlot(row: Row, t: Tile, x: int, listable: bool)
  {
    && (x % 3 == 1 ==> row.space != Base(x))
    && (x % 3 == 0 ==> forall l :: l in row.piles && l.base == x ==> l.name == t.name)
    && (Completes(row.cells, x) && x % 3 != 2 ==> !PileListed(row, Base(x)) && !(x % 3 == 0 && listable))
  }

  lemma InsertListings(row: Row, t: Tile, x: int, listable: bool, l: Listing)
    requires Indexed(row) && x >= 0 && x !in row.cells && (x % 3 == 2 ==> Base(x) in row.cells)
    requires SafeSlot(row, t, x, listable)
    requires l in Insert(row, t, x, listable).piles
    ensures ListingOk(Insert(row, t, x, listable).cells, l)
    ensures l.base in Insert(row, t, x, listable).cells
            ==> Insert(row, t, x, listable).cells[l.base].name == l.name
  {
    var r := Insert(row, t, x, listable);
    var b := Base(x);
    assert x == b || x == b + 1 || x == b + 2;
    if l in row.piles {
      assert ListingOk(row.cells, l);
      assert l.base != b ==> l.base + 2 < b || b + 2 < l.base;
      assert l.base == b ==> PileListed(row, b);
    }
  }

  lemma InsertKeepsSpace(row: Row, t: Tile, x: int, listable: bool)
    requires Indexed(row) && x >= 0 && x !in row.cells && (x % 3 == 2 ==> Base(x) in row.cells)
    ensures SpaceIsFirstEmpty(Insert(row, t, x, listable)) <==> (x % 3 == 1 ==> row.space != Base(x))
  {
    hide NextEmptyPile; hide Unlist;
    if x % 3 == 1 && row.space == Base(x) {
      assert !PileEmpty(Insert(row, t, x, listable).cells, row.space);
    } else {
      InsertFillsSpace(row, t, x, listable);
    }
  }

  lemma InsertFillsSpace(row: Row, t: Tile, x: int, listable: bool)
    requires Indexed(row) && x >= 0 && x !in row.cells && (x % 3 == 2 ==> Base(x) in row.cells)
    requires x % 3 == 1 ==> row.space != Base(x)
    ensures SpaceIsFirstEmpty(Insert(row, t, x, listable))
  {
    hide Unlist; hide ListingsOk; hide ListedByBottom;
    var r := Insert(row, t, x, listable);
    assert PileEmpty(r.cells, r.space);
    forall p | 0 <= p < r.space && p % 3 == 0
      ensures !PileEmpty(r.cells, p)
    {
      if p < row.space {
        assert !PileEmpty(row.cells, p);
      } else if p > row.space {
        assert (p - (x + 3)) % 3 == 0;
      }
    }
  }

  lemma InsertBreaks(row: Row, t: Tile, x: int, listable: bool)
    requires Indexed(row) && x >= 0 && x !in row.cells && (x % 3 == 2 ==> Base(x) in row.cells)
    requires Indexed(Insert(row, t, x, listable))
    ensures SafeSlot(row, t, x, listable)
  {
    InsertKeepsSpace(row, t, x, listable);
    var r := Insert(row, t, x, listable);
    var b := Base(x);
    if x % 3 == 0 {
      forall l | l in row.piles && l.base == x
        ensures l.name == t.name
      {
        assert l in r.piles;
      }
    }
    assert x % 3 == 0 && listable ==> Listing(t.name, x) in r.piles;
    assert Completes(row.cells, x) ==> PileFull(r.cells, b);
  }

  /** Insertion keeps the indexes exactly at safe slots. */
  lemma InsertKeepsIndexedIff(row: Row, t: Tile, x: int, listable: bool)
    requires Indexed(row) && x >= 0 && x !in row.cells && (x % 3 == 2 ==> Base(x) in row.cells)
    ensures Indexed(Insert(row, t, x, listable)) <==> SafeSlot(row, t, x, listable)
  {
    if SafeSlot(row, t, x, listable) {
      InsertKeepsSpace(row, t, x, listable);
      var r := Insert(row, t, x, listable);
      forall l | l in r.piles
        ensures ListingOk(r.cells, l)
        ensures l.base in r.cells ==> r.cells[l.base].name == l.name
      {
        InsertListings(row, t, x, listable, l);
      }
    }
    if Indexed(Insert(row, t, x, listable)) {
      InsertBreaks(row, t, x, listable);
    }
  }

  // ------------------------------------------------------------------ choosing a column

  /** The slot is unused and filling it leaves its pile without a gap. */
  ghost predicate NextSlotOfPile(cells: map<int, Tile>, x: int)
  {
    && x >= 0 && x !in cells
    && (x % 3 == 0 ==> x + 1 !in cells && x + 2 !in cells)
    && (x % 3 == 1 ==> x - 1 in cells && x + 1 !in cells)
    && (x % 3 == 2 ==> x - 2 in cells && x - 1 in cells)
  }

  lemma NotFullNextSlot(row: Row, b: int, x: int)
    requires Settled(row) && b >= 0 && b % 3 == 0 && !PileFull(row.cells, b)
    requires x == if b !in row.cells then b else if b + 1 !in row.cells then b + 1 else b + 2
    ensures NextSlotOfPile(row.cells, x)
  {
    assert PileGapFree(row.cells, b);
    assert x % 3 == x - b;
  }

  lemma FreeBaseIsNext(row: Row, b: int)
    requires Settled(row) && b >= 0 && b % 3 == 0 && b !in row.cells
    ensures NextSlotOfPile(row.cells, b)
  {
    assert PileGapFree(row.cells, b);
  }

  lemma ListedColumn(row: Row, heap: Heap, name: string)
    requires Settled(row) && CardsKnown(row.cells, heap) && Listed(row.piles, name)
    ensures NextSlotOfPile(row.cells, FreeColumn(row, heap, -1, name, false))
  {
    hide NextFreeBase; hide NextEmptyPile;
    var r := FreeColumn(row, heap, -1, name, false);
    FreeBaseIsNext(row, row.space);
    var base := Lookup(row.piles, name);
    assert ListingOk(row.cells, Listing(name, base));
    assert Base(base) == base;
    if r != row.space {
      NotFullNextSlot(row, base, r);
    }
  }

  lemma AskedColumn(row: Row, heap: Heap, x: int, name: string, dontStack: bool)
    requires Settled(row) && CardsKnown(row.cells, heap) && x >= 0
    ensures NextSlotOfPile(row.cells, FreeColumn(row, heap, x, name, dontStack))
    ensures !PileFull(row.cells, Base(x))
            && (Base(x) in row.cells ==> heap[row.cells[Base(x)].card].attached == [])
            ==> Base(FreeColumn(row, heap, x, name, dontStack)) == Base(x)
  {
    hide Settled; hide NextFreeBase; hide NextSlotOfPile;
    var r, b := FreeColumn(row, heap, x, name, dontStack), Base(x);
    assert b % 3 == 0 && b >= 0;
    if b !in row.cells {
      FreeBaseIsNext(row, b);
    } else if heap[row.cells[b].card].attached != [] || PileFull(row.cells, b) {
      assert (r - b) % 3 == 0;
      FreeBaseIsNext(row, r);
    } else {
      NotFullNextSlot(row, b, r);
    }
  }

  /**
   Whatever column is asked for, getFreeGridColumn returns an unused slot that continues its pile;
   a column that was asked for is granted, as far as its own pile has room and may be stacked on.
   */
  lemma FreeColumnIsNextSlot(row: Row, heap: Heap, x: int, name: string, dontStack: bool)
    requires Settled(row) && CardsKnown(row.cells, heap)
    ensures NextSlotOfPile(row.cells, FreeColumn(row, heap, x, name, dontStack))
    ensures x >= 0 && !PileFull(row.cells, Base(x))
            && (Base(x) in row.cells ==> heap[row.cells[Base(x)].card].attached == [])
            ==> Base(FreeColumn(row, heap, x, name, dontStack)) == Base(x)
    ensures x < -1 || (x == -1 && dontStack) ==> FreeColumn(row, heap, x, name, dontStack) == row.space
  {
    if x == -1 && !dontStack && Listed(row.piles, name) {
      ListedColumn(row, heap, name);
    } else if x >= 0 {
      AskedColumn(row, heap, x, name, dontStack);
    } else {
      FreeBaseIsNext(row, row.space);
    }
  }

  /** What happens to the row when a card is put on the table. */
  function Put(row: Row, heap: Heap, t: Tile, x: int, dontStack: bool, listable: bool): Row
    requires Settled(row) && CardsKnown(row.cells, heap)
  {
    FreeColumnIsNextSlot(row, heap, x, t.name, dontStack);
    Insert(row, t, FreeColumn(row, heap, x, t.name, dontStack), listable)
  }

  lemma NextSlotIsSafe(row: Row, t: Tile, x: int, listable: bool)
    requires Settled(row) && NextSlotOfPile(row.cells, x)
    ensures SafeSlot(row, t, x, listable)
    ensures Settled(Insert(row, t, x, listable))
  {
    var b := Base(x);
    assert x == b || x == b + 1 || x == b + 2;
    if x % 3 == 0 {
      assert forall l :: l in row.piles ==> ListingOk(row.cells, l) && l.base != x;
    }
    InsertKeepsIndexedIff(row, t, x, listable);
    var r := Insert(row, t, x, listable);
    forall p | p >= 0 && p % 3 == 0
      ensures PileGapFree(r.cells, p)
    {
      assert PileGapFree(row.cells, p);
      assert p != b ==> p + 2 < b || b + 2 < p;
    }
  }

  /** Cards arriving at the columns the server chooses keep the table settled. */
  lemma PutKeepsSettled(row: Row, heap: Heap, t: Tile, x: int, dontStack: bool, listable: bool)
    requires Settled(row) && CardsKnown(row.cells, heap)
    ensures Settled(Put(row, heap, t, x, dontStack, listable))
    ensures exists slot :: slot !in row.cells && Put(row, heap, t, x, dontStack, listable).cells == row.cells[slot := t]
  {
    FreeColumnIsNextSlot(row, heap, x, t.name, dontStack);
    NextSlotIsSafe(row, t, FreeColumn(row, heap, x, t.name, dontStack), listable);
  }
}

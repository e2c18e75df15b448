/**
 Which piles of a row are listed for stacking, not only which listings are right: what a removal does
 to the listings, and that a pile stays listed until it is full or its bottom card is touched, so that
 the next card of its name lands on it.
 */
module Stacking {
  import opened Cards
  import opened PileRow
  import opened PileRowProofs
  import opened Compaction
  import opened RowMoves
  import opened Shuffling
  import opened ZoneLists
  import opened TableZone
  import opened TableSteps
  import TableRuns

  // ------------------------------------------------------------------ removing a card

  /** A card of that name lies in the pile, in another slot than x. */
  predicate AnotherIn(cells: map<int, Tile>, name: string, b: int, x: int)
  {
    || (b in cells && b != x && cells[b].name == name)
    || (b + 1 in cells && b + 1 != x && cells[b + 1].name == name)
    || (b + 2 in cells && b + 2 != x && cells[b + 2].name == name)
  }

  /**
   A removal takes exactly the listing of the pile under the leaving card's name away, and only if no
   other card of that name lies there; it adds exactly the listing of a full pile under its bottom
   card's name, unless that was the leaving card and the last of its name.
   */
  lemma RemovalListings(row: Row, x: int, l: Listing)
    requires x in row.cells && x >= 0
    ensures var b, name := Base(x), row.cells[x].name;
            var gone := l.base == b && l.name == name && !AnotherIn(row.cells, name, b, x);
            l in Remove(row, name, x).piles
            <==> !gone && (l in row.piles || (PileFull(row.cells, b) && l == Listing(row.cells[b].name, b)))
  {
    var b, name := Base(x), row.cells[x].name;
    assert x == b || x == b + 1 || x == b + 2;
    assert NameInPile(row.cells - {x}, name, b) <==> AnotherIn(row.cells, name, b, x);
  }

  /** Under any name but that of a full pile's bottom card, the newest pile listed before is still the newest. */
  lemma {:induction false} UnlistNewest(piles: seq<Listing>, l: Listing, name: string, b: int)
    requires Listing(name, b) != l && Listed(piles, name) && Lookup(piles, name) == b
    ensures Listed(Unlist(piles, l), name) && Lookup(Unlist(piles, l), name) == b
  {
    if piles[0].name != name {
      assert Listed(piles[1..], name) by {
        var m :| m in piles && m.name == name;
        assert m in piles[1..];
      }
      UnlistNewest(piles[1..], l, name, b);
    }
    assert Listing(name, b) in Unlist(piles, l);
  }

  /** So a name keeps its newest pile, unless that pile's listing goes or a full pile with such a bottom card is opened. */
  lemma RemovalNewest(row: Row, x: int, name: string, p: int)
    requires x in row.cells && x >= 0 && Listed(row.piles, name) && Lookup(row.piles, name) == p
    requires !(Base(x) == p && row.cells[x].name == name && !AnotherIn(row.cells, name, p, x))
    requires !(PileFull(row.cells, Base(x)) && row.cells[Base(x)].name == name)
    ensures var after := Remove(row, row.cells[x].name, x).piles; Listed(after, name) && Lookup(after, name) == p
  {
    var b, left := Base(x), row.cells[x].name;
    assert x == b || x == b + 1 || x == b + 2;
    var listed := if PileFull(row.cells, b) then [Listing(row.cells[b].name, b)] + row.piles else row.piles;
    if PileFull(row.cells, b) {
      assert listed[1..] == row.piles;
      assert Listing(name, p) in listed;
    }
    assert NameInPile(row.cells - {x}, left, b) <==> AnotherIn(row.cells, left, b, x);
    if !NameInPile(row.cells - {x}, left, b) {
      UnlistNewest(listed, Listing(left, b), name, p);
    }
  }

  // ------------------------------------------------------------------ a bottom card that is left alone

  /** The card lies at the bottom of the pile, which is listed under its name, or full. */
  ghost predicate Held(row: Row, p: int, t: Tile)
  {
    p >= 0 && p % 3 == 0 && p in row.cells && row.cells[p] == t && (Listing(t.name, p) in row.piles || PileFull(row.cells, p))
  }

  lemma RemovalKeepsHeld(row: Row, x: int, p: int, t: Tile)
    requires Held(row, p, t) && x in row.cells && x >= 0 && x != p
    ensures Held(Remove(row, row.cells[x].name, x), p, t)
  {
    RemovalListings(row, x, Listing(t.name, p));
    RemovedCells(row, row.cells[x].name, x);
    assert Base(x) == p ==> x == p + 1 || x == p + 2;
    assert Base(x) != p ==> x != p + 1 && x != p + 2;
    hide Remove;
  }

  lemma InsertionKeepsHeld(row: Row, u: Tile, x: int, listable: bool, p: int, t: Tile)
    requires Held(row, p, t) && x !in row.cells && (x >= 0 && x % 3 == 2 ==> x - 1 in row.cells && Base(x) in row.cells)
    ensures Held(Insert(row, u, x, listable), p, t)
  {
    assert x % 3 == 2 ==> Base(x) == x - 2;
  }

  /** Nobody is put on top before the middle is taken. */
  lemma MiddleBeforeTop(row: Row, heap: Heap, x: int, name: string, dontStack: bool)
    requires CardsKnown(row.cells, heap) && (x >= 0 || Indexed(row))
    ensures var c := FreeColumn(row, heap, x, name, dontStack);
            c >= 0 && c !in row.cells && (c % 3 == 2 ==> c - 1 in row.cells && Base(c) in row.cells)
  {
    if x < 0 {
      FreeColumnUnused(row, heap, x, name, dontStack);
    }
    var c := FreeColumn(row, heap, x, name, dontStack);
    if c % 3 == 2 {
      var b := if x >= 0 then Base(x) else Base(Lookup(row.piles, name));
      assert b % 3 == 0 && c == b + 2;
    }
  }

  lemma TakenOffHeld(b: Board, c: CardRef, y: int, p: int, t: Tile)
    requires Consistent(b) && c in b.cards && c in b.heap && Held(b.At(y), p, t) && t.card != c
    ensures Held(TakenOff(b, c).At(y), p, t)
  {
    hide Consistent; hide Remove; hide TakenOff; hide Held;
    OwnTile(b, c);
    TakenOffRows(b, c);
    var card := b.heap[c];
    HeldTile(b.At(y), p, t);
    if card.y == y {
      if card.x >= 0 {
        RemovalKeepsHeld(b.At(y), card.x, p, t);
      } else {
        RemoveNothing(b.At(y), card.name, card.x);
      }
    }
  }

  lemma HeldTile(row: Row, p: int, t: Tile)
    requires Held(row, p, t)
    ensures p in row.cells && row.cells[p] == t && p >= 0 && p % 3 == 0
  {
  }

  lemma ArrivedHeld(b: Board, c: CardRef, x: int, z: int, face: bool, y: int, p: int, t: Tile)
    requires Consistent(b) && c in b.heap && (x >= 0 || Indexed(b.At(z))) && Held(b.At(y), p, t)
    ensures CardsKnown(b.At(z).cells, b.heap) && b.At(z).space % 3 == 0
    ensures Held(Arrived(b, c, x, z, face).At(y), p, t)
  {
    hide Consistent; hide FreeColumn; hide Insert; hide Arrived; hide Held; hide Indexed;
    RowKnown(b, z);
    SpaceAligned(b, z);
    ArrivedRows(b, c, x, z, face);
    if y == z {
      MiddleBeforeTop(b.At(z), b.heap, x, b.heap[c].name, face);
      InsertionKeepsHeld(b.At(z), Tile(c, b.heap[c].name), FreeColumn(b.At(z), b.heap, x, b.heap[c].name, face),
                         Listable(b.heap[c]), p, t);
    }
  }

  lemma MovedOnHeld(b: Board, c: CardRef, x: int, z: int, face: bool, y: int, p: int, t: Tile)
    requires Consistent(b) && c in b.cards && c in b.heap && t.card != c && Held(b.At(y), p, t)
    requires x >= 0 || AllIndexed(b)
    ensures Held(MovedOn(b, c, x, z, face).At(y), p, t)
  {
    hide Consistent; hide Held; hide TakenOff; hide Arrived; hide Indexed;
    if PassedOver(b.At(z).cells, b.heap[c], x) {
      MovedOnPassedOver(b, c, x, z, face);
    } else {
      MovedOnIs(b, c, x, z, face);
      TakenOffConsistent(b, c);
      TakenOffHeld(b, c, y, p, t);
      if x < 0 {
        TakenOffLoose(b, c);
        assert Indexed(TakenOff(b, c).At(z));
      }
      ArrivedHeld(TakenOff(b, c), c, x, z, face, y, p, t);
    }
  }

  lemma SlotHeld(b: Board, z: int, from: int, to: int, y: int, p: int, t: Tile)
    requires Consistent(b) && from in b.At(z).cells && to >= 0 && from % 3 != 0 && Held(b.At(y), p, t)
    ensures Consistent(SlotMoved(b, z, from, to)) && Held(SlotMoved(b, z, from, to).At(y), p, t)
  {
    hide Consistent; hide MovedOn; hide Held; hide MoveInRow;
    TileOwner(b, z, from);
    HeldTile(b.At(y), p, t);
    TileOwner(b, y, p);
    SlotMovedRow(b, z, from, to);
    MovedOnHeld(b, b.At(z).cells[from].card, to, z, b.heap[b.At(z).cells[from].card].faceDown, y, p, t);
  }

  lemma PlaceHeld(b: Board, spot: (int, int), y: int, p: int, t: Tile)
    requires Consistent(b) && spot.0 % 3 == 0 && Held(b.At(y), p, t)
    ensures Held(PlaceFixed(b, spot).At(y), p, t)
  {
    hide Consistent; hide SlotMoved; hide Held;
    var (x, z) := spot;
    if x >= 0 {
      if x !in b.At(z).cells && x + 1 !in b.At(z).cells {
        if x + 2 in b.At(z).cells {
          SlotHeld(b, z, x + 2, x, y, p, t);
        }
      } else if x !in b.At(z).cells {
        SlotHeld(b, z, x + 1, x, y, p, t);
        SecondHeld(SlotMoved(b, z, x + 1, x), x, z, y, p, t);
      } else {
        SecondHeld(b, x, z, y, p, t);
      }
    }
  }

  lemma SecondHeld(b: Board, x: int, z: int, y: int, p: int, t: Tile)
    requires Consistent(b) && x >= 0 && x % 3 == 0 && Held(b.At(y), p, t)
    ensures Held(SecondFixed(b, x, z).At(y), p, t)
  {
    hide Consistent; hide SlotMoved; hide Held;
    if x + 1 !in b.At(z).cells && x + 2 in b.At(z).cells {
      SlotHeld(b, z, x + 2, x + 1, y, p, t);
    }
  }

  lemma {:induction false} CompactionKeepsHeld(b: Board, places: seq<(int, int)>, y: int, p: int, t: Tile)
    requires Consistent(b) && Threes(places) && Held(b.At(y), p, t)
    ensures Held(AllFixed(b, places).At(y), p, t)
    decreases |places|
  {
    hide Consistent; hide PlaceFixed; hide Held; hide RowReplaced;
    if places != [] {
      assert places[0] in places;
      PlaceHeld(b, places[0], y, p, t);
      PlaceFixedConsistent(b, places[0]);
      CompactionKeepsHeld(PlaceFixed(b, places[0]), places[1..], y, p, t);
    }
  }

  /**
   moveCard passes a card with attachments over exactly if a card lies in the bottom slot of the pile asked
   for; left of the table that slot is the next multiple of 3 to the right, so that x = -1 asks about column 0.
   */
  lemma PassedOverIff(cells: map<int, Tile>, card: Card, x: int)
    ensures PassedOver(cells, card, x)
            <==> card.attached != [] && exists b :: b in cells && BottomAsked(x, b)
  {
    assert BottomAsked(x, TruncatedBase(x));
    assert forall b :: BottomAsked(x, b) ==> b == TruncatedBase(x);
  }

  predicate BottomAsked(x: int, b: int)
  {
    b % 3 == 0 && if x >= 0 then b <= x <= b + 2 else b - 2 <= x <= b
  }

  /** Asked for a full pile, or one with attachments at its bottom, a card goes to the first pile further right whose bottom is free. */
  lemma OverflowGoesRight(row: Row, heap: Heap, x: int, name: string, dontStack: bool)
    requires CardsKnown(row.cells, heap) && x >= 0 && Base(x) in row.cells
    requires PileFull(row.cells, Base(x)) || heap[row.cells[Base(x)].card].attached != []
    ensures var c := FreeColumn(row, heap, x, name, dontStack);
            && c > x && c % 3 == 0 && c !in row.cells
            && forall p :: x <= p < c && p % 3 == 0 ==> p in row.cells
  {
    var c := FreeColumn(row, heap, x, name, dontStack);
    assert c == NextFreeBase(row.cells, Base(x));
    assert c != Base(x) && Base(x) + 3 <= c;
  }

  /**
   An insertion lists exactly a card that lies face up without attachments in a bottom slot, ahead of all
   others of its name, and takes away exactly the listing of a pile that its top slot fills.
   */
  lemma InsertionListings(row: Row, t: Tile, x: int, card: Card, l: Listing)
    requires x !in row.cells && x >= 0 && (x % 3 == 2 ==> Base(x) in row.cells)
    ensures var after := Insert(row, t, x, Listable(card)).piles;
            var opens := x % 3 == 0 && !card.faceDown && card.attached == [];
            && (l in after <==> (opens && l == Listing(t.name, x))
                                || (l in row.piles && !(x % 3 == 2 && l == Listing(row.cells[Base(x)].name, Base(x)))))
            && (opens && Listing(t.name, x) !in row.piles ==> Listed(after, t.name) && Lookup(after, t.name) == x)
  {
  }

  // ------------------------------------------------------------------ over steps and runs

  /** The step neither moves the card nor hangs anything under it or it under anything. */
  predicate LeavesBe(op: TableRuns.TableOp, c: CardRef)
  {
    match op
    case Arrive(d, _, _, _) => d != c
    case DrawCrypt(d) => d != c
    case Depart(cs, _) => c !in cs
    case Shift(d, _, _, _, _) => d != c
    case ShiftAll(cs, _, _, _, _) => c !in cs
    case AttachHere(d, q, _, _) => d != c && q != c
    case AttachAway(d, _, _) => d != c
    case Adopt(q, _, _) => q != c
    case Unattach(d, _, _) => d != c
    case Refresh(d) => d != c
    case Others(_) => true
  }

  lemma {:induction false} AllTakenOffHeld(b: Board, cs: seq<CardRef>, y: int, p: int, t: Tile)
    requires Loose(b) && Distinct(cs) && (forall c :: c in cs ==> c in b.cards) && t.card !in cs && Held(b.At(y), p, t)
    ensures Held(AllTakenOff(b, cs).At(y), p, t)
    decreases |cs|
  {
    hide Consistent; hide AllIndexed; hide AllAlone; hide TakenOff; hide Held;
    if cs != [] {
      assert cs[0] in cs;
      TakenOffConsistent(b, cs[0]);
      StillListed(b, cs);
      TakenOffLoose(b, cs[0]);
      TakenOffHeld(b, cs[0], y, p, t);
      AllTakenOffHeld(TakenOff(b, cs[0]), cs[1..], y, p, t);
    }
  }

  lemma {:induction false} AllMovedOnHeld(b: Board, cs: seq<CardRef>, x: int, z: int, faces: seq<bool>, y: int, p: int, t: Tile)
    requires LooseBut(b, z) && FromOtherRows(b, cs, z) && |faces| == |cs| && t.card !in cs && Held(b.At(y), p, t)
    ensures Held(AllMovedOn(b, cs, x, z, faces).At(y), p, t)
    decreases |cs|
  {
    hide Consistent; hide AllIndexed; hide AllAlone; hide MovedOn; hide Held; hide GapFree;
    if cs != [] {
      assert cs[0] in cs && FromOtherRow(b, cs[0], z);
      OneMovedAcross(b, cs, x, z, faces[0]);
      MovedOnHeld(b, cs[0], x, z, faces[0], y, p, t);
      AllMovedOnHeld(MovedOn(b, cs[0], x, z, faces[0]), cs[1..], x + 1, z, faces[1..], y, p, t);
    }
  }

  lemma HungHeld(b: Board, c: CardRef, q: CardRef, y: int, p: int, t: Tile)
    requires Consistent(b) && c in b.cards && c in b.heap && q in b.heap && c != q && t.card != c && Held(b.At(y), p, t)
    ensures Held(Hung(b, c, q).At(y), p, t)
  {
    hide Consistent; hide Remove; hide Hung; hide Held;
    OwnTile(b, c);
    HungShape(b, c, q);
    HeldTile(b.At(y), p, t);
    var card := b.heap[c];
    if card.y == y {
      if card.x >= 0 {
        RemovalKeepsHeld(b.At(y), card.x, p, t);
      } else {
        RemoveNothing(b.At(y), card.name, card.x);
      }
    }
  }

  lemma AsideHeld(b: Board, q: CardRef, first: seq<(int, int)>, y: int, p: int, t: Tile)
    requires Consistent(b) && q in b.cards && q in b.heap && Consistent(SetAside(b, q)) && Threes(first)
    requires t.card != q && Held(b.At(y), p, t) && AllIndexed(b)
    ensures Held(Aside(b, q, first).At(y), p, t)
  {
    hide Consistent; hide MovedOn; hide AllFixed; hide Held; hide Indexed;
    if Stacked(b, q) {
      MovedOnHeld(b, q, b.At(b.heap[q].y).space, b.heap[q].y, b.heap[q].faceDown, y, p, t);
    }
    if Stacked(b, q) && b.heap[q].faceDown {
      CompactionKeepsHeld(SetAside(b, q), first, y, p, t);
    }
  }

  lemma VisitedPlaces(b: Board, places: seq<(int, int)>)
    requires Visits(b, places)
    ensures Threes(places)
  {
  }

  lemma ArrivalStep(b: Board, op: TableRuns.TableOp, y: int, p: int, t: Tile)
    requires Good(b) && TableRuns.Possible(b, op) && LeavesBe(op, t.card) && Held(b.At(y), p, t)
    requires op.Arrive? || op.DrawCrypt? || op.Depart? || op.Refresh? || op.Others?
    ensures Held(TableRuns.Step(b, op).At(y), p, t)
  {
    hide Consistent; hide AllAlone; hide Held; hide Arrived; hide TakenOff; hide AllFixed; hide AllTakenOff; hide GapFree; hide Indexed;
    hide Visits; hide Elsewhere; hide Refresh;
    match op
    case Arrive(c, x, z, f) =>
      assert Settled(b.At(z));
      ArrivedHeld(b, c, x, z, f, y, p, t);
    case DrawCrypt(c) => assert TableRuns.Step(b, op).At(y) == b.At(y);
    case Depart(cs, places) =>
      DepartedGood(b, cs, places);
      VisitedPlaces(AllTakenOff(b, cs), places);
      GoodIsLoose(b);
      AllTakenOffHeld(b, cs, y, p, t);
      CompactionKeepsHeld(AllTakenOff(b, cs), places, y, p, t);
    case Refresh(c) =>
      RefreshedGoodIff(b, c);
      RefreshHeld(b, c, y, p, t);
    case Others(heap) => assert TableRuns.Step(b, op).At(y) == b.At(y);
  }

  lemma RefreshHeld(b: Board, c: CardRef, y: int, p: int, t: Tile)
    requires Good(b) && c in b.cards && c in b.heap && t.card != c && Held(b.At(y), p, t)
    requires b.heap[c].x >= 0 ==> b.heap[c].x in b.At(b.heap[c].y).cells
    requires b.heap[c].x >= 0 && b.heap[c].x % 3 == 2 ==> Base(b.heap[c].x) in b.At(b.heap[c].y).cells
    ensures Held(Refreshed(b, c).At(y), p, t)
  {
    hide Consistent; hide AllAlone; hide Held; hide Remove; hide Insert; hide Indexed;
    OwnTile(b, c);
    HeldTile(b.At(y), p, t);
    var card := b.heap[c];
    if card.x >= 0 && card.y == y {
      var row := b.At(y);
      assert Settled(row) && PileGapFree(row.cells, Base(card.x));
      RemovalKeepsHeld(row, card.x, p, t);
      RemovedCells(row, card.name, card.x);
      assert card.x % 3 == 2 ==> card.x - 1 in row.cells && Base(card.x) == card.x - 2;
      InsertionKeepsHeld(Remove(row, card.name, card.x), row.cells[card.x], card.x, Listable(card), p, t);
    }
  }

  lemma MoveStep(b: Board, op: TableRuns.TableOp, y: int, p: int, t: Tile)
    requires Good(b) && TableRuns.Possible(b, op) && LeavesBe(op, t.card) && Held(b.At(y), p, t)
    requires op.Shift? || op.ShiftAll? || op.Unattach?
    ensures Held(TableRuns.Step(b, op).At(y), p, t)
  {
    hide Consistent; hide AllAlone; hide Held; hide MovedOn; hide AllFixed; hide AllMovedOn; hide GapFree; hide Indexed; hide Visits;
    hide PassedOver; hide Without;
    GoodIsLoose(b);
    match op
    case Shift(c, x, z, f, places) =>
      ShiftConsistent(b, c, x, z, f);
      MovedOnHeld(b, c, x, z, f, y, p, t);
      VisitedPlaces(MovedOn(b, c, x, z, f), places);
      if !PassedOver(b.At(z).cells, b.heap[c], x) {
        CompactionKeepsHeld(MovedOn(b, c, x, z, f), places, y, p, t);
      }
    case ShiftAll(cs, x, z, faces, places) =>
      ShiftedAllGood(b, cs, x, z, faces, places);
      VisitedPlaces(AllMovedOn(b, cs, x, z, faces), places);
      AllMovedOnHeld(b, cs, x, z, faces, y, p, t);
      CompactionKeepsHeld(AllMovedOn(b, cs, x, z, faces), places, y, p, t);
    case Unattach(k, o, places) =>
      UnattachedGood(b, k, o, places);
      FreedGood(b, k, o);
      var f := Freed(b, k, o);
      GoodIsLoose(f);
      assert f.At(y) == b.At(y);
      MovedOnHeld(f, k, -1, b.heap[k].y, b.heap[k].faceDown, y, p, t);
      if b.heap[k].faceDown {
        CompactionKeepsHeld(MovedOn(f, k, -1, b.heap[k].y, true), places, y, p, t);
      }
  }

  lemma AttachStep(b: Board, op: TableRuns.TableOp, y: int, p: int, t: Tile)
    requires Good(b) && TableRuns.Possible(b, op) && LeavesBe(op, t.card) && Held(b.At(y), p, t)
    requires op.AttachHere? || op.AttachAway? || op.Adopt?
    ensures Held(TableRuns.Step(b, op).At(y), p, t)
  {
    hide Consistent; hide AllAlone; hide Held; hide SetAside; hide AllFixed; hide GapFree; hide Indexed; hide Visits; hide Hung; hide Aside;
    hide Unhooked; hide MiddleToTop; hide Stacked; hide TableRuns.Harmless; hide Without;
    match op
    case AttachHere(c, q, first, places) =>
      UnhookedGood(b, c);
      var u := Unhooked(b, c);
      AttachedGoodIff(u, c, q, first, places);
      HungHeld(u, c, q, y, p, t);
      HungShape(u, c, q);
      HungIndexed(u, c, q);
      AsideHeld(Hung(u, c, q), q, first, y, p, t);
      CompactionKeepsHeld(Aside(Hung(u, c, q), q, first), places, y, p, t);
    case AttachAway(c, q, places) =>
      UnhookedGood(b, c);
      var u := Unhooked(b, c);
      AttachedAwayGood(u, c, q, places);
      VisitedPlaces(Hung(u, c, q), places);
      HungHeld(u, c, q, y, p, t);
      CompactionKeepsHeld(Hung(u, c, q), places, y, p, t);
    case Adopt(q, k, first) =>
      BurdenedConsistent(b, q, k);
      AdoptedGoodIff(b, q, k, first);
      BurdenedIndexed(b, q, k);
      assert Burdened(b, q, k).At(y) == b.At(y);
      AsideHeld(Burdened(b, q, k), q, first, y, p, t);
  }

  /** Whatever else happens on the table, a bottom card stays at the bottom, and its pile listed or full. */
  lemma StepKeepsHeld(b: Board, op: TableRuns.TableOp, y: int, p: int, t: Tile)
    requires Good(b) && TableRuns.Possible(b, op) && LeavesBe(op, t.card) && Held(b.At(y), p, t)
    ensures Held(TableRuns.Step(b, op).At(y), p, t)
  {
    hide Good; hide Held; hide TableRuns.Possible; hide TableRuns.Step; hide LeavesBe;
    if op.Arrive? || op.DrawCrypt? || op.Depart? || op.Refresh? || op.Others? {
      ArrivalStep(b, op, y, p, t);
    } else if op.Shift? || op.ShiftAll? || op.Unattach? {
      MoveStep(b, op, y, p, t);
    } else {
      AttachStep(b, op, y, p, t);
    }
  }

  /**
   A face-up card without attachments that is given a bottom slot opens a pile that is listed under its
   name - face-up as it comes, whatever face it is to have.
   */
  lemma ArrivalIsHeld(b: Board, c: CardRef, x: int, y: int, face: bool)
    requires Good(b) && c in b.heap && c !in b.cards && b.heap[c].parent.None? && b.heap[c].attached == [] && !b.heap[c].faceDown
    ensures CardsKnown(b.At(y).cells, b.heap) && b.At(y).space % 3 == 0
    ensures var column := FreeColumn(b.At(y), b.heap, x, b.heap[c].name, face);
            column % 3 == 0 ==> Held(Arrived(b, c, x, y, face).At(y), column, Tile(c, b.heap[c].name))
  {
    hide Consistent; hide AllAlone; hide FreeColumn; hide Arrived; hide GapFree; hide NextEmptyPile;
    RowKnown(b, y);
    SpaceAligned(b, y);
    assert Settled(b.At(y));
    FreeColumnUnused(b.At(y), b.heap, x, b.heap[c].name, face);
    ArrivedRows(b, c, x, y, face);
  }

  /** The next card of the name that is to be stacked goes right on the pile. */
  lemma NextLandsOnPile(row: Row, heap: Heap, p: int, t: Tile)
    requires CardsKnown(row.cells, heap) && Held(row, p, t) && !PileFull(row.cells, p)
    requires !heap[t.card].faceDown && heap[t.card].attached == []
    ensures Listed(row.piles, t.name)
    ensures Lookup(row.piles, t.name) == p ==>
              FreeColumn(row, heap, -1, t.name, false) == if p + 1 !in row.cells then p + 1 else p + 2
  {
    assert Listing(t.name, p) in row.piles;
  }

  /** The pile is the newest listed when no other pile of the row has a bottom card of the name. */
  lemma OnlyPileIsNewest(row: Row, p: int, name: string)
    requires Settled(row) && Listed(row.piles, name)
    requires forall b :: b in row.cells && b % 3 == 0 && row.cells[b].name == name ==> b == p
    ensures Lookup(row.piles, name) == p
  {
    var b := Lookup(row.piles, name);
    assert ListingOk(row.cells, Listing(name, b)) && PileGapFree(row.cells, b);
  }

  ghost predicate AllLeaveBe(ops: seq<TableRuns.TableOp>, c: CardRef)
  {
    forall i :: 0 <= i < |ops| ==> LeavesBe(ops[i], c)
  }

  /**
   Stacking by name, over every harmless run of steps: a face-up card lies without attachments at the bottom
   of a listed pile; as long as it is left alone and the pile has room, the pile stays listed, and when it is the
   newest of its name, or the only one, the next card of that name asked for at x = -1 lands on it.
   */
  lemma {:induction false} NextOfItsNameStacks(b: Board, ops: seq<TableRuns.TableOp>, y: int, p: int, t: Tile)
    requires Good(b) && TableRuns.HarmlessRun(b, ops) && AllLeaveBe(ops, t.card) && Held(b.At(y), p, t)
    ensures var u := TableRuns.Run(b, ops);
            var row := u.At(y);
            && Good(u) && CardsKnown(row.cells, u.heap) && p in row.cells && row.cells[p] == t
            && (!PileFull(row.cells, p) ==> Listing(t.name, p) in row.piles)
            && (!PileFull(row.cells, p) && !u.heap[t.card].faceDown && u.heap[t.card].attached == []
                && ((Listed(row.piles, t.name) ==> Lookup(row.piles, t.name) == p)
                    || (forall k :: k in row.cells && k % 3 == 0 && row.cells[k].name == t.name ==> k == p)) ==>
                  FreeColumn(row, u.heap, -1, t.name, false) == if p + 1 !in row.cells then p + 1 else p + 2)
    decreases |ops|
  {
    hide Consistent; hide AllAlone; hide FreeColumn; hide TableRuns.Possible; hide TableRuns.Harmless; hide TableRuns.Step; hide LeavesBe;
    hide Indexed; hide GapFree;
    if ops == [] {
      RowKnown(b, y);
      var row := b.At(y);
      assert Settled(row);
      if !PileFull(row.cells, p) && !b.heap[t.card].faceDown && b.heap[t.card].attached == [] {
        NextLandsOnPile(row, b.heap, p, t);
        if forall k :: k in row.cells && k % 3 == 0 && row.cells[k].name == t.name ==> k == p {
          OnlyPileIsNewest(row, p, t.name);
        }
      }
    } else {
      TableRuns.StepKeepsGoodIff(b, ops[0]);
      StepKeepsHeld(b, ops[0], y, p, t);
      assert forall i :: 0 <= i < |ops[1..]| ==> ops[1..][i] == ops[i + 1];
      NextOfItsNameStacks(TableRuns.Step(b, ops[0]), ops[1..], y, p, t);
    }
  }
}

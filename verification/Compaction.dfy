/**
 Compaction of the piles of a row (fixFreeSpaces) and the commands built from it.
 */
module Compaction {
  import opened Cards
  import opened PileRow
  import opened PileRowProofs

  /** None of these cards carries attachments. */
  ghost predicate Unburdened(tiles: seq<Tile>, heap: Heap)
  {
    forall t :: t in tiles ==> t.card in heap && heap[t.card].attached == []
  }

  /**
   When compaction can close a pile: it has no gap, it holds a single card, or neither of its two
   cards carries attachments - nothing is stacked on a card with attachments, nor such a card on another.
   */
  ghost predicate Closable(cells: map<int, Tile>, heap: Heap, b: int)
  {
    PileGapFree(cells, b) || |PileSeq(cells, b)| == 1 || Unburdened(PileSeq(cells, b), heap)
  }

  /** What compaction leaves of a pile it cannot close: a bottom card, and a card kept above a gap or sent away. */
  ghost predicate Spoiled(cells: map<int, Tile>, heap: Heap, b: int)
  {
    && b in cells && b + 1 !in cells
    && if b + 2 in cells then Stuck(cells, heap, b) else cells[b].card in heap && heap[cells[b].card].attached != []
  }

  /** A card with attachments above a gap: every move into the gap is passed over. */
  ghost predicate Stuck(cells: map<int, Tile>, heap: Heap, b: int)
  {
    && b in cells && b + 1 !in cells && b + 2 in cells
    && cells[b + 2].card in heap && heap[cells[b + 2].card].attached != []
  }

  ghost predicate SameOutside(before: map<int, Tile>, after: map<int, Tile>, b: int)
  {
    forall x :: x != b && x != b + 1 && x != b + 2 ==>
      && (x in before <==> x in after)
      && (x in before ==> before[x] == after[x])
  }

  /** Indexed, except that pile b may still be listed under the names of cards higher up. */
  ghost predicate IndexedBut(row: Row, b: int)
  {
    && NoNegative(row) && SpaceIsFirstEmpty(row) && ListingsOk(row)
    && forall l :: l in row.piles && l.base in row.cells && l.base != b ==> row.cells[l.base].name == l.name
  }

  /** moveCardInRow into a bottom slot that is unused, spelled out. */
  lemma ToBottomShape(row: Row, heap: Heap, from: int, b: int)
    requires CardsKnown(row.cells, heap) && b >= 0 && b % 3 == 0 && b !in row.cells
    requires from in row.cells && from >= 0
    ensures var t, card := row.cells[from], heap[row.cells[from].card];
            MoveInRow(row, heap, from, b)
            == Insert(Remove(row, t.name, from), t, b, !card.faceDown && card.attached == [])
    ensures MoveInRow(row, heap, from, b).cells == (row.cells - {from})[b := row.cells[from]]
    ensures CardsKnown(MoveInRow(row, heap, from, b).cells, heap)
  {
  }

  lemma ToBottomListing(row: Row, t: Tile, from: int, b: int, listable: bool, l: Listing)
    requires Indexed(row) && b >= 0 && b % 3 == 0 && b !in row.cells
    requires from in row.cells && row.cells[from] == t && (from == b + 1 || (from == b + 2 && b + 1 !in row.cells))
    requires l in Insert(Remove(row, t.name, from), t, b, listable).piles
    ensures var r := Insert(Remove(row, t.name, from), t, b, listable);
            && ListingOk(r.cells, l)
            && (l.base in r.cells && (l.base != b || b + 2 !in r.cells) ==> r.cells[l.base].name == l.name)
  {
    var taken := Remove(row, t.name, from);
    if l in taken.piles {
      RemoveListings(row, t.name, from, l);
      assert l.base != b ==> l.base + 2 < b || b + 2 < l.base;
    }
  }

  lemma ToBottom(row: Row, heap: Heap, from: int, b: int)
    requires Indexed(row) && CardsKnown(row.cells, heap)
    requires b >= 0 && b % 3 == 0 && b !in row.cells
    requires from in row.cells && (from == b + 1 || (from == b + 2 && b + 1 !in row.cells))
    ensures var r := MoveInRow(row, heap, from, b);
            && r.cells == (row.cells - {from})[b := row.cells[from]]
            && IndexedBut(r, b) && CardsKnown(r.cells, heap)
            && (b + 2 !in r.cells ==> Indexed(r))
  {
    var t, card := row.cells[from], heap[row.cells[from].card];
    var listable := !card.faceDown && card.attached == [];
    ToBottomShape(row, heap, from, b);
    RemoveKeepsIndexed(row, t.name, from);
    InsertKeepsSpace(Remove(row, t.name, from), t, b, listable);
    forall l | l in MoveInRow(row, heap, from, b).piles
      ensures ListingOk(MoveInRow(row, heap, from, b).cells, l)
      ensures var cells := MoveInRow(row, heap, from, b).cells;
              l.base in cells && (l.base != b || b + 2 !in cells) ==> cells[l.base].name == l.name
    {
      ToBottomListing(row, t, from, b, listable, l);
    }
  }

  /** moveCardInRow into the middle slot when neither card carries attachments, spelled out. */
  lemma ToMiddleShape(row: Row, heap: Heap, b: int)
    requires CardsKnown(row.cells, heap)
    requires b >= 0 && b % 3 == 0 && b in row.cells && b + 1 !in row.cells && b + 2 in row.cells
    requires heap[row.cells[b].card].attached == [] && heap[row.cells[b + 2].card].attached == []
    ensures var t := row.cells[b + 2];
            var taken := Remove(row, t.name, b + 2);
            && MoveInRow(row, heap, b + 2, b + 1) == Row(taken.cells[b + 1 := t], taken.piles, row.space)
            && taken.cells == row.cells - {b + 2}
  {
  }

  lemma ToMiddleListing(row: Row, b: int, l: Listing)
    requires IndexedBut(row, b)
    requires b >= 0 && b % 3 == 0 && b in row.cells && b + 1 !in row.cells && b + 2 in row.cells
    requires l in Remove(row, row.cells[b + 2].name, b + 2).piles
    ensures var cells := (row.cells - {b + 2})[b + 1 := row.cells[b + 2]];
            ListingOk(cells, l) && (l.base in cells ==> cells[l.base].name == l.name)
  {
    hide Unlist; hide SpaceIsFirstEmpty; hide NoNegative;
    assert l in row.piles;
    assert ListingOk(row.cells, l);
    assert l.base != b ==> l.base + 2 < b || b + 2 < l.base;
  }

  lemma ToMiddle(row: Row, heap: Heap, b: int)
    requires IndexedBut(row, b) && CardsKnown(row.cells, heap)
    requires b >= 0 && b % 3 == 0 && b in row.cells && b + 1 !in row.cells && b + 2 in row.cells
    requires heap[row.cells[b].card].attached == [] && heap[row.cells[b + 2].card].attached == []
    ensures var r := MoveInRow(row, heap, b + 2, b + 1);
            r.cells == (row.cells - {b + 2})[b + 1 := row.cells[b + 2]] && Indexed(r)
  {
    hide MoveInRow; hide Remove;
    ToMiddleShape(row, heap, b);
    var r := MoveInRow(row, heap, b + 2, b + 1);
    forall l | l in r.piles
      ensures ListingOk(r.cells, l) && (l.base in r.cells ==> r.cells[l.base].name == l.name)
    {
      ToMiddleListing(row, b, l);
    }
    ToMiddleSpace(row, r, b);
  }

  lemma ToMiddleSpace(row: Row, r: Row, b: int)
    requires SpaceIsFirstEmpty(row) && NoNegative(row) && b >= 0 && b % 3 == 0 && b in row.cells && b + 2 in row.cells
    requires r.cells == (row.cells - {b + 2})[b + 1 := row.cells[b + 2]] && r.space == row.space
    ensures SpaceIsFirstEmpty(r) && NoNegative(r)
  {
    forall p | 0 <= p < r.space && p % 3 == 0
      ensures !PileEmpty(r.cells, p)
    {
      assert !PileEmpty(row.cells, p);
      assert p != b ==> p + 2 < b || b + 2 < p;
    }
  }

  /** A top card above a gap, at a bottom card that carries attachments while it does not: it is sent away. */
  lemma SentAwayShape(row: Row, heap: Heap, b: int)
    requires CardsKnown(row.cells, heap)
    requires b >= 0 && b % 3 == 0 && b in row.cells && b + 1 !in row.cells && b + 2 in row.cells
    requires heap[row.cells[b].card].attached != [] && heap[row.cells[b + 2].card].attached == []
    ensures var cells := row.cells - {b + 2};
            MoveInRow(row, heap, b + 2, b + 1).cells == cells[NextFreeBase(cells, b) := row.cells[b + 2]]
  {
    assert Base(b + 1) == b;
    assert TruncatedBase(b + 1) == b;
  }

  lemma StuckStays(row: Row, heap: Heap, b: int)
    requires CardsKnown(row.cells, heap) && b >= 0 && b % 3 == 0 && Stuck(row.cells, heap, b)
    ensures MoveInRow(row, heap, b + 2, b + 1) == row
  {
    assert TruncatedBase(b + 1) == b;
  }

  /** One pile, slot by slot: closed if it can be, otherwise spoiled; nothing else happens to a closable pile. */
  lemma FixPileSlots(row: Row, heap: Heap, b: int)
    requires CardsKnown(row.cells, heap) && b >= 0 && b % 3 == 0
    ensures var r := FixPile(row, heap, b);
            && (Closable(row.cells, heap, b) ==>
                  && PileGapFree(r.cells, b)
                  && PileSeq(r.cells, b) == PileSeq(row.cells, b)
                  && SameOutside(row.cells, r.cells, b))
            && (!Closable(row.cells, heap, b) ==> Spoiled(r.cells, heap, b))
            && (PileGapFree(row.cells, b) ==> r == row)
  {
    hide MoveInRow; hide NextFreeBase;
    if b !in row.cells && b + 1 !in row.cells {
      if b + 2 in row.cells {
        ToBottomShape(row, heap, b + 2, b);
      }
    } else {
      var r := row;
      if b !in row.cells {
        ToBottomShape(row, heap, b + 1, b);
        r := MoveInRow(row, heap, b + 1, b);
      }
      if b + 1 !in r.cells && b + 2 in r.cells {
        SecondMove(r, heap, b);
        assert PileSeq(row.cells, b) == [r.cells[b], r.cells[b + 2]];
      }
    }
  }

  /** The second move of fixFreeSpaces, by what the two cards carry. */
  lemma SecondMove(r: Row, heap: Heap, b: int)
    requires CardsKnown(r.cells, heap)
    requires b >= 0 && b % 3 == 0 && b in r.cells && b + 1 !in r.cells && b + 2 in r.cells
    ensures var after := MoveInRow(r, heap, b + 2, b + 1);
            if Unburdened([r.cells[b], r.cells[b + 2]], heap)
            then after.cells == (r.cells - {b + 2})[b + 1 := r.cells[b + 2]]
            else Spoiled(after.cells, heap, b)
  {
    hide MoveInRow; hide NextFreeBase;
    var t, u := r.cells[b], r.cells[b + 2];
    assert forall v :: v in [t, u] <==> v == t || v == u;
    if heap[u.card].attached != [] {
      StuckStays(r, heap, b);
    } else if heap[t.card].attached != [] {
      SentAwayShape(r, heap, b);
      var x := NextFreeBase(r.cells - {b + 2}, b);
      assert (x - b) % 3 == 0 && x != b;
    } else {
      ToMiddleShape(r, heap, b);
    }
  }

  lemma FixPileKeepsIndexed(row: Row, heap: Heap, b: int)
    requires Indexed(row) && CardsKnown(row.cells, heap) && b >= 0 && b % 3 == 0
    requires Closable(row.cells, heap, b)
    ensures Indexed(FixPile(row, heap, b)) && CardsKnown(FixPile(row, heap, b).cells, heap)
  {
    hide MoveInRow;
    FixPileKeepsKnown(row, heap, b);
    if b !in row.cells && b + 1 !in row.cells {
      if b + 2 in row.cells {
        ToBottom(row, heap, b + 2, b);
      }
    } else {
      var r := row;
      if b !in row.cells {
        ToBottom(row, heap, b + 1, b);
        r := MoveInRow(row, heap, b + 1, b);
      }
      if b + 1 !in r.cells && b + 2 in r.cells {
        assert PileSeq(row.cells, b) == [r.cells[b], r.cells[b + 2]];
        assert r.cells[b] in PileSeq(row.cells, b) && r.cells[b + 2] in PileSeq(row.cells, b);
        ToMiddle(r, heap, b);
      }
    }
  }

  /**
   Compaction of one pile makes its slots a prefix with the same cards in the same order exactly if
   the pile is closable; then other piles do not change and all three indexes are right afterwards.
   */
  lemma FixPileCompactsIff(row: Row, heap: Heap, b: int)
    requires Indexed(row) && CardsKnown(row.cells, heap) && b >= 0 && b % 3 == 0
    ensures var r := FixPile(row, heap, b);
            && (PileGapFree(r.cells, b) && PileSeq(r.cells, b) == PileSeq(row.cells, b) <==> Closable(row.cells, heap, b))
            && (Closable(row.cells, heap, b) ==>
                  Indexed(r) && CardsKnown(r.cells, heap) && SameOutside(row.cells, r.cells, b))
            && (PileGapFree(row.cells, b) ==> r == row)
  {
    FixPileSlots(row, heap, b);
    if Closable(row.cells, heap, b) {
      FixPileKeepsIndexed(row, heap, b);
    }
  }

  // ------------------------------------------------------------------ the whole row

  /** fixFreeSpaces on one row; the piles are visited in whatever order the set yields them. */
  function FixPiles(row: Row, heap: Heap, order: seq<int>): Row
    requires CardsKnown(row.cells, heap) && forall i :: 0 <= i < |order| ==> order[i] >= 0
    decreases |order|
  {
    if order == [] then row
    else
      var r := FixPile(row, heap, order[0]);
      FixPileKeepsKnown(row, heap, order[0]);
      FixPiles(r, heap, order[1..])
  }

  lemma FixPileKeepsKnown(row: Row, heap: Heap, b: int)
    requires CardsKnown(row.cells, heap) && b >= 0
    ensures CardsKnown(FixPile(row, heap, b).cells, heap)
  {
    hide MoveInRow;
    if b in row.cells || b + 1 in row.cells {
      if b !in row.cells {
        MoveKeepsKnown(row, heap, b + 1, b);
      }
      var r := if b !in row.cells then MoveInRow(row, heap, b + 1, b) else row;
      if b + 1 !in r.cells && b + 2 in r.cells {
        MoveKeepsKnown(r, heap, b + 2, b + 1);
      }
    } else if b + 2 in row.cells {
      MoveKeepsKnown(row, heap, b + 2, b);
    }
  }

  lemma MoveKeepsKnown(row: Row, heap: Heap, from: int, to: int)
    requires CardsKnown(row.cells, heap) && from in row.cells && from >= 0 && to >= 0 && to !in row.cells
    ensures CardsKnown(MoveInRow(row, heap, from, to).cells, heap)
  {
  }

  ghost predicate PileOrder(order: seq<int>)
  {
    forall i :: 0 <= i < |order| ==> order[i] >= 0 && order[i] % 3 == 0
  }

  ghost predicate AllClosable(cells: map<int, Tile>, heap: Heap)
  {
    forall b :: b >= 0 && b % 3 == 0 ==> Closable(cells, heap, b)
  }

  /** A card with attachments has its pile for itself. */
  ghost predicate ParentsAlone(cells: map<int, Tile>, heap: Heap)
  {
    forall b :: b >= 0 && b % 3 == 0 ==> |PileSeq(cells, b)| <= 1 || Unburdened(PileSeq(cells, b), heap)
  }

  lemma AloneIsClosable(cells: map<int, Tile>, heap: Heap)
    requires ParentsAlone(cells, heap)
    ensures AllClosable(cells, heap)
  {
  }

  ghost predicate SamePiles(before: map<int, Tile>, after: map<int, Tile>)
  {
    forall b :: b >= 0 && b % 3 == 0 ==> PileSeq(before, b) == PileSeq(after, b)
  }

  lemma OnePileDone(before: Row, after: Row, heap: Heap, b: int)
    requires b >= 0 && b % 3 == 0
    requires PileGapFree(after.cells, b) && PileSeq(after.cells, b) == PileSeq(before.cells, b)
    requires SameOutside(before.cells, after.cells, b)
    ensures SamePiles(before.cells, after.cells)
    ensures forall p :: p >= 0 && p % 3 == 0 && PileGapFree(before.cells, p) ==> PileGapFree(after.cells, p)
  {
    forall p | p >= 0 && p % 3 == 0
      ensures PileSeq(before.cells, p) == PileSeq(after.cells, p)
      ensures PileGapFree(before.cells, p) ==> PileGapFree(after.cells, p)
    {
      assert p != b ==> p + 2 < b || b + 2 < p;
    }
  }

  lemma ClosableByPile(a: map<int, Tile>, b: map<int, Tile>, heap: Heap)
    requires AllClosable(a, heap) && SamePiles(a, b)
    requires forall p :: p >= 0 && p % 3 == 0 && PileGapFree(a, p) ==> PileGapFree(b, p)
    ensures AllClosable(b, heap)
  {
    forall p | p >= 0 && p % 3 == 0
      ensures Closable(b, heap, p)
    {
      assert Closable(a, heap, p) && PileSeq(a, p) == PileSeq(b, p);
    }
  }

  lemma {:induction false} FixPilesCloses(row: Row, heap: Heap, order: seq<int>)
    requires Indexed(row) && CardsKnown(row.cells, heap) && AllClosable(row.cells, heap)
    requires GapsCovered(row.cells, order)
    ensures var r := FixPiles(row, heap, order);
            && Settled(r) && CardsKnown(r.cells, heap)
            && SamePiles(row.cells, r.cells)
            && (GapFree(row) ==> r == row)
    decreases |order|
  {
    hide Closable; hide FixPile; hide PileGapFree;
    if order != [] {
      var b := order[0];
      FixPileCompactsIff(row, heap, b);
      var r := FixPile(row, heap, b);
      OnePileDone(row, r, heap, b);
      ClosableByPile(row.cells, r.cells, heap);
      FixPilesCloses(r, heap, order[1..]);
    }
  }

  /** All piles with gaps are visited. */
  ghost predicate GapsCovered(cells: map<int, Tile>, order: seq<int>)
  {
    PileOrder(order) && forall b :: b >= 0 && b % 3 == 0 && !PileGapFree(cells, b) ==> b in order
  }

  /** A spoiled pile is not repaired by visiting it again, nor by visiting any other pile. */
  lemma SpoiledStays(row: Row, heap: Heap, b: int, p: int)
    requires CardsKnown(row.cells, heap) && b >= 0 && b % 3 == 0 && p >= 0 && p % 3 == 0
    requires Spoiled(row.cells, heap, b)
    ensures Spoiled(FixPile(row, heap, p).cells, heap, b)
  {
    hide FixPile;
    if p == b {
      SpoiledIsLeft(row, heap, b);
    } else {
      OtherSlotsStay(row, heap, p);
      assert p + 2 < b || b + 2 < p;
    }
  }

  lemma SpoiledIsLeft(row: Row, heap: Heap, b: int)
    requires CardsKnown(row.cells, heap) && b >= 0 && b % 3 == 0 && Spoiled(row.cells, heap, b)
    ensures FixPile(row, heap, b) == row
  {
    hide MoveInRow;
    if b + 2 in row.cells {
      StuckStays(row, heap, b);
    }
  }

  /** Visiting a pile changes other piles at most by filling a bottom slot that was free. */
  ghost predicate OthersKept(before: map<int, Tile>, after: map<int, Tile>, p: int)
  {
    forall x :: x != p && x != p + 1 && x != p + 2 ==>
      && (x in before ==> x in after && after[x] == before[x])
      && (x in after && x !in before ==> x >= 0 && x % 3 == 0)
  }

  lemma MoveKeepsOthers(row: Row, heap: Heap, from: int, to: int, p: int)
    requires CardsKnown(row.cells, heap) && from in row.cells && p >= 0 && p % 3 == 0 && p <= to < p + 3 && p <= from < p + 3
    ensures OthersKept(row.cells, MoveInRow(row, heap, from, to).cells, p)
    ensures CardsKnown(MoveInRow(row, heap, from, to).cells, heap)
  {
    var t, card := row.cells[from], heap[row.cells[from].card];
    var taken := Remove(row, t.name, from);
    var x := FreeColumn(taken, heap, to, t.name, card.faceDown);
    assert Base(to) == p;
    assert x == p || x == p + 1 || x == p + 2 || x % 3 == 0;
  }

  lemma OtherSlotsStay(row: Row, heap: Heap, p: int)
    requires CardsKnown(row.cells, heap) && p >= 0 && p % 3 == 0
    ensures OthersKept(row.cells, FixPile(row, heap, p).cells, p)
  {
    hide MoveInRow;
    if p !in row.cells && p + 1 !in row.cells {
      if p + 2 in row.cells {
        MoveKeepsOthers(row, heap, p + 2, p, p);
      }
    } else {
      var r := row;
      if p !in row.cells {
        MoveKeepsOthers(row, heap, p + 1, p, p);
        r := MoveInRow(row, heap, p + 1, p);
      }
      if p + 1 !in r.cells && p + 2 in r.cells {
        MoveKeepsOthers(r, heap, p + 2, p + 1, p);
      }
    }
  }

  lemma {:induction false} SpoiledForGood(row: Row, heap: Heap, order: seq<int>, b: int)
    requires CardsKnown(row.cells, heap) && b >= 0 && b % 3 == 0 && PileOrder(order)
    requires Spoiled(row.cells, heap, b)
    ensures Spoiled(FixPiles(row, heap, order).cells, heap, b)
    decreases |order|
  {
    hide FixPile; hide Spoiled;
    if order != [] {
      SpoiledStays(row, heap, b, order[0]);
      FixPileKeepsKnown(row, heap, order[0]);
      SpoiledForGood(FixPile(row, heap, order[0]), heap, order[1..], b);
    }
  }

  /** A pile that is not closable is not closed, whatever comes before and after its turn. */
  lemma {:induction false} FixPilesSpoils(row: Row, heap: Heap, order: seq<int>, b: int)
    requires CardsKnown(row.cells, heap) && GapsCovered(row.cells, order)
    requires b >= 0 && b % 3 == 0 && !Closable(row.cells, heap, b)
    ensures var r := FixPiles(row, heap, order); !(GapFree(r) && SamePiles(row.cells, r.cells))
    decreases |order|
  {
    hide FixPile; hide PileGapFree; hide Closable; hide Spoiled;
    NotClosable(row.cells, heap, b);
    if order != [] {
      var c := order[0];
      var r := FixPile(row, heap, c);
      FixPileSlots(row, heap, c);
      FixPileKeepsKnown(row, heap, c);
      if Closable(row.cells, heap, c) {
        assert c != b;
        OnePileDone(row, r, heap, c);
        SameOtherPile(row.cells, r.cells, heap, c, b);
        FixPilesSpoils(r, heap, order[1..], b);
      } else {
        NotClosable(row.cells, heap, c);
        SpoiledForGood(r, heap, order[1..], c);
        SpoiledIsNotClosed(FixPiles(row, heap, order).cells, heap, c);
      }
    }
  }

  /** The visit of a closable pile leaves another one exactly as it was. */
  lemma SameOtherPile(before: map<int, Tile>, after: map<int, Tile>, heap: Heap, c: int, b: int)
    requires SameOutside(before, after, c) && b % 3 == 0 && c % 3 == 0 && b != c
    ensures Closable(after, heap, b) == Closable(before, heap, b) && PileGapFree(after, b) == PileGapFree(before, b)
  {
    assert c + 2 < b || b + 2 < c;
    assert PileSeq(before, b) == PileSeq(after, b);
  }

  lemma NotClosable(cells: map<int, Tile>, heap: Heap, b: int)
    requires CardsKnown(cells, heap) && !Closable(cells, heap, b)
    ensures !PileGapFree(cells, b) && |PileSeq(cells, b)| == 2
  {
  }

  lemma SpoiledIsNotClosed(cells: map<int, Tile>, heap: Heap, b: int)
    requires Spoiled(cells, heap, b)
    ensures !PileGapFree(cells, b) || |PileSeq(cells, b)| == 1
  {
  }

  /**
   Compaction in any visiting order that covers the piles with gaps leaves the row settled, every
   pile with the same cards in the same order, exactly if every pile is closable; a row without gaps
   is left alone entirely.
   */
  lemma FixPilesCompactsIff(row: Row, heap: Heap, order: seq<int>)
    requires Indexed(row) && CardsKnown(row.cells, heap) && GapsCovered(row.cells, order)
    ensures var r := FixPiles(row, heap, order);
            && (Settled(r) && SamePiles(row.cells, r.cells) <==> AllClosable(row.cells, heap))
            && (GapFree(row) ==> r == row)
  {
    if AllClosable(row.cells, heap) {
      FixPilesCloses(row, heap, order);
    } else {
      var b :| b >= 0 && b % 3 == 0 && !Closable(row.cells, heap, b);
      FixPilesSpoils(row, heap, order, b);
      assert !PileGapFree(row.cells, b);
    }
  }

  // ------------------------------------------------------------------ running it again

  /** Compaction has nothing more to do for the pile. */
  ghost predicate Finished(cells: map<int, Tile>, heap: Heap, b: int)
  {
    PileGapFree(cells, b) || Stuck(cells, heap, b)
  }

  lemma FixPileFinishes(row: Row, heap: Heap, b: int)
    requires CardsKnown(row.cells, heap) && b >= 0 && b % 3 == 0
    ensures Finished(FixPile(row, heap, b).cells, heap, b)
    ensures Finished(row.cells, heap, b) ==> FixPile(row, heap, b) == row
  {
    hide FixPile;
    FixPileSlots(row, heap, b);
    if Stuck(row.cells, heap, b) {
      SpoiledIsLeft(row, heap, b);
    }
  }

  lemma FinishedStays(row: Row, heap: Heap, b: int, p: int)
    requires CardsKnown(row.cells, heap) && b >= 0 && b % 3 == 0 && p >= 0 && p % 3 == 0
    requires Finished(row.cells, heap, p)
    ensures Finished(FixPile(row, heap, b).cells, heap, p)
  {
    hide FixPile;
    FixPileFinishes(row, heap, b);
    if p != b {
      OtherSlotsStay(row, heap, b);
      assert p + 2 < b || b + 2 < p;
    }
  }

  lemma {:induction false} FixPilesFinishes(row: Row, heap: Heap, order: seq<int>)
    requires CardsKnown(row.cells, heap) && PileOrder(order)
    requires forall b :: b >= 0 && b % 3 == 0 && !Finished(row.cells, heap, b) ==> b in order
    ensures var r := FixPiles(row, heap, order);
            CardsKnown(r.cells, heap) && forall b :: b >= 0 && b % 3 == 0 ==> Finished(r.cells, heap, b)
    decreases |order|
  {
    hide FixPile; hide Finished;
    if order != [] {
      var r := FixPile(row, heap, order[0]);
      FixPileKeepsKnown(row, heap, order[0]);
      forall b | b >= 0 && b % 3 == 0 && !Finished(r.cells, heap, b)
        ensures b in order[1..]
      {
        FixPileFinishes(row, heap, order[0]);
        if Finished(row.cells, heap, b) {
          FinishedStays(row, heap, order[0], b);
        }
      }
      FixPilesFinishes(r, heap, order[1..]);
    }
  }

  lemma {:induction false} FixPilesFinished(row: Row, heap: Heap, order: seq<int>)
    requires CardsKnown(row.cells, heap) && PileOrder(order)
    requires forall b :: b >= 0 && b % 3 == 0 ==> Finished(row.cells, heap, b)
    ensures FixPiles(row, heap, order) == row
    decreases |order|
  {
    hide FixPile; hide Finished;
    if order != [] {
      FixPileFinishes(row, heap, order[0]);
      FixPilesFinished(row, heap, order[1..]);
    }
  }

  /** Running the compaction again changes nothing, with attachments or without, whatever the second visiting order. */
  lemma CompactionIsIdempotent(row: Row, heap: Heap, order: seq<int>, again: seq<int>)
    requires CardsKnown(row.cells, heap) && GapsCovered(row.cells, order) && PileOrder(again)
    ensures CardsKnown(FixPiles(row, heap, order).cells, heap)
    ensures FixPiles(FixPiles(row, heap, order), heap, again) == FixPiles(row, heap, order)
  {
    FixPilesFinishes(row, heap, order);
    FixPilesFinished(FixPiles(row, heap, order), heap, again);
  }

  // ------------------------------------------------------------------ a shared pile under a new parent

  /**
   When the middle card of a full pile is attached to the bottom card, compaction cannot pull the
   top card down, because nothing is stacked on a card with attachments: if the top card carries none
   itself, it moves to the next pile whose bottom slot is unused, and the row is settled again.
   */
  lemma SpillFromParent(row: Row, heap: Heap, b: int)
    requires Settled(row) && b >= 0 && b % 3 == 0 && PileFull(row.cells, b)
    requires CardsKnown(row.cells - {b + 1}, heap)
    requires var left := row.cells - {b + 1};
             heap[left[b].card].attached != [] && heap[left[b + 2].card].attached == []
    ensures var taken := Remove(row, row.cells[b + 1].name, b + 1);
            && taken.cells == row.cells - {b + 1}
            && var r := FixPile(taken, heap, b);
            && Settled(r)
            && r.cells == (row.cells - {b + 1, b + 2})[NextFreeBase(row.cells, b) := row.cells[b + 2]]
            && PileSeq(r.cells, b) == [row.cells[b]]
  {
    var t, m := row.cells[b + 2], row.cells[b + 1];
    var taken := Remove(row, m.name, b + 1);
    var alone := Remove(taken, t.name, b + 2);
    LeavesBottomAlone(row, b);
    SameFreeBase(row.cells, alone.cells, b, b);
    SpillShape(taken, heap, b);
    PutBesideParent(alone, heap, t, b);
    assert alone.cells == row.cells - {b + 1, b + 2};
  }

  /** A card asking for a slot above a parent ends at the next unused bottom slot. */
  lemma InsertedCells(row: Row, t: Tile, x: int, listable: bool)
    requires NextSlotOfPile(row.cells, x)
    ensures x % 3 == 2 ==> Base(x) in row.cells
    ensures Insert(row, t, x, listable).cells == row.cells[x := t]
  {
  }

  lemma PutBesideParent(row: Row, heap: Heap, t: Tile, b: int)
    requires Settled(row) && CardsKnown(row.cells, heap) && b >= 0 && b % 3 == 0
    requires b in row.cells && b + 1 !in row.cells && b + 2 !in row.cells
    requires heap[row.cells[b].card].attached != [] && t.card in heap && heap[t.card].parent.None?
    ensures var card := heap[t.card];
            var x := FreeColumn(row, heap, b + 1, t.name, card.faceDown);
            var r := Insert(row, t, x, !card.faceDown && card.attached == []);
            && x == NextFreeBase(row.cells, b)
            && Settled(r) && r.cells == row.cells[x := t] && PileSeq(r.cells, b) == [row.cells[b]]
  {
    hide Insert; hide NextFreeBase; hide Settled; hide NextSlotOfPile;
    var card := heap[t.card];
    var x := FreeColumn(row, heap, b + 1, t.name, card.faceDown);
    assert Base(b + 1) == b;
    FreeColumnIsNextSlot(row, heap, b + 1, t.name, card.faceDown);
    NextSlotIsSafe(row, t, x, !card.faceDown && card.attached == []);
    InsertedCells(row, t, x, !card.faceDown && card.attached == []);
    assert (x - b) % 3 == 0 && x != b;
  }

  lemma SpillShape(taken: Row, heap: Heap, b: int)
    requires CardsKnown(taken.cells, heap) && b >= 0 && b % 3 == 0
    requires b in taken.cells && b + 1 !in taken.cells && b + 2 in taken.cells
    requires heap[taken.cells[b + 2].card].attached == []
    ensures var t := taken.cells[b + 2];
            var alone := Remove(taken, t.name, b + 2);
            && CardsKnown(alone.cells, heap)
            && var card := heap[t.card];
               var x := FreeColumn(alone, heap, b + 1, t.name, card.faceDown);
               FixPile(taken, heap, b) == Insert(alone, t, x, !card.faceDown)
  {
  }

  lemma LeavesBottomAlone(row: Row, b: int)
    requires Settled(row) && b >= 0 && b % 3 == 0 && PileFull(row.cells, b)
    ensures var taken := Remove(row, row.cells[b + 1].name, b + 1);
            var alone := Remove(taken, row.cells[b + 2].name, b + 2);
            && taken.cells == row.cells - {b + 1}
            && alone.cells == row.cells - {b + 1, b + 2}
            && Settled(alone)
  {
    var t, m := row.cells[b + 2], row.cells[b + 1];
    RemoveKeepsIndexed(row, m.name, b + 1);
    var taken := Remove(row, m.name, b + 1);
    assert taken.cells == row.cells - {b + 1};
    RemoveKeepsIndexed(taken, t.name, b + 2);
    var alone := Remove(taken, t.name, b + 2);
    assert alone.cells == row.cells - {b + 1, b + 2};
    GapFreeBelow(row, alone, b);
  }

  lemma GapFreeBelow(row: Row, alone: Row, b: int)
    requires GapFree(row) && b >= 0 && b % 3 == 0 && alone.cells == row.cells - {b + 1, b + 2}
    ensures GapFree(alone)
  {
    forall p | p >= 0 && p % 3 == 0
      ensures PileGapFree(alone.cells, p)
    {
      assert PileGapFree(row.cells, p);
      assert p != b ==> p + 2 < b || b + 2 < p;
    }
  }

  lemma {:induction false} SameFreeBase(c: map<int, Tile>, d: map<int, Tile>, b: int, x: int)
    requires b <= x && (x - b) % 3 == 0
    requires d == c - {b + 1, b + 2}
    ensures NextFreeBase(c, x) == NextFreeBase(d, x)
    decreases |set k | k in c && x <= k|
  {
    if x in c {
      FewerAbove(c, x, x + 3, x);
      SameFreeBase(c, d, b, x + 3);
    }
  }
}

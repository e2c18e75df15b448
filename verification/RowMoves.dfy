/**
 Single moves on one row of the table: a card moved within its row, refreshed in place, or moved
 aside because another card is attached to it - and exactly when each leaves the row settled.
 */
module RowMoves {
  import opened Cards
  import opened PileRow
  import opened PileRowProofs
  import opened Compaction

  // ------------------------------------------------------------------ moving a card within its row

  /** moveCard for a card that stays in its row; `faceDown` is the face it is to lie with. */
  function MoveWithin(row: Row, heap: Heap, from: int, x: int, faceDown: bool): Row
    requires CardsKnown(row.cells, heap) && from in row.cells && Indexed(row)
  {
    var t := row.cells[from];
    var card := heap[t.card];
    if PassedOver(row.cells, card, x) then row
    else
      var taken := Remove(row, t.name, from);
      RemoveKeepsIndexed(row, t.name, from);
      Insert(taken, t, FreeColumn(taken, heap, x, t.name, faceDown), Listable(card))
  }

  predicate Listable(card: Card)
  {
    !card.faceDown && card.attached == []
  }

  /** Asking for x >= 0 ends at the bottom slot p, once that slot is free. */
  ghost predicate Reaches(row: Row, heap: Heap, x: int, p: int)
    requires CardsKnown(row.cells, heap)
  {
    x >= 0 &&
    var b := Base(x);
    || b == p
    || (&& b < p && b in row.cells && (heap[row.cells[b].card].attached != [] || PileFull(row.cells, b))
        && forall q :: b < q < p && q % 3 == 0 ==> q in row.cells)
  }

  /** Another card of the pile bears the name of its bottom card. */
  predicate Alike(cells: map<int, Tile>, p: int)
    requires PileFull(cells, p)
  {
    cells[p + 1].name == cells[p].name || cells[p + 2].name == cells[p].name
  }

  /**
   The request puts a card of that name on other cards: the pile asked for has room and a bottom card
   without attachments, or the newest pile listed under the name has a face-up one.
   */
  predicate JoinsOthers(row: Row, heap: Heap, x: int, name: string, dontStack: bool)
    requires CardsKnown(row.cells, heap)
  {
    if x >= 0 then
      Base(x) in row.cells && heap[row.cells[Base(x)].card].attached == [] && !PileFull(row.cells, Base(x))
    else
      x == -1 && !dontStack && Listed(row.piles, name) && OpenToStack(row.cells, heap, Lookup(row.piles, name))
  }

  predicate OpenToStack(cells: map<int, Tile>, heap: Heap, b: int)
    requires CardsKnown(cells, heap)
  {
    b in cells && !heap[cells[b].card].faceDown && heap[cells[b].card].attached == []
  }

  /** On a settled row the server gives a slot above the bottom exactly to requests that join others. */
  lemma JoinsOthersIff(row: Row, heap: Heap, x: int, name: string, dontStack: bool)
    requires Settled(row) && CardsKnown(row.cells, heap)
    ensures FreeColumn(row, heap, x, name, dontStack) % 3 != 0 <==> JoinsOthers(row, heap, x, name, dontStack)
  {
    assert row.space % 3 == 0;
    if x >= 0 {
      assert Base(x) % 3 == 0;
      hide Indexed; hide GapFree;
    } else if x == -1 && !dontStack && Listed(row.piles, name) {
      var b := Lookup(row.piles, name);
      assert ListingOk(row.cells, Listing(name, b)) && b % 3 == 0 && Base(b) == b;
      assert PileGapFree(row.cells, b);
      hide Indexed; hide GapFree;
    }
  }

  /** The row in which a card counts as lifted from slot x: only its own listing is discounted. */
  function Discounted(row: Row, name: string, x: int): Row
  {
    row.(piles := Unlist(row.piles, Listing(name, x)))
  }

  /**
   The request puts the card back into the hole it leaves in a full pile, and the pile is listed then:
   for the bottom card, the request reaches its column or its name while another card of that name
   stays; for the middle card, the request names the pile or its bottom card's name, and the bottom
   card may be stacked on.
   */
  ghost predicate RefillsFullPile(row: Row, heap: Heap, from: int, x: int, faceDown: bool)
    requires CardsKnown(row.cells, heap) && from in row.cells
  {
    var p, t := Base(from), row.cells[from];
    var card := heap[t.card];
    && PileFull(row.cells, p) && !PassedOver(row.cells, card, x)
    && if from == p then
         && (Alike(row.cells, p) || Listable(card))
         && (Reaches(row, heap, x, p) || (x == -1 && !faceDown && Alike(row.cells, p)))
       else
         var bottom := heap[row.cells[p].card];
         && from == p + 1 && bottom.attached == []
         && ((x >= 0 && Base(x) == p) || (x == -1 && !faceDown && row.cells[p].name == t.name && !bottom.faceDown))
  }

  // ------------------------------------------------------------------ what the removal leaves

  /** A full pile that loses its bottom or middle card is listed under the bottom card's name, newest of all, or not at all. */
  lemma TakenListing(row: Row, from: int)
    requires Settled(row) && from in row.cells && PileFull(row.cells, Base(from))
    ensures var p, t := Base(from), row.cells[from];
            var taken := Remove(row, t.name, from);
            && taken.piles == (if from != p || Alike(row.cells, p) then [Listing(row.cells[p].name, p)] + row.piles else row.piles)
            && (PileListed(taken, p) <==> from != p || Alike(row.cells, p))
            && taken.space == row.space && row.space != p
  {
    var p, t := Base(from), row.cells[from];
    assert from == p || from == p + 1 || from == p + 2;
    var taken := Remove(row, t.name, from);
    forall l | l in row.piles
      ensures l.base != p
    {
      assert ListingOk(row.cells, l);
    }
    var listed := [Listing(row.cells[p].name, p)] + row.piles;
    if from == p && !Alike(row.cells, p) {
      UnlistFirst(row.piles, Listing(t.name, p));
    } else {
      UnlistOther(row, from);
      assert listed[0] == Listing(row.cells[p].name, p);
      assert taken.piles[0].base == p;
    }
  }

  lemma UnlistFirst(piles: seq<Listing>, l: Listing)
    requires l !in piles
    ensures Unlist([l] + piles, l) == piles
  {
    assert ([l] + piles)[1..] == piles;
  }

  lemma UnlistOther(row: Row, from: int)
    requires from in row.cells && PileFull(row.cells, Base(from)) && from >= 0
    requires forall l :: l in row.piles ==> l.base != Base(from)
    requires from != Base(from) || Alike(row.cells, Base(from))
    ensures Remove(row, row.cells[from].name, from).piles == [Listing(row.cells[Base(from)].name, Base(from))] + row.piles
  {
    var p, t := Base(from), row.cells[from];
    assert from == p || from == p + 1 || from == p + 2;
    var cells := row.cells - {from};
    var listed := [Listing(row.cells[p].name, p)] + row.piles;
    if !NameInPile(cells, t.name, p) {
      assert Listing(t.name, p) !in listed;
      assert Unlist(listed, Listing(t.name, p)) == listed;
    }
  }

  /** The column for a request x >= 0 is the slot just left exactly if the request reaches it. */
  lemma AskedColumnRefills(row: Row, heap: Heap, from: int, x: int, faceDown: bool)
    requires Settled(row) && CardsKnown(row.cells, heap) && from in row.cells && PileFull(row.cells, Base(from)) && x >= 0
    requires from % 3 != 2
    ensures var p, t := Base(from), row.cells[from];
            var taken := Remove(row, t.name, from);
            CardsKnown(taken.cells, heap) &&
            (FreeColumn(taken, heap, x, t.name, faceDown) == from
             <==> if from == p then Reaches(row, heap, x, p)
                  else heap[row.cells[p].card].attached == [] && Base(x) == p)
  {
    var p, t := Base(from), row.cells[from];
    assert from == p || from == p + 1;
    var taken := Remove(row, t.name, from);
    assert taken.cells == row.cells - {from};
    var b := Base(x);
    assert b % 3 == 0 && (b == p || b + 2 < p || p + 2 < b);
    hide NextFreeBase; hide Remove; hide Indexed; hide GapFree; hide Settled;
    if from == p && b < p && b in row.cells {
      NextFreeBaseIs(taken.cells, b, p);
      assert PileFull(taken.cells, b) == PileFull(row.cells, b);
      assert forall q :: b < q < p && q % 3 == 0 ==> (q in taken.cells <==> q in row.cells);
      assert (forall q :: b <= q < p && q % 3 == 0 ==> q in taken.cells)
        <==> (forall q :: b < q < p && q % 3 == 0 ==> q in row.cells);
    }
  }

  lemma NextFreeBaseIs(cells: map<int, Tile>, b: int, p: int)
    requires b <= p && (p - b) % 3 == 0 && p !in cells && b % 3 == 0
    ensures NextFreeBase(cells, b) == p <==> forall q :: b <= q < p && q % 3 == 0 ==> q in cells
  {
    var f := NextFreeBase(cells, b);
    if f == p {
      forall q | b <= q < p && q % 3 == 0
        ensures q in cells
      {
        assert (q - b) % 3 == 0;
      }
    } else {
      assert !(p < f);
    }
  }

  /** The same for a card that is to be stacked by its name. */
  lemma NamedColumnRefills(row: Row, heap: Heap, from: int, x: int, faceDown: bool)
    requires Settled(row) && CardsKnown(row.cells, heap) && from in row.cells && PileFull(row.cells, Base(from)) && x < 0
    requires from % 3 != 2
    ensures var p, t := Base(from), row.cells[from];
            var taken := Remove(row, t.name, from);
            CardsKnown(taken.cells, heap) &&
            (FreeColumn(taken, heap, x, t.name, faceDown) == from
             <==> && x == -1 && !faceDown
                  && if from == p then Alike(row.cells, p)
                     else && row.cells[p].name == t.name
                          && !heap[row.cells[p].card].faceDown && heap[row.cells[p].card].attached == [])
  {
    var p, t := Base(from), row.cells[from];
    assert from == p || from == p + 1;
    var taken := Remove(row, t.name, from);
    assert taken.cells == row.cells - {from};
    TakenListing(row, from);
    assert row.space % 3 == 0;
    hide Remove; hide Settled; hide FreeColumn; hide PileListed;
    if x != -1 || faceDown {
      SentToSpace(taken, heap, x, t.name, faceDown);
    } else if if from == p then Alike(row.cells, p) else row.cells[p].name == t.name {
      NewestIsLeft(taken, heap, from, p, t.name);
    } else {
      NewestIsOther(row, taken, heap, from, p, t.name);
    }
  }

  lemma SentToSpace(row: Row, heap: Heap, x: int, name: string, faceDown: bool)
    requires CardsKnown(row.cells, heap) && x < 0 && (x != -1 || faceDown)
    ensures FreeColumn(row, heap, x, name, faceDown) == row.space
  {
  }

  /** The newest listing of the name is that of the pile just left. */
  lemma NewestIsLeft(taken: Row, heap: Heap, from: int, p: int, name: string)
    requires CardsKnown(taken.cells, heap) && p % 3 == 0 && taken.space != from
    requires taken.piles != [] && taken.piles[0] == Listing(name, p)
    requires p >= 0 && (if from == p then p !in taken.cells else from == p + 1 && p in taken.cells && p + 1 !in taken.cells)
    ensures FreeColumn(taken, heap, -1, name, false) == from
            <==> (from != p ==> !heap[taken.cells[p].card].faceDown && heap[taken.cells[p].card].attached == [])
  {
    assert Lookup(taken.piles, name) == p && Base(p) == p;
  }

  /** The name is listed elsewhere or nowhere. */
  lemma NewestIsOther(row: Row, taken: Row, heap: Heap, from: int, p: int, name: string)
    requires Settled(row) && CardsKnown(taken.cells, heap) && PileFull(row.cells, p) && p >= 0 && p % 3 == 0
    requires (from == p || from == p + 1) && taken.space == row.space != p
    requires taken.piles == row.piles || (taken.piles == [Listing(row.cells[p].name, p)] + row.piles && row.cells[p].name != name)
    ensures FreeColumn(taken, heap, -1, name, false) != from
  {
    assert row.space % 3 == 0;
    if Listed(taken.piles, name) {
      NewestElsewhere(row, taken.piles, name, p);
      hide Settled; hide Lookup;
      var b := Lookup(taken.piles, name);
      assert b + 2 < p || p + 2 < b;
    }
  }

  /** Only the newest listing can be that of the pile just left. */
  lemma NewestElsewhere(row: Row, piles: seq<Listing>, name: string, p: int)
    requires Settled(row) && PileFull(row.cells, p) && p >= 0 && p % 3 == 0
    requires piles == row.piles || (piles == [Listing(row.cells[p].name, p)] + row.piles && row.cells[p].name != name)
    requires Listed(piles, name)
    ensures var b := Lookup(piles, name); b % 3 == 0 && Base(b) == b && b != p
  {
    var b := Lookup(piles, name);
    assert Listing(name, b) in row.piles;
    assert ListingOk(row.cells, Listing(name, b));
  }

  /** The condition on the request says just that the chosen slot is the one left, in a pile that is listed then. */
  lemma RefillMeans(row: Row, heap: Heap, from: int, x: int, faceDown: bool)
    requires Settled(row) && CardsKnown(row.cells, heap) && from in row.cells
    ensures var t := row.cells[from];
            var taken := Remove(row, t.name, from);
            CardsKnown(taken.cells, heap) &&
            (RefillsFullPile(row, heap, from, x, faceDown)
             <==> && !PassedOver(row.cells, heap[t.card], x)
                  && PileFull(row.cells, Base(from)) && from % 3 != 2
                  && FreeColumn(taken, heap, x, t.name, faceDown) == from
                  && (PileListed(taken, Base(from)) || (from % 3 == 0 && Listable(heap[t.card]))))
  {
    var p, t := Base(from), row.cells[from];
    assert from == p || from == p + 1 || from == p + 2;
    assert Remove(row, t.name, from).cells == row.cells - {from};
    hide Remove; hide FreeColumn; hide PileListed; hide Settled;
    if PileFull(row.cells, p) && from % 3 != 2 {
      TakenListing(row, from);
      if x >= 0 {
        AskedColumnRefills(row, heap, from, x, faceDown);
      } else {
        NamedColumnRefills(row, heap, from, x, faceDown);
      }
    }
  }

  // ------------------------------------------------------------------ where the card may land

  lemma FreeColumnUnused(row: Row, heap: Heap, x: int, name: string, dontStack: bool)
    requires Indexed(row) && CardsKnown(row.cells, heap)
    ensures var c := FreeColumn(row, heap, x, name, dontStack); c >= 0 && c !in row.cells
  {
    if x == -1 && !dontStack && Listed(row.piles, name) {
      assert ListingOk(row.cells, Listing(name, Lookup(row.piles, name)));
    }
  }

  /** A pile whose bottom slot is free after the card left it is listed under no other name. */
  lemma ListedUnderOwnName(row: Row, from: int, c: int)
    requires Settled(row) && from in row.cells && c >= 0 && c % 3 == 0
    requires c !in Remove(row, row.cells[from].name, from).cells
    ensures forall l :: l in Remove(row, row.cells[from].name, from).piles && l.base == c ==> l.name == row.cells[from].name
  {
    hide Unlist;
    var p := Base(from);
    var taken := Remove(row, row.cells[from].name, from);
    assert from == p || from == p + 1 || from == p + 2;
    forall l | l in taken.piles && l.base == c
      ensures l.name == row.cells[from].name
    {
      if l in row.piles {
        assert ListingOk(row.cells, l);
        assert PileGapFree(row.cells, c);
      } else {
        assert l == Listing(row.cells[p].name, p);
      }
    }
  }

  lemma SafeUnlessRefill(row: Row, from: int, c: int, listable: bool)
    requires Settled(row) && from in row.cells
    requires var taken := Remove(row, row.cells[from].name, from);
             c >= 0 && c !in taken.cells && (c % 3 != 0 ==> Base(c) in taken.cells)
    ensures var taken := Remove(row, row.cells[from].name, from);
            SafeSlot(taken, row.cells[from], c, listable)
            <==> !(PileFull(row.cells, Base(from)) && from % 3 != 2 && c == from
                   && (PileListed(taken, Base(from)) || (from % 3 == 0 && listable)))
  {
    if Base(c) == Base(from) {
      SafeInSamePile(row, from, c, listable);
    } else {
      SafeInOtherPile(row, from, c, listable);
    }
  }

  lemma SafeInOtherPile(row: Row, from: int, c: int, listable: bool)
    requires Settled(row) && from in row.cells && Base(c) != Base(from)
    requires var taken := Remove(row, row.cells[from].name, from);
             c >= 0 && c !in taken.cells && (c % 3 != 0 ==> Base(c) in taken.cells)
    ensures SafeSlot(Remove(row, row.cells[from].name, from), row.cells[from], c, listable)
  {
    RemoveKeepsIndexed(row, row.cells[from].name, from);
    var b, p := Base(c), Base(from);
    assert PileGapFree(row.cells, b);
    assert c == b || c == b + 1 || c == b + 2;
    assert from == p || from == p + 1 || from == p + 2;
    assert b + 2 < p || p + 2 < b;
    if c % 3 == 0 {
      ListedUnderOwnName(row, from, c);
    }
  }

  lemma SafeInSamePile(row: Row, from: int, c: int, listable: bool)
    requires Settled(row) && from in row.cells && Base(c) == Base(from)
    requires var taken := Remove(row, row.cells[from].name, from);
             c >= 0 && c !in taken.cells && (c % 3 != 0 ==> Base(c) in taken.cells)
    ensures var taken := Remove(row, row.cells[from].name, from);
            SafeSlot(taken, row.cells[from], c, listable)
            <==> !(PileFull(row.cells, Base(from)) && from % 3 != 2 && c == from
                   && (PileListed(taken, Base(from)) || (from % 3 == 0 && listable)))
  {
    RemoveKeepsIndexed(row, row.cells[from].name, from);
    var p := Base(from);
    assert PileGapFree(row.cells, p);
    assert c == p || c == p + 1 || c == p + 2;
    assert from == p || from == p + 1 || from == p + 2;
    if c % 3 == 0 {
      ListedUnderOwnName(row, from, c);
    }
  }

  // ------------------------------------------------------------------ parents stay alone

  /** Cards under a free bottom slot carry no attachments. */
  ghost predicate HolesUnburdened(cells: map<int, Tile>, heap: Heap)
  {
    forall b :: b >= 0 && b % 3 == 0 && b !in cells ==> Unburdened(PileSeq(cells, b), heap)
  }

  lemma FewerStayAlone(cells: map<int, Tile>, heap: Heap, fewer: map<int, Tile>)
    requires CardsKnown(cells, heap) && ParentsAlone(cells, heap) && GapFree(Row(cells, [], 0))
    requires fewer.Keys <= cells.Keys && forall x :: x in fewer ==> fewer[x] == cells[x]
    ensures ParentsAlone(fewer, heap) && HolesUnburdened(fewer, heap)
  {
    forall b | b >= 0 && b % 3 == 0
      ensures |PileSeq(fewer, b)| <= 1 || Unburdened(PileSeq(fewer, b), heap)
      ensures b !in fewer ==> Unburdened(PileSeq(fewer, b), heap)
    {
      assert forall t :: t in PileSeq(fewer, b) ==> t in PileSeq(cells, b);
      assert PileGapFree(cells, b);
    }
  }

  /** A card without attachments is never sent into a pile with a card that carries some. */
  lemma ColumnUnburdened(row: Row, heap: Heap, x: int, name: string, dontStack: bool)
    requires Indexed(row) && CardsKnown(row.cells, heap) && ParentsAlone(row.cells, heap) && HolesUnburdened(row.cells, heap)
    ensures var c := FreeColumn(row, heap, x, name, dontStack);
            c >= 0 && Unburdened(PileSeq(row.cells, Base(c)), heap)
  {
    hide FreeColumn; hide Indexed;
    FreeColumnUnused(row, heap, x, name, dontStack);
    BottomUnburdened(row, heap, x, name, dontStack);
    var c := FreeColumn(row, heap, x, name, dontStack);
    var b := Base(c);
    assert b % 3 == 0 && b >= 0;
    if b in row.cells {
      assert PileSeq(row.cells, b)[0] == row.cells[b];
      assert |PileSeq(row.cells, b)| == 1 ==> PileSeq(row.cells, b) == [row.cells[b]];
    }
  }

  lemma BottomUnburdened(row: Row, heap: Heap, x: int, name: string, dontStack: bool)
    requires Indexed(row) && CardsKnown(row.cells, heap)
    ensures var b := Base(FreeColumn(row, heap, x, name, dontStack));
            b in row.cells ==> heap[row.cells[b].card].attached == []
  {
    hide NextFreeBase; hide Lookup;
    if x == -1 && !dontStack && Listed(row.piles, name) {
      assert ListingOk(row.cells, Listing(name, Lookup(row.piles, name)));
    }
  }

  /** The card is put into a pile without burdened cards, or is burdened itself and gets an empty pile. */
  lemma OneMoreStaysAlone(cells: map<int, Tile>, heap: Heap, c: int, t: Tile)
    requires ParentsAlone(cells, heap) && c >= 0 && c !in cells && t.card in heap
    requires if heap[t.card].attached == [] then Unburdened(PileSeq(cells, Base(c)), heap) else PileSeq(cells, Base(c)) == []
    ensures ParentsAlone(cells[c := t], heap)
  {
    var p := Base(c);
    assert c == p || c == p + 1 || c == p + 2;
    var after := cells[c := t];
    forall b | b >= 0 && b % 3 == 0
      ensures |PileSeq(after, b)| <= 1 || Unburdened(PileSeq(after, b), heap)
    {
      if b == p {
        assert forall u :: u in PileSeq(after, b) ==> u == t || u in PileSeq(cells, b);
      } else {
        assert b + 2 < p || p + 2 < b;
        assert PileSeq(after, b) == PileSeq(cells, b);
      }
    }
  }

  lemma EmptyBySeq(cells: map<int, Tile>, b: int)
    ensures PileSeq(cells, b) == [] <==> PileEmpty(cells, b)
  {
  }

  /**
   A card that arrives on a settled row where parents are alone leaves them alone exactly if it
   carries no attachments itself or the request does not put it on other cards.
   */
  lemma ArrivalKeepsAloneIff(row: Row, heap: Heap, t: Tile, x: int, dontStack: bool)
    requires Settled(row) && CardsKnown(row.cells, heap) && ParentsAlone(row.cells, heap) && t.card in heap
    ensures var c := FreeColumn(row, heap, x, t.name, dontStack);
            c >= 0 && c !in row.cells
            && (ParentsAlone(row.cells[c := t], heap)
                <==> heap[t.card].attached == [] || !JoinsOthers(row, heap, x, t.name, dontStack))
  {
    JoinsOthersIff(row, heap, x, t.name, dontStack);
    hide JoinsOthers;
    hide FreeColumn; hide ParentsAlone; hide GapFree; hide Indexed;
    SameCellsGapFree(row, Row(row.cells, [], 0));
    FewerStayAlone(row.cells, heap, row.cells);
    FreeColumnIsNextSlot(row, heap, x, t.name, dontStack);
    var c := FreeColumn(row, heap, x, t.name, dontStack);
    ColumnUnburdened(row, heap, x, t.name, dontStack);
    EmptyBySeq(row.cells, Base(c));
    if heap[t.card].attached == [] || c % 3 == 0 {
      OneMoreStaysAlone(row.cells, heap, c, t);
    } else {
      SharedParent(row.cells[c := t], heap, c);
    }
  }

  lemma SharedParent(cells: map<int, Tile>, heap: Heap, c: int)
    requires c in cells && c % 3 != 0 && c >= 0 && Base(c) in cells
    requires cells[c].card in heap && heap[cells[c].card].attached != []
    ensures !ParentsAlone(cells, heap)
  {
    var b := Base(c);
    assert c == b + 1 || c == b + 2;
    assert cells[c] in PileSeq(cells, b) && |PileSeq(cells, b)| >= 2;
    assert b % 3 == 0;
  }

  /** What a heap says about the burdens of the cards in these slots. */
  ghost predicate SameBurdens(cells: map<int, Tile>, a: Heap, b: Heap)
  {
    CardsKnown(cells, a) && CardsKnown(cells, b)
    && forall x :: x in cells ==> b[cells[x].card].attached == a[cells[x].card].attached
  }

  lemma SameBurdensAlone(cells: map<int, Tile>, a: Heap, b: Heap)
    requires SameBurdens(cells, a, b)
    ensures ParentsAlone(cells, a) <==> ParentsAlone(cells, b)
  {
    forall p | p >= 0 && p % 3 == 0
      ensures Unburdened(PileSeq(cells, p), a) <==> Unburdened(PileSeq(cells, p), b)
    {
      assert forall t :: t in PileSeq(cells, p) ==> exists x :: x in cells && cells[x] == t;
    }
  }

  lemma MoveKeepsAlone(row: Row, heap: Heap, from: int, x: int, faceDown: bool)
    requires Settled(row) && CardsKnown(row.cells, heap) && ParentsAlone(row.cells, heap) && from in row.cells
    requires LandsWell(row, heap, from, x, faceDown)
    ensures var r := MoveWithin(row, heap, from, x, faceDown); ParentsAlone(r.cells, heap) && CardsKnown(r.cells, heap)
  {
    var t := row.cells[from];
    RemovedCells(row, t.name, from);
    hide FreeColumn; hide ParentsAlone; hide GapFree; hide Indexed; hide PileGapFree; hide LandsWell;
    if !PassedOver(row.cells, heap[t.card], x) {
      var taken := Remove(row, t.name, from);
      RemoveKeepsIndexed(row, t.name, from);
      SameCellsGapFree(row, Row(row.cells, [], 0));
      FewerStayAlone(row.cells, heap, taken.cells);
      FreeColumnUnused(taken, heap, x, t.name, faceDown);
      var c := FreeColumn(taken, heap, x, t.name, faceDown);
      ColumnUnburdened(taken, heap, x, t.name, faceDown);
      MovedCells(row, heap, from, x, faceDown);
      hide Remove; hide MoveWithin;
      if heap[t.card].attached != [] {
        ParentGetsEmptyPile(row, heap, from, x, faceDown);
      }
      OneMoreStaysAlone(taken.cells, heap, c, t);
    }
  }

  lemma ParentGetsEmptyPile(row: Row, heap: Heap, from: int, x: int, faceDown: bool)
    requires Settled(row) && CardsKnown(row.cells, heap) && ParentsAlone(row.cells, heap) && from in row.cells
    requires heap[row.cells[from].card].attached != [] && !PassedOver(row.cells, heap[row.cells[from].card], x)
    requires LandsWell(row, heap, from, x, faceDown)
    ensures var taken := Remove(row, row.cells[from].name, from);
            CardsKnown(taken.cells, heap)
            && PileSeq(taken.cells, Base(FreeColumn(taken, heap, x, row.cells[from].name, faceDown))) == []
  {
    hide FreeColumn; hide ParentsAlone; hide GapFree; hide Indexed; hide PileGapFree; hide LandsWell; hide Remove;
    LandsWellMeans(row, heap, from, x, faceDown);
    var taken := Remove(row, row.cells[from].name, from);
    FreeColumnUnused(taken, heap, x, row.cells[from].name, faceDown);
    FreeBottomIsEmpty(taken, FreeColumn(taken, heap, x, row.cells[from].name, faceDown));
  }

  lemma FreeBottomIsEmpty(row: Row, c: int)
    requires GapFree(row) && c >= 0 && c % 3 == 0 && c !in row.cells
    ensures PileSeq(row.cells, Base(c)) == []
  {
    assert PileGapFree(row.cells, c);
  }

  lemma MovedCells(row: Row, heap: Heap, from: int, x: int, faceDown: bool)
    requires Indexed(row) && CardsKnown(row.cells, heap) && from in row.cells
    requires !PassedOver(row.cells, heap[row.cells[from].card], x)
    ensures var t := row.cells[from];
            var taken := Remove(row, t.name, from);
            CardsKnown(taken.cells, heap)
            && var c := FreeColumn(taken, heap, x, t.name, faceDown);
               c >= 0 && MoveWithin(row, heap, from, x, faceDown).cells == taken.cells[c := t]
  {
    hide FreeColumn; hide Remove;
    var t := row.cells[from];
    RemoveKeepsIndexed(row, t.name, from);
    var taken := Remove(row, t.name, from);
    assert taken.cells.Keys <= row.cells.Keys && forall y :: y in taken.cells ==> taken.cells[y] == row.cells[y] by {
      RemovedCells(row, t.name, from);
    }
    FreeColumnUnused(taken, heap, x, t.name, faceDown);
  }

  lemma RemovedCells(row: Row, name: string, x: int)
    requires x >= 0
    ensures Remove(row, name, x).cells == row.cells - {x}
  {
  }

  /** A card with attachments is passed over or not put on others; any other card may go anywhere. */
  predicate LandsWell(row: Row, heap: Heap, from: int, x: int, faceDown: bool)
    requires CardsKnown(row.cells, heap) && from in row.cells
  {
    var t := row.cells[from];
    heap[t.card].attached == [] || PassedOver(row.cells, heap[t.card], x)
    || !JoinsOthers(Discounted(row, t.name, from), heap, x, t.name, faceDown)
  }

  /** For a card with attachments that is moved, that is to say: it gets a bottom slot. */
  lemma LandsWellMeans(row: Row, heap: Heap, from: int, x: int, faceDown: bool)
    requires Settled(row) && CardsKnown(row.cells, heap) && ParentsAlone(row.cells, heap) && from in row.cells
    requires heap[row.cells[from].card].attached != [] && !PassedOver(row.cells, heap[row.cells[from].card], x)
    ensures var t := row.cells[from];
            var taken := Remove(row, t.name, from);
            && CardsKnown(taken.cells, heap) && Settled(taken)
            && (LandsWell(row, heap, from, x, faceDown) <==> FreeColumn(taken, heap, x, t.name, faceDown) % 3 == 0)
  {
    var t := row.cells[from];
    var taken := Remove(row, t.name, from);
    ParentTaken(row, heap, from);
    JoinsOthersIff(taken, heap, x, t.name, faceDown);
    hide Indexed; hide GapFree; hide ParentsAlone; hide FreeColumn; hide Remove;
  }

  /** Lifting a card that has its pile for itself takes its slot and its listing away, and nothing else. */
  lemma ParentTaken(row: Row, heap: Heap, from: int)
    requires Settled(row) && CardsKnown(row.cells, heap) && ParentsAlone(row.cells, heap) && from in row.cells
    requires heap[row.cells[from].card].attached != []
    ensures var t := row.cells[from];
            var taken := Remove(row, t.name, from);
            && Settled(taken) && CardsKnown(taken.cells, heap)
            && taken.cells == row.cells - {from} && taken.piles == Discounted(row, t.name, from).piles
  {
    var t := row.cells[from];
    KeysNatural(row, from);
    ParentLeavesNoGap(row, heap, from);
    RemoveKeepsIndexed(row, t.name, from);
    RemovedCells(row, t.name, from);
    ParentAtBottom(row, heap, from);
    hide Indexed; hide GapFree; hide ParentsAlone;
  }

  lemma ParentAtBottom(row: Row, heap: Heap, from: int)
    requires Settled(row) && CardsKnown(row.cells, heap) && ParentsAlone(row.cells, heap) && from in row.cells
    requires heap[row.cells[from].card].attached != []
    ensures from % 3 == 0 && from + 1 !in row.cells && from + 2 !in row.cells
  {
    var p, t := Base(from), row.cells[from];
    KeysNatural(row, from);
    assert from == p || from == p + 1 || from == p + 2;
    assert PileGapFree(row.cells, p);
    assert t in PileSeq(row.cells, p);
    assert |PileSeq(row.cells, p)| <= 1;
  }

  lemma KeysNatural(row: Row, x: int)
    requires Indexed(row) && x in row.cells
    ensures x >= 0
  {
  }

  lemma ParentLeavesNoGap(row: Row, heap: Heap, from: int)
    requires Settled(row) && CardsKnown(row.cells, heap) && ParentsAlone(row.cells, heap) && from in row.cells
    requires heap[row.cells[from].card].attached != []
    ensures GapFree(Remove(row, row.cells[from].name, from))
  {
    hide Indexed; hide Remove; hide CardsKnown;
    var p, t := Base(from), row.cells[from];
    assert from >= 0 by { KeysNatural(row, from); }
    assert from == p || from == p + 1 || from == p + 2;
    assert t in PileSeq(row.cells, p);
    RemovedCells(row, t.name, from);
    assert |PileSeq(row.cells, p)| <= 1;
    hide ParentsAlone;
    var taken := Remove(row, t.name, from);
    forall b | b >= 0 && b % 3 == 0
      ensures PileGapFree(taken.cells, b)
    {
      assert PileGapFree(row.cells, b);
      assert b != p ==> b + 2 < p || p + 2 < b;
    }
  }

  /**
   A move within the row, followed by compaction, settles the row again exactly if it does not refill
   a full pile.
   */
  lemma MoveWithinSettlesIff(row: Row, heap: Heap, from: int, x: int, faceDown: bool, heap': Heap, order: seq<int>)
    requires Settled(row) && CardsKnown(row.cells, heap) && ParentsAlone(row.cells, heap) && from in row.cells
    requires LandsWell(row, heap, from, x, faceDown)
    requires var moved := MoveWithin(row, heap, from, x, faceDown);
             SameBurdens(moved.cells, heap, heap') && GapsCovered(moved.cells, order)
    ensures Settled(FixPiles(MoveWithin(row, heap, from, x, faceDown), heap', order))
            <==> !RefillsFullPile(row, heap, from, x, faceDown)
  {
    hide FreeColumn; hide Remove; hide Insert; hide ParentsAlone; hide LandsWell; hide GapFree; hide Indexed;
    var moved := MoveWithin(row, heap, from, x, faceDown);
    MoveKeepsAlone(row, heap, from, x, faceDown);
    SameBurdensAlone(moved.cells, heap, heap');
    AloneIsClosable(moved.cells, heap');
    MovedIndexedIff(row, heap, from, x, faceDown);
    if RefillsFullPile(row, heap, from, x, faceDown) {
      RefillIsFull(row, heap, from, x, faceDown);
      SameCellsGapFree(row, moved);
      FixPilesIdle(moved, heap', order);
    } else {
      FixPilesCloses(moved, heap', order);
    }
  }

  lemma SameCellsGapFree(row: Row, after: Row)
    requires after.cells == row.cells
    ensures GapFree(after) <==> GapFree(row)
  {
  }

  /** The indexes survive the move exactly if it does not refill a full pile. */
  lemma MovedIndexedIff(row: Row, heap: Heap, from: int, x: int, faceDown: bool)
    requires Settled(row) && CardsKnown(row.cells, heap) && from in row.cells
    ensures Indexed(MoveWithin(row, heap, from, x, faceDown)) <==> !RefillsFullPile(row, heap, from, x, faceDown)
  {
    hide FreeColumn; hide RefillsFullPile;
    var t := row.cells[from];
    RefillMeans(row, heap, from, x, faceDown);
    if !PassedOver(row.cells, heap[t.card], x) {
      var taken := Remove(row, t.name, from);
      RemoveKeepsIndexed(row, t.name, from);
      FreeColumnUnused(taken, heap, x, t.name, faceDown);
      var c := FreeColumn(taken, heap, x, t.name, faceDown);
      hide Remove; hide Insert;
      SafeUnlessRefill(row, from, c, Listable(heap[t.card]));
      InsertKeepsIndexedIff(taken, t, c, Listable(heap[t.card]));
    }
  }

  lemma {:induction false} FixPilesIdle(row: Row, heap: Heap, order: seq<int>)
    requires CardsKnown(row.cells, heap) && GapFree(row) && PileOrder(order)
    ensures FixPiles(row, heap, order) == row
    decreases |order|
  {
    if order != [] {
      assert PileGapFree(row.cells, order[0]);
      FixPilesIdle(row, heap, order[1..]);
    }
  }

  lemma RefillIsFull(row: Row, heap: Heap, from: int, x: int, faceDown: bool)
    requires Settled(row) && CardsKnown(row.cells, heap) && from in row.cells
    requires RefillsFullPile(row, heap, from, x, faceDown)
    ensures MoveWithin(row, heap, from, x, faceDown).cells == row.cells
  {
    hide RefillsFullPile; hide FreeColumn;
    RefillMeans(row, heap, from, x, faceDown);
  }

  // ------------------------------------------------------------------ two ways to be misdirected

  /** Three cards of one name in one pile, face up: full, therefore not listed. */
  function FullPile(name: string): Row
  {
    Row(map[0 := Tile(0, name), 1 := Tile(1, name), 2 := Tile(2, name)], [], 3)
  }

  function FaceUp(name: string, attached: seq<CardRef>): Card
  {
    Card(0, name, false, false, 0, 0, Wrappers.None, Wrappers.None, attached)
  }

  /**
   The smallest failure: the bottom card of a full pile is moved onto its own pile.  The pile is
   then listed as having room, and the next card of that name is sent to an occupied slot.
   */
  lemma RefillMisdirectsNextCard(name: string)
    ensures var row := FullPile(name);
            var heap := map[0 := FaceUp(name, []), 1 := FaceUp(name, []), 2 := FaceUp(name, [])];
            && Settled(row)
            && RefillsFullPile(row, heap, 0, 0, false)
            && var moved := MoveWithin(row, heap, 0, 0, false);
            && GapFree(moved)
            && FreeColumn(moved, heap, -1, name, false) in moved.cells
  {
    var row := FullPile(name);
    var heap := map[0 := FaceUp(name, []), 1 := FaceUp(name, []), 2 := FaceUp(name, [])];
    FullPileSettled(name);
    var taken := Remove(row, name, 0);
    assert taken.piles == [Listing(name, 0)];
    assert FreeColumn(taken, heap, 0, name, false) == 0;
    var moved := MoveWithin(row, heap, 0, 0, false);
    assert Listing(name, 0) in moved.piles;
    assert Listed(moved.piles, name) && Lookup(moved.piles, name) == 0;
    RefillIsFull(row, heap, 0, 0, false);
    SameCellsGapFree(row, moved);
  }

  /**
   The other failure: the top card of a full pile carries attachments and the middle card leaves.
   Compaction leaves the gap; the next card of the name fills it without the pile being unlisted,
   and the one after that is sent to an occupied slot.
   */
  lemma StuckParentMisdirects(name: string)
    ensures var row := FullPile(name);
            var heap := map[0 := FaceUp(name, []), 1 := FaceUp(name, []), 2 := FaceUp(name, [3])];
            var left := Remove(row, name, 1);
            && Settled(row) && CardsKnown(left.cells, heap)
            && FixPiles(left, heap, [0]) == left && !PileGapFree(left.cells, 0)
            && FreeColumn(left, heap, -1, name, false) == 1
            && var filled := Insert(left, Tile(1, name), 1, true);
            && CardsKnown(filled.cells, heap)
            && FreeColumn(filled, heap, -1, name, false) in filled.cells
  {
    var row := FullPile(name);
    var heap := map[0 := FaceUp(name, []), 1 := FaceUp(name, []), 2 := FaceUp(name, [3])];
    FullPileSettled(name);
    var left := Remove(row, name, 1);
    assert left.piles == [Listing(name, 0)];
    assert [0][1..] == [];
    StuckStays(left, heap, 0);
    assert Listed(left.piles, name) && Lookup(left.piles, name) == 0;
  }

  lemma FullPileSettled(name: string)
    ensures Settled(FullPile(name))
  {
    var row := FullPile(name);
    assert forall b :: 0 <= b < 3 && b % 3 == 0 ==> b == 0;
  }

  // ------------------------------------------------------------------ refreshing a card's listing

  /** updateCardCoordinates for a card that stays at x: out of the indexes and back in. */
  function Refresh(row: Row, x: int, listable: bool): Row
    requires x in row.cells && (x % 3 == 2 ==> Base(x) in row.cells)
  {
    var t := row.cells[x];
    Insert(Remove(row, t.name, x), t, x, listable)
  }

  /**
   A refresh keeps the row settled exactly if it does not concern the middle card of a full pile, nor
   its bottom card when that may be listed or another card of its name lies above it.
   */
  lemma RefreshSettlesIff(row: Row, x: int, listable: bool)
    requires Settled(row) && x in row.cells
    ensures x % 3 == 2 ==> Base(x) in row.cells
    ensures Settled(Refresh(row, x, listable))
            <==> !(PileFull(row.cells, Base(x)) && x % 3 != 2 && (x % 3 == 0 ==> listable || Alike(row.cells, Base(x))))
    ensures Refresh(row, x, listable).cells == row.cells
  {
    var b := Base(x);
    assert x == b || x == b + 1 || x == b + 2;
    assert PileGapFree(row.cells, b);
    var t := row.cells[x];
    RemoveKeepsIndexed(row, t.name, x);
    SafeUnlessRefill(row, x, x, listable);
    InsertKeepsIndexedIff(Remove(row, t.name, x), t, x, listable);
    var r := Refresh(row, x, listable);
    assert r.cells == row.cells;
    if PileFull(row.cells, b) {
      TakenListing(row, x);
    }
    SameCellsGapFree(row, r);
  }
}

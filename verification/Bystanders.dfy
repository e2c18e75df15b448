/**
 What commands on tables leave alone: rows and faces.  Whatever is compacted, taken off its parent or hung
 under another card stays in its row and keeps its face and id; a card played to a table lies in the row asked for.
 */
module Bystanders {
  import opened Wrappers
  import Collections
  import opened Cards
  import opened Shuffling
  import opened ZoneLists
  import opened GameState
  import opened Movement
  import opened Commands
  import opened Attachments
  import opened Lifecycle
  import LinkEffects
  import MovedCards

  predicate Still(before: Card, after: Card)
  {
    after.y == before.y && after.faceDown == before.faceDown && after.id == before.id
  }

  /** Of the cards that are left, all but these lie in the rows they lay in, as they lay. */
  ghost predicate Undisturbed(s: State, t: State, moved: set<CardRef>)
  {
    && t.heap.Keys <= s.heap.Keys
    && forall d :: d in t.heap && d !in moved ==> Still(s.heap[d], t.heap[d])
  }

  lemma UndisturbedThen(s: State, t: State, u: State, a: set<CardRef>, b: set<CardRef>)
    requires Undisturbed(s, t, a) && Undisturbed(t, u, b)
    ensures Undisturbed(s, u, a + b)
  {
  }

  lemma StillThen(s: State, t: State, u: State)
    requires Undisturbed(s, t, {}) && Undisturbed(t, u, {})
    ensures Undisturbed(s, u, {})
  {
    UndisturbedThen(s, t, u, {}, {});
  }

  lemma SameHeapUndisturbed(s: State, t: State)
    requires t.heap == s.heap
    ensures Undisturbed(s, t, {})
  {
  }

  // ------------------------------------------------------------------ compaction and unattaching

  lemma RelocateUndisturbed(s: State, c: CardRef, column: nat)
    requires c in s.heap && s.heap[c].zone.Some? && s.heap[c].zone.value in s.zones && c in s.zones[s.heap[c].zone.value]
    ensures Undisturbed(s, Relocate(s, c, column), {})
  {
  }

  lemma {:induction false} CompactUndisturbed(s: State, table: Place, moves: seq<(CardRef, nat)>, f: Lift)
    requires Inv(s, f) && HasCoords(table.zone)
    ensures Undisturbed(s, Compact(s, table, moves, f), {})
    decreases |moves|
  {
    hide Inv; hide Calm; hide SameTrees; hide Undisturbed; hide Relocate;
    if moves == [] {
      SameHeapUndisturbed(s, s);
    } else {
      var (c, column) := moves[0];
      if c in s.heap && s.heap[c].zone == Some(table) && s.heap[c].parent.None? && s.heap[c].x >= 0 && !IsLifted(c, f) {
        RelocateCalm(s, c, column, f);
        RelocateUndisturbed(s, c, column);
        CompactUndisturbed(Relocate(s, c, column), table, moves[1..], f);
        StillThen(s, Relocate(s, c, column), Compact(s, table, moves, f));
      } else {
        CompactUndisturbed(s, table, moves[1..], f);
      }
    }
  }

  lemma DetachUndisturbed(s: State, k: CardRef)
    requires k in s.heap
    requires s.heap[k].parent.Some? ==> s.heap[k].parent.value in s.heap && k in s.heap[s.heap[k].parent.value].attached
    ensures Undisturbed(s, Detach(s, k), {})
  {
  }

  lemma UnattachUndisturbed(s: State, k: CardRef, grid: Grid, f: Lift)
    requires Inv(s, f) && k in s.heap && s.heap[k].parent.Some? && !IsLifted(k, f)
    ensures Undisturbed(s, UnattachCard(s, k, grid, f), {})
  {
    hide Inv; hide Calm; hide Unlinked; hide SameTrees; hide Compact; hide Undisturbed; hide Relocate; hide Detach;
    HasParent(s, k, f);
    DetachCalm(s, k, f);
    DetachUndisturbed(s, k);
    var s1 := Detach(s, k);
    RelocateCalm(s1, k, grid.column(k), f);
    RelocateUndisturbed(s1, k, grid.column(k));
    var s2 := Loosen(s, k, grid.column(k), f);
    StillThen(s, s1, s2);
    if s.heap[k].faceDown {
      CompactUndisturbed(s2, s.heap[k].zone.value, grid.compactedAfter(k), f);
      StillThen(s, s2, UnattachCard(s, k, grid, f));
    }
  }

  lemma {:induction false} UnattachAllUndisturbed(s: State, ks: seq<CardRef>, grid: Grid, f: Lift)
    requires Inv(s, f) && AllAttached(s, ks, f)
    ensures Undisturbed(s, UnattachAll(s, ks, grid, f), {})
    decreases |ks|
  {
    hide Inv; hide Calm; hide Unlinked; hide UnattachCard; hide Undisturbed;
    if ks == [] {
      SameHeapUndisturbed(s, s);
    } else {
      assert ks[0] in ks;
      var s1 := UnattachCard(s, ks[0], grid, f);
      UnattachUndisturbed(s, ks[0], grid, f);
      StillAttached(s, s1, ks, f);
      UnattachAllUndisturbed(s1, ks[1..], grid, f);
      StillThen(s, s1, UnattachAll(s, ks, grid, f));
    }
  }

  // ------------------------------------------------------------------ attaching

  lemma LinkUndisturbed(s: State, c: CardRef, q: CardRef)
    requires c in s.heap && q in s.heap
    requires s.heap[c].parent.Some? ==> s.heap[c].parent.value in s.heap && c in s.heap[s.heap[c].parent.value].attached
    ensures Undisturbed(s, Link(s, c, q), {})
  {
  }

  lemma HangUndisturbed(s: State, c: CardRef, q: CardRef, grid: Grid)
    requires Inv(s, NoCard) && Attachable(s, c, q)
    ensures Undisturbed(s, HangUnder(s, c, q, grid), {})
  {
    hide Inv; hide SameSetting; hide UnattachAll; hide Calm; hide UnlinkedAll; hide AllAttached; hide NoArrowsAt; hide Undisturbed;
    hide Linked; hide SetParent; hide Link;
    DropArrowsKeepsInv(s, c, NoCard);
    var s1 := DropArrows(s, c);
    SameHeapUndisturbed(s, s1);
    ChildrenAttachedPlain(s1, c);
    UnattachAllUndisturbed(s1, s1.heap[c].attached, grid, NoCard);
    var s2 := ShedLinks(s, c, q, grid);
    StillThen(s, s1, s2);
    LinkKeepsInv(s2, c, q);
    LinkUndisturbed(s2, c, q);
    StillThen(s, s2, HangUnder(s, c, q, grid));
  }

  lemma RoomUndisturbed(s: State, q: CardRef, grid: Grid)
    requires Inv(s, NoCard) && q in s.heap && s.heap[q].parent.None? && OnTable(s, q, NoCard)
    ensures Undisturbed(s, GiveRoom(s, q, grid), {})
  {
    hide Inv; hide SameSetting; hide Calm; hide SameTrees; hide Compact; hide Relocate; hide Undisturbed;
    SameHeapUndisturbed(s, s);
    if grid.stacked {
      RelocateCalm(s, q, grid.column(q), NoCard);
      RelocateUndisturbed(s, q, grid.column(q));
      var s1 := Relocate(s, q, grid.column(q));
      if s.heap[q].faceDown {
        CompactUndisturbed(s1, s.heap[q].zone.value, grid.compactedAfter(q), NoCard);
        StillThen(s, s1, GiveRoom(s, q, grid));
      }
    }
  }

  /** Attaching a card, with all it sets off, leaves every card in its row, with its face and id; the card itself lies at x = -1. */
  lemma AttachUndisturbed(s: State, c: CardRef, q: CardRef, grid: Grid)
    requires Inv(s, NoCard) && Attachable(s, c, q)
    ensures var t := AttachCard(s, c, q, grid);
            Undisturbed(s, t, {}) && t.heap.Keys == s.heap.Keys && t.heap[c].x == -1
  {
    hide Inv; hide SameSetting; hide Calm; hide SameTrees; hide Compact; hide HangUnder; hide GiveRoom; hide Undisturbed;
    HangUndisturbed(s, c, q, grid);
    var s1 := HangUnder(s, c, q, grid);
    OnSameTables(s, s1, c, q);
    RoomUndisturbed(s1, q, grid);
    var s2 := GiveRoom(s1, q, grid);
    StillThen(s, s1, s2);
    var t := AttachCard(s, c, q, grid);
    CompactUndisturbed(s2, s.heap[c].zone.value, grid.compactedAtEnd, NoCard);
    StillThen(s, s2, t);
    LinkEffects.AttachLinks(s, c, q, grid);
    SettingHeap(s, t);
    HungAside(t, c);
  }

  lemma SettingHeap(s: State, t: State)
    requires SameSetting(s, t)
    ensures t.heap.Keys == s.heap.Keys
  {
  }

  lemma HungAside(s: State, c: CardRef)
    requires Inv(s, NoCard) && c in s.heap && s.heap[c].parent.Some?
    ensures s.heap[c].x == -1
  {
    hide Placed; hide Ids; hide Arrows;
  }

  /** The same with unattaching by command. */
  lemma UnattachCommandUndisturbed(s: State, c: CardRef, grid: Grid)
    requires Inv(s, NoCard) && c in s.heap && s.heap[c].parent.Some?
    ensures Undisturbed(s, UnattachCommand(s, c, grid), {})
  {
    hide Inv; hide SameSetting; hide Calm; hide Unlinked; hide UnattachCard; hide NoArrowsAt; hide Undisturbed;
    DropArrowsKeepsInv(s, c, NoCard);
    SameHeapUndisturbed(s, DropArrows(s, c));
    UnattachUndisturbed(DropArrows(s, c), c, grid, NoCard);
    StillThen(s, DropArrows(s, c), UnattachCommand(s, c, grid));
  }

  // ------------------------------------------------------------------ moving

  lemma LiftedUndisturbed(s: State, t: State, c: CardRef)
    requires c in s.heap && t.heap == s.heap[c := s.heap[c].(zone := None)]
    ensures Undisturbed(s, t, {})
  {
  }

  lemma TakeAwayUndisturbed(s: State, player: int, start: Place, target: Place, c: CardRef, undoing: bool, grid: Grid)
    requires Inv(s, NoCard) && player in s.players && Movable(s, c, start, target)
    ensures Undisturbed(s, TakeAway(s, player, start, target, c, undoing, grid), {})
  {
    hide Inv; hide PickUp; hide NoArrowsAt; hide OthersStay; hide Calm; hide Ready; hide Undisturbed; hide UnattachAll; hide UnlinkedAll;
    hide AllAttached;
    var s1 := PickUp(s, player, start, target, c, undoing);
    LiftedUndisturbed(s, s1, c);
    var s2 := DropChildren(s1, start, target, c, grid);
    if start.zone != target.zone {
      ChildrenAttached(s1, c, Lifted(c, start));
      UnattachAllUndisturbed(s1, s1.heap[c].attached, grid, Lifted(c, start));
      StillThen(s, s1, s2);
    }
    var t := TakeAway(s, player, start, target, c, undoing, grid);
    SameHeapUndisturbed(s2, t);
    StillThen(s, s2, t);
  }

  /** On a table the card lies in the row asked for. */
  ghost predicate InRow(t: State, target: Place, c: CardRef, y: int)
  {
    HasCoords(target.zone) && c in t.heap ==> t.heap[c].y == y
  }

  lemma BringInUndisturbed(s: State, start: Place, target: Place, c: CardRef, index: int, y: int, faceDown: bool, column: nat)
    requires Inv(s, Lifted(c, start)) && Ready(s, start, target, c) && target in s.zones
    ensures var t := BringIn(s, start, target, c, index, y, faceDown, column);
            Undisturbed(s, t, {c}) && InRow(t, target, c, y)
  {
    hide Inv; hide OthersStay; hide NoArrowsAt; hide BroughtIn; hide InsertAt;
    TargetHasOwner(s, start, target, c);
  }

  lemma MoveOneUndisturbed(
    s: State, player: int, start: Place, target: Place, c: CardRef, index: int, y: int,
    wanted: Option<bool>, undoing: bool, grid: Grid)
    requires Inv(s, NoCard) && player in s.players && Movable(s, c, start, target)
    ensures var t := MoveOne(s, player, start, target, c, index, y, wanted, undoing, grid);
            Undisturbed(s, t, {c}) && InRow(t, target, c, y)
  {
    hide Inv; hide OthersStay; hide MovedOne; hide BroughtIn; hide SameCards; hide Ready; hide FaceAfter;
    hide TakeAway; hide BringIn; hide Undisturbed; hide InRow;
    TakeAwayUndisturbed(s, player, start, target, c, undoing, grid);
    var s1 := TakeAway(s, player, start, target, c, undoing, grid);
    TargetStays(s, s1, target, c);
    BringInUndisturbed(s1, start, target, c, index, y, FaceAfter(s, c, target, wanted), grid.column(c));
    UndisturbedThen(s, s1, MoveOne(s, player, start, target, c, index, y, wanted, undoing, grid), {}, {c});
    assert {} + {c} == {c};
  }

  /** All these cards lie in the row asked for. */
  ghost predicate AllInRow(t: State, target: Place, cards: set<CardRef>, y: int)
  {
    forall c :: c in cards ==> InRow(t, target, c, y)
  }

  lemma StillInRow(t: State, u: State, target: Place, c: CardRef, y: int, others: set<CardRef>)
    requires InRow(t, target, c, y) && Undisturbed(t, u, others) && c !in others
    ensures InRow(u, target, c, y)
  {
  }

  lemma {:induction false} MoveLoopUndisturbed(
    s: State, player: int, start: Place, target: Place, ms: seq<Selected>, x: int, y: int, undoing: bool, grid: Grid)
    requires Inv(s, NoCard) && player in s.players && AllMovable(s, ms, start, target)
    ensures var t := MoveLoop(s, player, start, target, ms, x, y, undoing, grid);
            Undisturbed(s, t, CardsOf(ms)) && AllInRow(t, target, CardsOf(ms), y)
    decreases |ms|
  {
    hide Inv; hide OthersStay; hide MovedOne; hide Conserved; hide MoveOne; hide CardsOf; hide Undisturbed; hide Vanishes; hide InRow;
    if ms == [] {
      SameHeapUndisturbed(s, s);
      NoCards();
    } else {
      var c := ms[0].card;
      assert Movable(s, c, start, target);
      var t := MoveOne(s, player, start, target, c, x, y, ms[0].faceDown, undoing, grid);
      RestMovable(s, t, ms, start, target);
      StayPlayers(s, t, player, {c});
      MoveOneUndisturbed(s, player, start, target, c, x, y, ms[0].faceDown, undoing, grid);
      var rest := if Vanishes(s, c, start, target) then x else x + 1;
      MoveLoopUndisturbed(t, player, start, target, ms[1..], rest, y, undoing, grid);
      var u := MoveLoop(t, player, start, target, ms[1..], rest, y, undoing, grid);
      CardsOfSplit(ms);
      MovedCards.FirstNotLater(ms);
      UndisturbedThen(s, t, u, {c}, CardsOf(ms[1..]));
      StillInRow(t, u, target, c, y, CardsOf(ms[1..]));
    }
  }

  lemma NoCards()
    ensures CardsOf([]) == {}
  {
  }

  /**
   moveCard disturbs no card that it does not move: all others keep row, face and id, wherever they are; those
   moved to a table lie in the row asked for.
   */
  lemma MoveUndisturbed(
    s: State, player: int, start: Place, target: Place, reqs: seq<MoveRequest>, x: int, y: int,
    fixFreeSpaces: bool, undoing: bool, grid: Grid)
    requires Inv(s, NoCard) && player in s.players && start in s.zones && target in s.zones
    ensures ZoneKnown(s, start)
    ensures var r := MoveCards(s, player, start, target, reqs, x, y, fixFreeSpaces, undoing, grid);
            var selected := Select(s, start, target, reqs, {}, grid.columnEmpty);
            r.1 == RespOk ==>
              selected.Ok? && Undisturbed(s, r.0, CardsOf(selected.value)) && AllInRow(r.0, target, CardsOf(selected.value), y)
  {
    hide Inv; hide OthersStay; hide Conserved; hide MoveLoop; hide Select; hide Sorted; hide SelectionOk; hide CardsOf;
    hide Undisturbed; hide InRow; hide Compact; hide Calm; hide SameTrees;
    ZonesKnown(s, start, NoCard);
    SelectSelects(s, start, target, reqs, {}, grid.columnEmpty);
    var selected := Select(s, start, target, reqs, {}, grid.columnEmpty);
    if MoveCards(s, player, start, target, reqs, x, y, fixFreeSpaces, undoing, grid).1 == RespOk {
      SelectionKnown(s, start, selected.value);
      var ms := Sorted(s, selected.value);
      SelectionMovable(s, start, target, selected.value, ms);
      var xCoord := if !HasCoords(target.zone) && x <= -1 then |s.zones[target]| else x;
      MoveLoopUndisturbed(s, player, start, target, ms, xCoord, y, undoing, grid);
      var t := MoveLoop(s, player, start, target, ms, xCoord, y, undoing, grid);
      if HasCoords(start.zone) && fixFreeSpaces {
        var u := Compact(t, start, grid.compactedAtEnd, NoCard);
        CompactUndisturbed(t, start, grid.compactedAtEnd, NoCard);
        UndisturbedThen(s, t, u, CardsOf(ms), {});
        assert CardsOf(ms) + {} == CardsOf(ms);
        forall c | c in CardsOf(ms)
          ensures InRow(u, target, c, y)
        {
          StillInRow(t, u, target, c, y, {});
        }
      }
    }
  }

  // ------------------------------------------------------------------ arrows of a player who goes

  /** The card lies in a zone of p. */
  ghost predicate LiesWith(s: State, c: CardRef, p: int)
  {
    exists z :: c in s.heap && s.heap[c].zone == Some(Place(p, z))
  }

  /** When p concedes or leaves, everybody loses the arrows that start or end at a card of p or end at p, and no others. */
  lemma ArrowsRelatedGo(s: State, p: int, q: int, i: int)
    requires Inv(s, NoCard) && q in s.players
    ensures var t := RemoveArrowsRelated(s, p);
            && q in t.players && t.heap == s.heap && t.zones == s.zones
            && (i in t.players[q].arrows
                <==> && i in s.players[q].arrows
                     && var a := s.players[q].arrows[i];
                        && !LiesWith(s, a.start, p) && a.target != OnPlayer(p) && !(a.target.OnCard? && LiesWith(s, a.target.card, p)))
            && (i in t.players[q].arrows ==> t.players[q].arrows[i] == s.players[q].arrows[i])
  {
    hide Inv;
    forall c
      ensures LiesWith(s, c, p) <==> OwnerIs(s.heap, c, p)
    {
      if OwnerIs(s.heap, c, p) {
        assert s.heap[c].zone == Some(Place(p, s.heap[c].zone.value.zone));
      }
    }
  }
}

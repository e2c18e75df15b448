/** What attaching, moving and leaving do to the links between cards and to the arrows, exactly. */
module LinkEffects {
  import opened Wrappers
  import opened Cards
  import opened Shuffling
  import opened ZoneLists
  import opened GameState
  import opened Movement
  import opened Commands
  import opened Attachments
  import opened Tokens
  import opened Lifecycle

  /** The arrows that have no end at one of these cards. */
  function Clear(arrows: map<int, Arrow>, gone: set<CardRef>): map<int, Arrow>
  {
    map i | i in arrows && arrows[i].start !in gone && !(arrows[i].target.OnCard? && arrows[i].target.card in gone) :: arrows[i]
  }

  /** Everybody's arrows at these cards are gone, and no others. */
  ghost predicate ArrowsLost(s: State, t: State, gone: set<CardRef>)
  {
    t.players.Keys == s.players.Keys
    && forall p :: p in s.players ==> t.players[p].arrows == Clear(s.players[p].arrows, gone)
  }

  lemma SameArrowsLost(s: State, t: State)
    requires t.players.Keys == s.players.Keys && forall p :: p in s.players ==> t.players[p].arrows == s.players[p].arrows
    ensures ArrowsLost(s, t, {})
  {
    forall p | p in s.players
      ensures s.players[p].arrows == Clear(s.players[p].arrows, {})
    {
    }
  }

  lemma ArrowsLostThen(s: State, t: State, u: State, a: set<CardRef>, b: set<CardRef>)
    requires ArrowsLost(s, t, a) && ArrowsLost(t, u, b)
    ensures ArrowsLost(s, u, a + b)
  {
    forall p | p in s.players
      ensures Clear(Clear(s.players[p].arrows, a), b) == Clear(s.players[p].arrows, a + b)
    {
    }
  }

  lemma SamePlayersLost(s: State, t: State, u: State, gone: set<CardRef>)
    requires ArrowsLost(s, t, gone) && u.players.Keys == t.players.Keys
    requires forall p :: p in t.players ==> u.players[p].arrows == t.players[p].arrows
    ensures ArrowsLost(s, u, gone)
  {
  }

  lemma DropLoses(s: State, c: CardRef)
    ensures ArrowsLost(s, DropArrows(s, c), {c})
  {
    forall p | p in s.players
      ensures ArrowsWithout(s.players[p].arrows, c) == Clear(s.players[p].arrows, {c})
    {
    }
  }

  // ------------------------------------------------------------------ attaching

  /** Each card that is left hangs under `after(card)`; by the invariants, the lists of children say the same. */
  ghost predicate HangsAs(t: State, after: map<CardRef, Option<CardRef>>)
  {
    forall d :: d in t.heap ==> d in after && t.heap[d].parent == after[d]
  }

  function Parents(heap: Heap): map<CardRef, Option<CardRef>>
  {
    map d | d in heap :: heap[d].parent
  }

  /** All children of the given cards are freed. */
  function Freed(heap: Heap, of: set<CardRef>): map<CardRef, Option<CardRef>>
  {
    map d | d in heap :: if heap[d].parent.Some? && heap[d].parent.value in of then None else heap[d].parent
  }

  lemma UnlinkedChildren(s: State, t: State, c: CardRef, f: Lift)
    requires Inv(s, f) && c in s.heap && UnlinkedAll(s, t, s.heap[c].attached)
    ensures t.heap.Keys == s.heap.Keys && HangsAs(t, Freed(s.heap, {c}))
  {
    hide UnlinkedAll; hide Inv;
    ChildrenOf(s, c, f);
    ParentsAfter(s, t, s.heap[c].attached);
  }

  lemma ParentsAfter(s: State, t: State, ks: seq<CardRef>)
    requires UnlinkedAll(s, t, ks)
    ensures t.heap.Keys == s.heap.Keys
    ensures forall d :: d in s.heap ==> t.heap[d].parent == if d in ks then None else s.heap[d].parent
  {
  }

  lemma ChildrenOf(s: State, c: CardRef, f: Lift)
    requires Inv(s, f) && c in s.heap
    ensures forall d :: d in s.heap[c].attached <==> d in s.heap && s.heap[d].parent == Some(c)
  {
    hide Placed; hide Ids; hide Arrows;
  }

  lemma ShedLinksFrees(s: State, c: CardRef, q: CardRef, grid: Grid)
    requires Inv(s, NoCard) && Attachable(s, c, q)
    ensures var t := ShedLinks(s, c, q, grid);
            t.heap.Keys == s.heap.Keys && HangsAs(t, Freed(s.heap, {c})) && ArrowsLost(s, t, {c})
  {
    hide Inv; hide UnattachAll; hide Calm; hide UnlinkedAll; hide AllAttached; hide NoArrowsAt; hide SameSetting; hide MayLink;
    DropArrowsKeepsInv(s, c, NoCard);
    var s1 := DropArrows(s, c);
    ChildrenAttachedPlain(s1, c);
    UnlinkedChildren(s1, UnattachAll(s1, s1.heap[c].attached, grid, NoCard), c, NoCard);
    DropLoses(s, c);
  }

  lemma LinkedParents(s: State, t: State, c: CardRef, q: CardRef, before: map<CardRef, Option<CardRef>>)
    requires c in s.heap && q in s.heap && Linked(s.heap, t.heap, c, q) && HangsAs(s, before)
    ensures t.heap.Keys == s.heap.Keys && HangsAs(t, before[c := Some(q)])
  {
  }

  lemma HangUnderLinks(s: State, c: CardRef, q: CardRef, grid: Grid)
    requires Inv(s, NoCard) && Attachable(s, c, q)
    ensures var t := HangUnder(s, c, q, grid);
            t.heap.Keys == s.heap.Keys && HangsAs(t, Freed(s.heap, {c})[c := Some(q)]) && ArrowsLost(s, t, {c})
  {
    hide Inv; hide SameSetting; hide ShedLinks; hide Linked; hide SetParent; hide HangsAs; hide Freed; hide ArrowsLost;
    ShedLinksFrees(s, c, q, grid);
    var s1 := ShedLinks(s, c, q, grid);
    LinkKeepsInv(s1, c, q);
    var t := Link(s1, c, q);
    LinkedParents(s1, t, c, q, Freed(s.heap, {c}));
    SamePlayersLost(s, s1, t, {c});
  }

  lemma GiveRoomKeepsLinks(s: State, q: CardRef, grid: Grid)
    requires Inv(s, NoCard) && q in s.heap && s.heap[q].parent.None? && OnTable(s, q, NoCard)
    ensures SameTrees(s, GiveRoom(s, q, grid)) && GiveRoom(s, q, grid).players == s.players
  {
    hide Inv; hide SameSetting; hide Calm; hide SameTrees; hide Compact; hide Relocate;
    CalmItself(s);
    if grid.stacked {
      RelocateCalm(s, q, grid.column(q), NoCard);
      var s1 := Relocate(s, q, grid.column(q));
      if s.heap[q].faceDown {
        SameTreesThen(s, s1, Compact(s1, s.heap[q].zone.value, grid.compactedAfter(q), NoCard));
      }
    }
  }

  lemma SameTreesHang(s: State, t: State, parents: map<CardRef, Option<CardRef>>)
    requires SameTrees(s, t) && HangsAs(s, parents)
    ensures t.heap.Keys == s.heap.Keys && HangsAs(t, parents)
  {
  }

  /**
   Attaching: the card hangs under its target, the cards that hung under it hang under none, every
   other card hangs where it did; exactly the arrows at the card are gone.
   */
  lemma AttachLinks(s: State, c: CardRef, q: CardRef, grid: Grid)
    requires Inv(s, NoCard) && Attachable(s, c, q)
    ensures var t := AttachCard(s, c, q, grid);
            t.heap.Keys == s.heap.Keys && HangsAs(t, Freed(s.heap, {c})[c := Some(q)]) && ArrowsLost(s, t, {c})
  {
    hide Inv; hide SameSetting; hide Calm; hide SameTrees; hide Compact; hide HangUnder; hide GiveRoom; hide HangsAs; hide Freed;
    hide ArrowsLost;
    var parents := Freed(s.heap, {c})[c := Some(q)];
    HangUnderLinks(s, c, q, grid);
    var s1 := HangUnder(s, c, q, grid);
    OnSameTables(s, s1, c, q);
    GiveRoomKeepsLinks(s1, q, grid);
    var s2 := GiveRoom(s1, q, grid);
    SameTreesHang(s1, s2, parents);
    var t := Compact(s2, s.heap[c].zone.value, grid.compactedAtEnd, NoCard);
    SameTreesHang(s2, t, parents);
    SamePlayersLost(s, s1, t, {c});
  }

  lemma UnlinkedParents(s: State, t: State, c: CardRef)
    requires c in s.heap && Unlinked(s, t, c)
    ensures t.heap.Keys == s.heap.Keys && HangsAs(t, Parents(s.heap)[c := None])
  {
  }

  /** Unattaching by command: the card hangs under none, all others hang where they did; its arrows are gone. */
  lemma UnattachLinks(s: State, c: CardRef, grid: Grid)
    requires Inv(s, NoCard) && c in s.heap && s.heap[c].parent.Some?
    ensures var t := UnattachCommand(s, c, grid);
            t.heap.Keys == s.heap.Keys && HangsAs(t, Parents(s.heap)[c := None]) && ArrowsLost(s, t, {c})
  {
    hide Inv; hide SameSetting; hide Calm; hide Unlinked; hide UnattachCard; hide NoArrowsAt;
    DropArrowsKeepsInv(s, c, NoCard);
    var s1 := DropArrows(s, c);
    UnlinkedParents(s1, UnattachCard(s1, c, grid, NoCard), c);
    DropLoses(s, c);
  }

  // ------------------------------------------------------------------ moving

  /** Which cards' children a move frees: those of cards that change to a zone of another name. */
  function Deserted(start: Place, target: Place, moved: set<CardRef>): set<CardRef>
  {
    if start.zone != target.zone then moved else {}
  }

  /** Which cards lose their arrows. */
  function Unmarked(start: Place, target: Place, moved: set<CardRef>): set<CardRef>
  {
    if start != target then moved else {}
  }

  ghost predicate LinksMoved(s: State, t: State, start: Place, target: Place, moved: set<CardRef>)
  {
    && t.heap.Keys <= s.heap.Keys
    && HangsAs(t, Freed(s.heap, Deserted(start, target, moved)))
    && ArrowsLost(s, t, Unmarked(start, target, moved))
  }

  lemma PickUpLinks(s: State, player: int, start: Place, target: Place, c: CardRef, undoing: bool)
    requires Inv(s, NoCard) && player in s.players && Movable(s, c, start, target)
    ensures var t := PickUp(s, player, start, target, c, undoing);
            && t.players.Keys == s.players.Keys && (forall p :: p in s.players ==> t.players[p].arrows == s.players[p].arrows)
            && SameTrees(s, t)
  {
    hide Inv; hide OthersStay;
    InItsZone(s, c, NoCard);
  }

  lemma DropChildrenFrees(s: State, start: Place, target: Place, c: CardRef, grid: Grid)
    requires Inv(s, Lifted(c, start)) && c in s.heap && s.heap[c].parent.None?
    ensures HangsAs(DropChildren(s, start, target, c, grid), Freed(s.heap, Deserted(start, target, {c})))
  {
    hide Inv; hide Calm; hide UnlinkedAll; hide UnattachAll; hide AllAttached;
    if start.zone != target.zone {
      ChildrenAttached(s, c, Lifted(c, start));
      UnlinkedChildren(s, UnattachAll(s, s.heap[c].attached, grid, Lifted(c, start)), c, Lifted(c, start));
    }
  }

  lemma SameTreesFreed(s: State, t: State, of: set<CardRef>)
    requires SameTrees(s, t)
    ensures Freed(s.heap, of) == Freed(t.heap, of)
  {
  }

  lemma TakeAwayLinks(s: State, player: int, start: Place, target: Place, c: CardRef, undoing: bool, grid: Grid)
    requires Inv(s, NoCard) && player in s.players && Movable(s, c, start, target)
    ensures LinksMoved(s, TakeAway(s, player, start, target, c, undoing, grid), start, target, {c})
  {
    hide Inv; hide PickUp; hide DropChildren; hide NoArrowsAt; hide OthersStay; hide Calm; hide Freed; hide Clear; hide Ready;
    hide SameTrees;
    PickUpLinks(s, player, start, target, c, undoing);
    var s1 := PickUp(s, player, start, target, c, undoing);
    SameTreesFreed(s, s1, Deserted(start, target, {c}));
    DropChildrenFrees(s1, start, target, c, grid);
    var s2 := DropChildren(s1, start, target, c, grid);
    assert s2.players == s1.players;
    if start != target {
      DropLoses(s2, c);
    } else {
      SameArrowsLost(s, s2);
    }
  }

  lemma BringInLinks(s: State, start: Place, target: Place, c: CardRef, index: int, y: int, faceDown: bool, column: nat)
    requires Inv(s, Lifted(c, start)) && Ready(s, start, target, c) && target in s.zones
    ensures var t := BringIn(s, start, target, c, index, y, faceDown, column);
            && t.heap.Keys <= s.heap.Keys && (forall d :: d in t.heap ==> t.heap[d].parent == s.heap[d].parent)
            && t.players.Keys == s.players.Keys && (forall p :: p in s.players ==> t.players[p].arrows == s.players[p].arrows)
  {
    hide Inv; hide OthersStay; hide NoArrowsAt; hide Settle; hide BroughtIn;
    TargetHasOwner(s, start, target, c);
    SettleLinks(s, c, target, index, column, y, NeedsNewId(start, target, faceDown), faceDown);
  }

  lemma SettleLinks(s: State, c: CardRef, p: Place, index: int, x: int, y: int, newId: bool, faceDown: bool)
    requires c in s.heap && p in s.zones && p.owner in s.players
    ensures var t := Settle(s, c, p, index, x, y, newId, faceDown);
            && t.heap.Keys == s.heap.Keys && (forall d :: d in t.heap ==> t.heap[d].parent == s.heap[d].parent)
            && t.players.Keys == s.players.Keys && (forall q :: q in s.players ==> t.players[q].arrows == s.players[q].arrows)
  {
    hide InsertAt;
  }

  lemma HalvesMoveLinks(s: State, t: State, u: State, start: Place, target: Place, moved: set<CardRef>)
    requires LinksMoved(s, t, start, target, moved)
    requires u.heap.Keys <= t.heap.Keys && forall d :: d in u.heap ==> u.heap[d].parent == t.heap[d].parent
    requires u.players.Keys == t.players.Keys && forall p :: p in t.players ==> u.players[p].arrows == t.players[p].arrows
    ensures LinksMoved(s, u, start, target, moved)
  {
    hide Freed; hide Clear;
  }

  /** Moving one card frees its children and removes its arrows only if the zones differ, and touches no other link. */
  lemma MoveOneLinks(
    s: State, player: int, start: Place, target: Place, c: CardRef, index: int, y: int,
    wanted: Option<bool>, undoing: bool, grid: Grid)
    requires Inv(s, NoCard) && player in s.players && Movable(s, c, start, target)
    ensures LinksMoved(s, MoveOne(s, player, start, target, c, index, y, wanted, undoing, grid), start, target, {c})
  {
    hide Inv; hide OthersStay; hide MovedOne; hide BroughtIn; hide SameCards; hide Ready; hide FaceAfter;
    hide TakeAway; hide BringIn; hide LinksMoved;
    var s1 := TakeAway(s, player, start, target, c, undoing, grid);
    TakeAwayLinks(s, player, start, target, c, undoing, grid);
    TargetStays(s, s1, target, c);
    BringInLinks(s1, start, target, c, index, y, FaceAfter(s, c, target, wanted), grid.column(c));
    HalvesMoveLinks(s, s1, MoveOne(s, player, start, target, c, index, y, wanted, undoing, grid), start, target, {c});
  }

  lemma FreedThen(s: State, t: State, u: State, a: set<CardRef>, b: set<CardRef>)
    requires t.heap.Keys <= s.heap.Keys && HangsAs(t, Freed(s.heap, a)) && u.heap.Keys <= t.heap.Keys && HangsAs(u, Freed(t.heap, b))
    ensures HangsAs(u, Freed(s.heap, a + b))
  {
  }

  lemma LinksMovedThen(s: State, t: State, u: State, start: Place, target: Place, a: set<CardRef>, b: set<CardRef>)
    requires LinksMoved(s, t, start, target, a) && LinksMoved(t, u, start, target, b)
    ensures LinksMoved(s, u, start, target, a + b)
  {
    hide HangsAs; hide Freed; hide ArrowsLost;
    FreedThen(s, t, u, Deserted(start, target, a), Deserted(start, target, b));
    ArrowsLostThen(s, t, u, Unmarked(start, target, a), Unmarked(start, target, b));
    assert Deserted(start, target, a + b) == Deserted(start, target, a) + Deserted(start, target, b);
    assert Unmarked(start, target, a + b) == Unmarked(start, target, a) + Unmarked(start, target, b);
  }

  lemma NoLinkMoved(s: State, start: Place, target: Place)
    ensures LinksMoved(s, s, start, target, CardsOf([]))
  {
    assert CardsOf([]) == {};
    SameArrowsLost(s, s);
  }

  lemma {:induction false} MoveLoopLinks(
    s: State, player: int, start: Place, target: Place, ms: seq<Selected>, x: int, y: int, undoing: bool, grid: Grid)
    requires Inv(s, NoCard) && player in s.players && AllMovable(s, ms, start, target)
    ensures LinksMoved(s, MoveLoop(s, player, start, target, ms, x, y, undoing, grid), start, target, CardsOf(ms))
    decreases |ms|
  {
    hide Inv; hide OthersStay; hide MovedOne; hide Conserved; hide MoveOne; hide CardsOf; hide LinksMoved; hide Vanishes;
    if ms == [] {
      NoLinkMoved(s, start, target);
    } else {
      var c := ms[0].card;
      assert Movable(s, c, start, target);
      var t := MoveOne(s, player, start, target, c, x, y, ms[0].faceDown, undoing, grid);
      RestMovable(s, t, ms, start, target);
      StayPlayers(s, t, player, {c});
      MoveOneLinks(s, player, start, target, c, x, y, ms[0].faceDown, undoing, grid);
      var rest := if Vanishes(s, c, start, target) then x else x + 1;
      MoveLoopLinks(t, player, start, target, ms[1..], rest, y, undoing, grid);
      CardsOfSplit(ms);
      LinksMovedThen(s, t, MoveLoop(t, player, start, target, ms[1..], rest, y, undoing, grid), start, target, {c}, CardsOf(ms[1..]));
    }
  }

  lemma CompactedLinks(s: State, t: State, u: State, start: Place, target: Place, moved: set<CardRef>)
    requires LinksMoved(s, t, start, target, moved) && SameTrees(t, u) && u.players == t.players
    ensures LinksMoved(s, u, start, target, moved)
  {
    HalvesMoveLinks(s, t, u, start, target, moved);
  }

  /** A whole move: the children of the moved cards are freed and their arrows removed as the zones demand, nothing else. */
  lemma MoveCardsLinks(
    s: State, player: int, start: Place, target: Place, reqs: seq<MoveRequest>, x: int, y: int,
    fixFreeSpaces: bool, undoing: bool, grid: Grid)
    requires Inv(s, NoCard) && player in s.players && start in s.zones && target in s.zones
    ensures ZoneKnown(s, start)
    ensures var r := MoveCards(s, player, start, target, reqs, x, y, fixFreeSpaces, undoing, grid);
            var selected := Select(s, start, target, reqs, {}, grid.columnEmpty);
            r.1 == RespOk ==> selected.Ok? && LinksMoved(s, r.0, start, target, CardsOf(selected.value))
  {
    hide Inv; hide OthersStay; hide Conserved; hide MoveLoop; hide Select; hide Sorted; hide SelectionOk; hide CardsOf;
    hide LinksMoved; hide Compact; hide Calm; hide SameTrees;
    ZonesKnown(s, start, NoCard);
    SelectSelects(s, start, target, reqs, {}, grid.columnEmpty);
    var selected := Select(s, start, target, reqs, {}, grid.columnEmpty);
    if MoveCards(s, player, start, target, reqs, x, y, fixFreeSpaces, undoing, grid).1 == RespOk {
      SelectionKnown(s, start, selected.value);
      var ms := Sorted(s, selected.value);
      SelectionMovable(s, start, target, selected.value, ms);
      var xCoord := if !HasCoords(target.zone) && x <= -1 then |s.zones[target]| else x;
      MoveLoopLinks(s, player, start, target, ms, xCoord, y, undoing, grid);
      var t := MoveLoop(s, player, start, target, ms, xCoord, y, undoing, grid);
      if HasCoords(start.zone) && fixFreeSpaces {
        CompactedLinks(s, t, Compact(t, start, grid.compactedAtEnd, NoCard), start, target, CardsOf(ms));
      }
    }
  }

  // ------------------------------------------------------------------ conceding and leaving

  /** Of the cards that are left, those whose parent is gone hang under none, the others as before. */
  ghost predicate LinksKept(s: State, t: State)
  {
    && t.heap.Keys <= s.heap.Keys
    && forall d :: d in t.heap ==>
         t.heap[d].parent == if s.heap[d].parent.Some? && s.heap[d].parent.value !in t.heap then None else s.heap[d].parent
  }

  lemma LinksKeptThen(s: State, t: State, u: State)
    requires LinksKept(s, t) && LinksKept(t, u)
    ensures LinksKept(s, u)
  {
  }

  lemma NoLinkDangles(s: State)
    requires Inv(s, NoCard)
    ensures LinksKept(s, s)
  {
    hide Inv;
    forall d | d in s.heap && s.heap[d].parent.Some?
      ensures s.heap[d].parent.value in s.heap
    {
      HasParent(s, d, NoCard);
    }
  }

  lemma {:induction false} DetachChildrenFrees(s: State, c: CardRef, f: Lift)
    requires Inv(s, f) && c in s.heap
    ensures HangsAs(DetachChildren(s, c, f), Freed(s.heap, {c}))
    decreases |s.heap[c].attached|
  {
    hide Inv; hide OthersStay; hide Detach; hide Without;
    if s.heap[c].attached == [] {
      Childless(s, c, f);
    } else {
      var k := s.heap[c].attached[0];
      DetachShortens(s, c, f);
      DetachKeepsInv(s, k, f);
      var s1 := Detach(s, k);
      DetachStays(s, s1, k, f);
      DetachChildrenFrees(s1, c, f);
    }
  }

  lemma Childless(s: State, c: CardRef, f: Lift)
    requires Inv(s, f) && c in s.heap && s.heap[c].attached == []
    ensures HangsAs(s, Freed(s.heap, {c}))
  {
    hide Inv;
    forall d | d in s.heap && s.heap[d].parent == Some(c)
      ensures false
    {
      HasParent(s, d, f);
    }
  }

  lemma ReleaseFrees(s: State, c: CardRef, from: Place)
    requires Inv(s, Lifted(c, from)) && c in s.heap
    ensures HangsAs(Release(s, c, from), Freed(s.heap, {c})[c := None])
  {
    hide Inv; hide OthersStay; hide DetachChildren; hide Detach; hide Released;
    var f := Lifted(c, from);
    DetachChildrenFrees(s, c, f);
    DetachKeepsInv(DetachChildren(s, c, f), c, f);
  }

  lemma DiscardCuts(s: State, c: CardRef)
    requires Inv(s, NoCard) && c in s.heap && NoArrowsAt(s, c)
    ensures LinksKept(s, Discard(s, c))
  {
    hide Inv; hide OthersStay; hide NoArrowsAt; hide Release; hide Discarded;
    InItsZone(s, c, NoCard);
    LiftKeepsInv(s, c);
    var s1 := LiftCard(s, c);
    ReleaseFrees(s1, c, s.heap[c].zone.value);
    var s2 := Release(s1, c, s.heap[c].zone.value);
    assert Discard(s, c).heap == s2.heap - {c};
    assert Freed(s1.heap, {c}) == Freed(s.heap, {c});
    NoLinkDangles(s);
  }

  lemma {:induction false} DiscardZoneCuts(s: State, p: Place)
    requires Inv(s, NoCard) && p in s.zones && NoArrowsAtAny(s, s.zones[p])
    ensures LinksKept(s, DiscardZone(s, p))
    decreases |s.zones[p]|
  {
    hide Inv; hide Discard; hide NoArrowsAt; hide Emptied; hide Discarded; hide NoArrowsAtAny; hide LinksKept;
    ZonesKnown(s, p, NoCard);
    if s.zones[p] == [] {
      NoLinkDangles(s);
    } else {
      var c := s.zones[p][0];
      FirstFree(s, p);
      var s1 := Discard(s, c);
      DiscardCuts(s, c);
      FirstGone(s, s1, p, c);
      DiscardZoneCuts(s1, p);
      LinksKeptThen(s, s1, DiscardZone(s1, p));
    }
  }

  lemma {:induction false} DiscardZonesCut(s: State, p: int, zs: seq<ZoneName>)
    requires Inv(s, NoCard) && Unpointed(s, p) && AllThere(s, p, zs)
    ensures LinksKept(s, DiscardZones(s, p, zs))
    decreases |zs|
  {
    hide Inv; hide DiscardZone; hide NoArrowsAt; hide Unpointed; hide Emptied; hide ZonesGone; hide Remaining; hide LinksKept;
    if zs == [] {
      NoLinkDangles(s);
    } else {
      UnpointedZone(s, p, zs[0], zs);
      var s1 := DiscardZone(s, Place(p, zs[0]));
      DiscardZoneCuts(s, Place(p, zs[0]));
      OneZoneLess(s, s1, p, zs[0]);
      StillThere(s, s1, p, zs);
      DiscardZonesCut(s1, p, zs[1..]);
      LinksKeptThen(s, s1, DiscardZones(s1, p, zs[1..]));
    }
  }

  lemma ClearZonesCuts(s: State, p: int)
    requires Inv(s, NoCard) && p in s.players && Unpointed(s, p) && AllThere(s, p, ZONE_ORDER)
    ensures LinksKept(s, ClearZones(s, p))
  {
    hide Inv; hide Unpointed; hide DiscardZones; hide ZonesGone; hide Remaining; hide AllThere;
    DiscardZonesCut(s, p, ZONE_ORDER);
    AllZonesEmpty(s, DiscardZones(s, p, ZONE_ORDER), p);
  }

  /** Exactly the cards of others that hang under p's cards come off. */
  lemma UnattachForeignFrees(s: State, p: int, grid: Grid)
    requires Inv(s, NoCard) && Place(p, Table) in s.zones
    ensures ZoneKnown(s, Place(p, Table))
    ensures var t := UnattachForeign(s, p, grid);
            && t.heap.Keys == s.heap.Keys
            && (forall d :: d in s.heap ==>
                  t.heap[d].parent == if ForeignChild(s, p, s.zones[Place(p, Table)], d) then None else s.heap[d].parent)
            && t.zones.Keys == s.zones.Keys
            && (forall q :: q in s.zones && !HasCoords(q.zone) ==> t.zones[q] == s.zones[q])
  {
    hide Inv; hide UnattachAll; hide AllAttached; hide NoneRelated; hide OthersStay;
    ForeignAttached(s, p);
    var ks := ForeignChildren(s, p, s.zones[Place(p, Table)]);
    var t := UnattachAll(s, ks, grid, NoCard);
    assert Calm(s, t, {}, {}) && UnlinkedAll(s, t, ks);
    CalmZoneKeys(s, t);
    JustForeign(s, p);
  }

  lemma CalmZoneKeys(s: State, t: State)
    requires Calm(s, t, {}, {})
    ensures t.zones.Keys == s.zones.Keys
  {
  }

  lemma JustForeign(s: State, p: int)
    requires Inv(s, NoCard) && Place(p, Table) in s.zones && ZoneKnown(s, Place(p, Table))
    ensures var cards := s.zones[Place(p, Table)];
            forall k :: k in ForeignChildren(s, p, cards) <==> ForeignChild(s, p, cards, k)
  {
    hide Placed; hide Ids; hide Arrows; hide Forest;
    ForeignChildrenFacts(s, p, s.zones[Place(p, Table)]);
  }

  /** Parents lie on tables, so p's cards with children are the cards of p's table. */
  lemma ParentsOnTable(s: State, p: int, d: CardRef)
    requires Inv(s, NoCard) && Place(p, Table) in s.zones && d in s.heap && s.heap[d].parent.Some?
    ensures OwnedBy(s, s.heap[d].parent.value, p) <==> s.heap[d].parent.value in s.zones[Place(p, Table)]
    ensures s.heap[d].parent.value in s.heap
  {
    hide Inv;
    HasParent(s, d, NoCard);
    InItsZone(s, s.heap[d].parent.value, NoCard);
    ZonesKnown(s, Place(p, Table), NoCard);
  }

  /**
   A concession or departure, for the others: a card that hung under one of p's cards hangs under none,
   all other links are as before; exactly the arrows related to p are gone; the lists of all zones
   without coordinates are the same.
   */
  lemma ClearPlayerSpares(s: State, p: int, grid: Grid)
    requires Inv(s, NoCard) && p in s.players && AllThere(s, p, ZONE_ORDER)
    ensures var t := ClearPlayer(s, p, grid);
            && LinksKept(s, t)
            && t.players.Keys == s.players.Keys
            && (forall q :: q in s.players && q != p ==> t.players[q].arrows == RemoveArrowsRelated(s, p).players[q].arrows)
            && (forall q :: q in s.zones && q.owner != p && !HasCoords(q.zone) ==> q in t.zones && t.zones[q] == s.zones[q])
  {
    hide Inv; hide SameSetting; hide NoneRelated; hide Unpointed; hide Cleared; hide Remaining; hide ForeignChild;
    hide UnattachForeign; hide ClearZones; hide LinksKept;
    RemoveArrowsRelatedKeepsInv(s, p);
    var s1 := RemoveArrowsRelated(s, p);
    ZoneListed(Table);
    UnattachForeignFrees(s1, p, grid);
    var s2 := UnattachForeign(s1, p, grid);
    NoneRelatedUnpointed(s2, p);
    SettingZones(s1, s2, p);
    ClearZonesCuts(s2, p);
    ForeignThenCut(s1, s2, ClearZones(s2, p), p);
    assert s1.heap == s.heap;
    SameHeapLinks(s, s1, ClearZones(s2, p));
  }

  lemma SameHeapLinks(s: State, t: State, u: State)
    requires t.heap == s.heap && LinksKept(t, u)
    ensures LinksKept(s, u)
  {
  }

  lemma ForeignThenCut(s: State, t: State, u: State, p: int)
    requires Inv(s, NoCard) && Place(p, Table) in s.zones && SeatCleared(t, u, p) && SameSetting(s, t)
    requires forall d :: d in s.heap ==>
               t.heap[d].parent == if ForeignChild(s, p, s.zones[Place(p, Table)], d) then None else s.heap[d].parent
    requires LinksKept(t, u)
    ensures LinksKept(s, u)
  {
    hide Inv;
    forall d | d in u.heap
      ensures d in s.heap
      ensures u.heap[d].parent == if s.heap[d].parent.Some? && s.heap[d].parent.value !in u.heap then None else s.heap[d].parent
    {
      assert SameSpot(s.heap[d], t.heap[d]);
      assert !OwnedBy(s, d, p);
      if s.heap[d].parent.Some? {
        var o := s.heap[d].parent.value;
        ParentsOnTable(s, p, d);
        assert SameSpot(s.heap[o], t.heap[o]);
        assert o in u.heap <==> !OwnedBy(s, o, p);
      }
    }
  }
}

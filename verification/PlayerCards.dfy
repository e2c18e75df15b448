/** The players' commands on cards, updating the game in place (common/server_player.cpp, server_card.cpp). */
module PlayerCards {
  import opened Wrappers
  import opened Cards
  import opened Shuffling
  import opened ZoneLists
  import opened GameState
  import opened Movement
  import opened Commands
  import opened Attachments
  import opened Tokens
  import opened Lifecycle
  import opened Setup
  import opened DeckSetup
  import DeckXml
  import DeckHash
  import TurnOrder

  class CardGame {
    var started: bool
    var heap: Heap
    var zones: map<Place, seq<CardRef>>
    var players: map<int, Player>

    function Now(): State
      reads this
    {
      State(started, heap, zones, players)
    }

    // ---------------------------------------------------------------- cards

    /** removeAttachedCard, setParentCard's field, addAttachedCard. */
    method SetParentCard(c: CardRef, parent: Option<CardRef>)
      requires c in heap && (parent.Some? ==> parent.value in heap)
      requires heap[c].parent.Some? ==> heap[c].parent.value in heap && c in heap[heap[c].parent.value].attached
      modifies this`heap
      ensures heap == SetParent(old(heap), c, parent)
    {
      if heap[c].parent.Some? {
        var q := heap[c].parent.value;
        heap := heap[q := heap[q].(attached := Without(heap[q].attached, c))];
      }
      heap := heap[c := heap[c].(parent := parent)];
      if parent.Some? {
        var q := parent.value;
        heap := heap[q := heap[q].(attached := heap[q].attached + [c])];
      }
    }

    /** The loop in a card's destructor: it ends because every step shortens the list of children. */
    method DetachAllChildren(c: CardRef, ghost f: Lift)
      requires Inv(Now(), f) && c in heap
      modifies this`heap
      ensures Now() == DetachChildren(old(Now()), c, f) && heap[c].attached == []
    {
      hide Inv; hide OthersStay; hide Detached; hide SetParent; hide DetachChildren;
      ghost var before := Now();
      while heap[c].attached != []
        invariant Inv(Now(), f) && c in heap && DetachChildren(Now(), c, f) == DetachChildren(before, c, f)
        decreases |heap[c].attached|
      {
        DetachShortens(Now(), c, f);
        DetachKeepsInv(Now(), heap[c].attached[0], f);
        DetachStep(Now(), c, f);
        SetParentCard(heap[c].attached[0], None);
      }
      NoneToDetach(Now(), c, f);
    }

    // ---------------------------------------------------------------- taking a card off another

    /** A card changes its column in its own table. */
    method ChangeColumn(c: CardRef, column: nat)
      requires c in heap && heap[c].zone.Some? && heap[c].zone.value in zones && c in zones[heap[c].zone.value]
      modifies this`heap, this`zones
      ensures Now() == Relocate(old(Now()), c, column)
    {
      var p := heap[c].zone.value;
      zones := zones[p := Without(zones[p], c)];
      heap := heap[c := heap[c].(x := column)];
      zones := zones[p := zones[p] + [c]];
    }

    /** What fixFreeSpaces does to the list of cards: `moves` are the moves it makes, in order. */
    method FixFreeSpaces(table: Place, moves: seq<(CardRef, nat)>, ghost f: Lift)
      requires Inv(Now(), f) && HasCoords(table.zone) && (f.Lifted? ==> f.card in heap && heap[f.card].zone.None?)
      modifies this`heap, this`zones
      ensures Now() == Compact(old(Now()), table, moves, f)
    {
      hide Inv; hide Calm; hide SameTrees; hide Relocate;
      ghost var before := Now();
      for i := 0 to |moves|
        invariant Inv(Now(), f) && (f.Lifted? ==> f.card in heap && heap[f.card].zone.None?)
        invariant Compact(Now(), table, moves[i..], f) == Compact(before, table, moves, f)
      {
        assert moves[i..][0] == moves[i] && moves[i..][1..] == moves[i + 1..];
        var (c, column) := moves[i];
        if c in heap && heap[c].zone == Some(table) && heap[c].parent.None? && heap[c].x >= 0 {
          RelocateCalm(Now(), c, column, f);
          RelocateZones(Now(), c, column, f);
          ChangeColumn(c, column);
        }
      }
    }

    method UnattachCard(k: CardRef, grid: Grid, ghost f: Lift)
      requires Inv(Now(), f) && k in heap && heap[k].parent.Some? && !IsLifted(k, f)
      requires f.Lifted? ==> f.card in heap && heap[f.card].zone.None?
      modifies this`heap, this`zones
      ensures Now() == Movement.UnattachCard(old(Now()), k, grid, f)
      ensures f.Lifted? ==> f.card in heap && heap[f.card].zone.None?
    {
      hide Inv; hide Calm; hide SameTrees; hide Relocate; hide SetParent; hide Compact; hide Unlinked;
      var table, faceDown := heap[k].zone, heap[k].faceDown;
      ghost var before := Now();
      HasParent(before, k, f);
      DetachCalm(before, k, f);
      SetParentCard(k, None);
      assert Now() == Detach(before, k);
      RelocateCalm(Now(), k, grid.column(k), f);
      LoosenedZones(before, k, grid.column(k), f);
      ChangeColumn(k, grid.column(k));
      assert Now() == Loosen(before, k, grid.column(k), f);
      if faceDown {
        FixFreeSpaces(table.value, grid.compactedAfter(k), f);
      }
      UnattachedLift(before, k, grid, f);
    }

    method UnattachCards(ks: seq<CardRef>, grid: Grid, ghost f: Lift)
      requires Inv(Now(), f) && AllAttached(Now(), ks, f)
      requires f.Lifted? ==> f.card in heap && heap[f.card].zone.None?
      modifies this`heap, this`zones
      ensures Now() == UnattachAll(old(Now()), ks, grid, f)
    {
      hide Inv; hide Calm; hide Unlinked; hide UnlinkedAll; hide AllAttached; hide Movement.UnattachCard;
      ghost var before := Now();
      for i := 0 to |ks|
        invariant Inv(Now(), f) && AllAttached(Now(), ks[i..], f)
        invariant f.Lifted? ==> f.card in heap && heap[f.card].zone.None?
        invariant UnattachAll(Now(), ks[i..], grid, f) == UnattachAll(before, ks, grid, f)
      {
        FirstAttached(Now(), ks[i..], f);
        assert ks[i..][0] == ks[i] && ks[i..][1..] == ks[i + 1..];
        StillAttached(Now(), Movement.UnattachCard(Now(), ks[i], grid, f), ks[i..], f);
        UnattachCard(ks[i], grid, f);
      }
    }

    // ---------------------------------------------------------------- moving

    /** removeCard of a zone. */
    method RemoveCard(c: CardRef)
      requires c in heap && heap[c].zone.Some? && heap[c].zone.value in zones && c in zones[heap[c].zone.value]
      modifies this`heap, this`zones
      ensures Now() == LiftCard(old(Now()), c)
    {
      var p := heap[c].zone.value;
      zones := zones[p := Without(zones[p], c)];
      heap := heap[c := heap[c].(zone := None)];
    }

    /** Every player's arrows are gone through; those from or to the card are deleted. */
    method RemoveArrowsAt(c: CardRef)
      modifies this`players
      ensures Now() == DropArrows(old(Now()), c)
    {
      hide TurnOrder.Listed; hide ArrowsWithout;
      ghost var before := players;
      var keys := TurnOrder.Listed(players.Keys);
      for i := 0 to |keys|
        invariant players.Keys == before.Keys
        invariant forall p :: p in players ==> players[p] == if p in keys[..i] then Disarmed(before[p], c) else before[p]
      {
        assert keys[..i + 1] == keys[..i] + [keys[i]];
        RemovePlayersArrowsAt(keys[i], c);
      }
      assert keys[..|keys|] == keys;
      AllDisarmed(before, players, keys, c);
    }

    method RemovePlayersArrowsAt(p: int, c: CardRef)
      requires p in players
      modifies this`players
      ensures players == old(players)[p := Disarmed(old(players)[p], c)]
    {
      var arrows := DeleteArrowsAt(players[p].arrows, c);
      players := players[p := players[p].(arrows := arrows)];
    }

    method DeleteArrowsAt(arrows: map<int, Arrow>, c: CardRef) returns (left: map<int, Arrow>)
      ensures left == ArrowsWithout(arrows, c)
    {
      hide TurnOrder.Listed;
      var ids := TurnOrder.Listed(arrows.Keys);
      left := arrows;
      for i := 0 to |ids|
        invariant left.Keys <= arrows.Keys && forall j :: j in left ==> left[j] == arrows[j]
        invariant forall j :: j in arrows ==>
                    (j in left <==> !(j in ids[..i] && (arrows[j].start == c || arrows[j].target == OnCard(c))))
      {
        assert ids[..i + 1] == ids[..i] + [ids[i]];
        if arrows[ids[i]].start == c || arrows[ids[i]].target == OnCard(c) {
          left := left - {ids[i]};
        }
      }
      assert ids[..|ids|] == ids;
      LeftAreWithout(arrows, left, ids, c);
    }

    /** The first half of moving a card: it leaves its zone, the undo list, its children and its arrows. */
    method TakeAwayCard(player: int, start: Place, target: Place, c: CardRef, undoing: bool, grid: Grid)
      requires Inv(Now(), NoCard) && player in players && Movable(Now(), c, start, target)
      modifies this
      ensures Now() == TakeAway(old(Now()), player, start, target, c, undoing, grid)
    {
      hide Inv; hide OthersStay; hide NoArrowsAt; hide Calm; hide SameCards; hide Ready; hide UnattachAll; hide AllAttached;
      hide DropArrows; hide Without;
      ghost var before := Now();
      InItsZone(before, c, NoCard);
      var id := heap[c].id;
      RemoveCard(c);
      if start.zone == Hand && target.zone != Hand && !undoing {
        var list := players[player].lastDraw;
        if id in list {
          list := list[LastIndexOf(list, id)..];
        }
        players := players[player := players[player].(lastDraw := list)];
      }
      assert Now() == PickUp(before, player, start, target, c, undoing);
      PickedUpParent(before, player, start, target, c, undoing);
      ghost var s1 := Now();
      if start.zone != target.zone {
        ChildrenAttached(s1, c, Lifted(c, start));
        UnattachCards(heap[c].attached, grid, Lifted(c, start));
      }
      assert Now() == DropChildren(s1, start, target, c, grid);
      if start != target {
        RemoveArrowsAt(c);
      }
    }

    /** The second half: a token that changed zones is deleted, another card inserted, with a new id if need be. */
    method BringCardIn(start: Place, target: Place, c: CardRef, index: int, y: int, faceDown: bool, column: nat)
      requires Inv(Now(), Lifted(c, start)) && Ready(Now(), start, target, c) && target in zones
      modifies this
      ensures Now() == BringIn(old(Now()), start, target, c, index, y, faceDown, column)
    {
      hide Inv; hide OthersStay; hide NoArrowsAt; hide InsertAt; hide BroughtIn;
      TargetHasOwner(Now(), start, target, c);
      if heap[c].destroyOnZoneChange && start.zone != target.zone {
        heap := heap - {c};
        return;
      }
      if HasCoords(target.zone) {
        heap := heap[c := heap[c].(x := column, y := y, zone := Some(target))];
        zones := zones[target := zones[target] + [c]];
      } else {
        heap := heap[c := heap[c].(x := 0, y := 0, zone := Some(target))];
        zones := zones[target := InsertAt(zones[target], index, c)];
      }
      if NeedsNewId(start, target, faceDown) {
        var owner := players[target.owner];
        heap := heap[c := heap[c].(id := owner.nextCardId)];
        players := players[target.owner := owner.(nextCardId := owner.nextCardId + 1)];
      }
      heap := heap[c := heap[c].(faceDown := faceDown)];
    }

    /** The body of moveCard's loop. */
    method MoveOneCard(player: int, start: Place, target: Place, c: CardRef, index: int, y: int,
                       wanted: Option<bool>, undoing: bool, grid: Grid)
      requires Inv(Now(), NoCard) && player in players && Movable(Now(), c, start, target)
      modifies this
      ensures Now() == MoveOne(old(Now()), player, start, target, c, index, y, wanted, undoing, grid)
    {
      hide Inv; hide OthersStay; hide SameCards; hide Ready; hide TakeAway; hide BringIn; hide MovedOne; hide BroughtIn;
      var faceDown := heap[c].faceDown;
      if !HasCoords(target.zone) {
        faceDown := false;
      } else if wanted.Some? {
        faceDown := wanted.value;
      }
      ghost var before := Now();
      TakeAwayCard(player, start, target, c, undoing, grid);
      TargetStays(before, Now(), target, c);
      BringCardIn(start, target, c, index, y, faceDown, grid.column(c));
    }

    /** moveCard's checks: an unknown id stops the command, attached cards are passed over, doubles count once. */
    method SelectCards(start: Place, target: Place, reqs: seq<MoveRequest>, columnEmpty: bool)
      returns (r: Result<seq<Selected>, Response>)
      requires ZoneKnown(Now(), start)
      ensures r == Select(Now(), start, target, reqs, {}, columnEmpty)
    {
      var selected: seq<Selected>, seen: set<int> := [], {};
      ghost var whole := Select(Now(), start, target, reqs, {}, columnEmpty);
      assert reqs[0..] == reqs && (whole.Ok? ==> [] + whole.value == whole.value);
      for i := 0 to |reqs|
        invariant Prepended(selected, Select(Now(), start, target, reqs[i..], seen, columnEmpty)) == whole
      {
        assert reqs[i..][0] == reqs[i] && reqs[i..][1..] == reqs[i + 1..];
        if reqs[i].id !in seen {
          ghost var rest := Select(Now(), start, target, reqs[i + 1..], seen + {reqs[i].id}, columnEmpty);
          seen := seen + {reqs[i].id};
          var found := FindCard(heap, zones[start], Hidden(start), reqs[i].id);
          if found.None? {
            return Err(RespNameNotFound);
          }
          var (c, position) := found.value;
          if heap[c].parent.None? && (heap[c].attached == [] || !HasCoords(target.zone) || columnEmpty) {
            var m := Selected(c, position, reqs[i].faceDown);
            PrependOne(selected, m, rest);
            selected := selected + [m];
          }
        }
      }
      assert selected + [] == selected;
      r := Ok(selected);
    }

    method MoveCard(player: int, start: Place, target: Place, reqs: seq<MoveRequest>, x: int, y: int,
                    fixFreeSpaces: bool, undoing: bool, grid: Grid) returns (response: Response)
      requires Inv(Now(), NoCard) && player in players && start in zones && target in zones
      modifies this
      ensures (Now(), response) == MoveCards(old(Now()), player, start, target, reqs, x, y, fixFreeSpaces, undoing, grid)
    {
      hide Inv; hide OthersStay; hide Conserved; hide MoveLoop; hide Select; hide Sorted; hide SelectionOk; hide CardsOf;
      hide Compact; hide Calm; hide SameTrees;
      if !HasCoords(target.zone) && start.owner != target.owner && !players[player].judge {
        return RespContextError;
      }
      ghost var before := Now();
      ZonesKnown(before, start, NoCard);
      SelectSelects(before, start, target, reqs, {}, grid.columnEmpty);
      var selected := SelectCards(start, target, reqs, grid.columnEmpty);
      if selected.Err? {
        return selected.error;
      }
      if selected.value == [] {
        return RespContextError;
      }
      SelectionKnown(before, start, selected.value);
      var ms := Sorted(Now(), selected.value);
      SelectionMovable(before, start, target, selected.value, ms);
      var xCoord := x;
      if !HasCoords(target.zone) && x <= -1 {
        xCoord := |zones[target]|;
      }
      MoveSelected(player, start, target, ms, xCoord, y, undoing, grid);
      if HasCoords(start.zone) && fixFreeSpaces {
        FixFreeSpaces(start, grid.compactedAtEnd, NoCard);
      }
      return RespOk;
    }

    /** moveCard's loop: cards inserted into a list go to consecutive positions. */
    method MoveSelected(player: int, start: Place, target: Place, ms: seq<Selected>, x: int, y: int, undoing: bool, grid: Grid)
      requires Inv(Now(), NoCard) && player in players && AllMovable(Now(), ms, start, target)
      modifies this
      ensures Now() == MoveLoop(old(Now()), player, start, target, ms, x, y, undoing, grid)
    {
      hide Inv; hide OthersStay; hide MovedOne; hide Conserved; hide MoveOne; hide CardsOf;
      ghost var before := Now();
      var xCoord := x;
      for i := 0 to |ms|
        invariant Inv(Now(), NoCard) && player in players && AllMovable(Now(), ms[i..], start, target)
        invariant MoveLoop(Now(), player, start, target, ms[i..], xCoord, y, undoing, grid)
               == MoveLoop(before, player, start, target, ms, x, y, undoing, grid)
      {
        assert ms[i..][0] == ms[i] && ms[i..][1..] == ms[i + 1..];
        var c := ms[i].card;
        assert Movable(Now(), ms[i..][0].card, start, target);
        var vanishes := heap[c].destroyOnZoneChange && start.zone != target.zone;
        ghost var after := MoveOne(Now(), player, start, target, c, xCoord, y, ms[i].faceDown, undoing, grid);
        RestMovable(Now(), after, ms[i..], start, target);
        StayPlayers(Now(), after, player, {c});
        MoveOneCard(player, start, target, c, xCoord, y, ms[i].faceDown, undoing, grid);
        if !vanishes {
          xCoord := xCoord + 1;
        }
      }
    }

    // ---------------------------------------------------------------- attaching

    /** cmdAttachCard after its checks, when there is a card to attach to. */
    method AttachCard(c: CardRef, q: CardRef, grid: Grid)
      requires Inv(Now(), NoCard) && Attachable(Now(), c, q)
      modifies this
      ensures Now() == Attachments.AttachCard(old(Now()), c, q, grid)
    {
      hide Inv; hide SameSetting; hide Calm; hide SameTrees; hide Compact; hide HangUnder; hide Relocate; hide Attachable;
      ghost var before := Now();
      AttachableEnds(before, c, q);
      var table := heap[c].zone.value;
      HangCard(c, q, grid);
      OnSameTables(before, Now(), c, q);
      ghost var hung := Now();
      if grid.stacked {
        var targetTable, faceDown := heap[q].zone.value, heap[q].faceDown;
        RelocateCalm(hung, q, grid.column(q), NoCard);
        ChangeColumn(q, grid.column(q));
        if faceDown {
          FixFreeSpaces(targetTable, grid.compactedAfter(q), NoCard);
        }
      }
      assert Now() == GiveRoom(hung, q, grid);
      FixFreeSpaces(table, grid.compactedAtEnd, NoCard);
    }

    /** The card's arrows and children go, then it hangs under the target, out of its column. */
    method HangCard(c: CardRef, q: CardRef, grid: Grid)
      requires Inv(Now(), NoCard) && Attachable(Now(), c, q)
      modifies this
      ensures Now() == HangUnder(old(Now()), c, q, grid)
    {
      hide Inv; hide SameSetting; hide UnattachAll; hide Calm; hide UnlinkedAll; hide MayLink; hide AllAttached; hide NoArrowsAt;
      hide Linked; hide SetParent; hide DropArrows;
      ghost var before := Now();
      DropArrowsKeepsInv(before, c, NoCard);
      DropArrowsSetting(before, c);
      RemoveArrowsAt(c);
      ChildrenAttachedPlain(Now(), c);
      UnattachCards(heap[c].attached, grid, NoCard);
      ghost var shed := Now();
      assert shed == ShedLinks(before, c, q, grid);
      LinkKeepsInv(shed, c, q);
      LinkEnds(shed, c, q);
      SetParentCard(c, Some(q));
      SetParentKeys(shed.heap, c, Some(q));
      heap := heap[c := heap[c].(x := -1)];
      assert Now() == Link(shed, c, q);
    }

    // ---------------------------------------------------------------- arrows

    method NextArrowId(p: int) returns (id: int)
      requires p in players
      ensures id == NewArrowId(players[p].arrows.Keys)
    {
      hide TurnOrder.Listed;
      var ids := players[p].arrows.Keys;
      var keys := TurnOrder.Listed(ids);
      id := 0;
      for i := 0 to |keys|
        invariant id >= 0 && (forall j :: 0 <= j < i ==> keys[j] <= id) && (id > 0 ==> id in ids)
      {
        if keys[i] > id {
          id := keys[i];
        }
      }
      LargestId(ids, keys, id);
      id := id + 1;
    }

    /** removeArrowsRelatedToPlayer: from every player, the arrows from or to p's cards and those to p. */
    method RemoveArrowsRelatedTo(p: int)
      modifies this`players
      ensures Now() == RemoveArrowsRelated(old(Now()), p)
    {
      hide TurnOrder.Listed; hide Related;
      ghost var before := players;
      var keys := TurnOrder.Listed(players.Keys);
      for i := 0 to |keys|
        invariant players.Keys == before.Keys
        invariant forall q :: q in players ==> players[q] == if q in keys[..i] then Unrelated(heap, before[q], p) else before[q]
      {
        assert keys[..i + 1] == keys[..i] + [keys[i]];
        var arrows := DeleteArrowsRelated(players[keys[i]].arrows, p);
        players := players[keys[i] := players[keys[i]].(arrows := arrows)];
      }
      assert keys[..|keys|] == keys;
      AllUnrelated(old(Now()), players, keys, p);
    }

    /** The arrows to be deleted are listed first, some of them twice, then deleted by their ids. */
    method DeleteArrowsRelated(arrows: map<int, Arrow>, p: int) returns (left: map<int, Arrow>)
      ensures left == UnrelatedArrows(heap, arrows, p)
    {
      hide TurnOrder.Listed;
      var ids, doomed := TurnOrder.Listed(arrows.Keys), [];
      for i := 0 to |ids|
        invariant forall j :: j in doomed <==> j in ids[..i] && j in arrows && RelatedIn(heap, arrows[j], p)
      {
        assert ids[..i + 1] == ids[..i] + [ids[i]];
        var a := arrows[ids[i]];
        if PointsAt(heap, a.target, p) {
          doomed := doomed + [ids[i]];
        }
        if OwnerIs(heap, a.start, p) {
          doomed := doomed + [ids[i]];
        }
      }
      assert ids[..|ids|] == ids;
      left := arrows;
      for i := 0 to |doomed|
        invariant left == map j | j in arrows && j !in doomed[..i] :: arrows[j]
      {
        assert doomed[..i + 1] == doomed[..i] + [doomed[i]];
        left := left - {doomed[i]};
      }
      assert doomed[..|doomed|] == doomed;
      LeftAreUnrelated(heap, arrows, left, ids, doomed, p);
    }

    // ---------------------------------------------------------------- undo, mulligan

    /** cmdUndoDraw after its checks. */
    method UndoDraw(p: int, grid: Grid) returns (response: Response)
      requires GameOk(Now()) && Active(Now(), p)
      modifies this
      ensures (Now(), response) == Commands.UndoDraw(old(Now()), p, grid)
    {
      hide Inv; hide Seats; hide Tidy; hide MoveCards; hide Conserved;
      NotRefused(Now(), p);
      var list := players[p].lastDraw;
      if list == [] {
        return RespContextError;
      }
      PopKeeps(Now(), p, list[..|list| - 1]);
      players := players[p := players[p].(lastDraw := list[..|list| - 1])];
      response := MoveCard(p, Place(p, Hand), Place(p, Deck), [MoveRequest(list[|list| - 1], None)], 0, 0, false, true, grid);
    }

    /** cmdMulligan after its checks; `order` is what the shuffle in the middle produces. */
    method Mulligan(p: int, number: int, order: seq<CardRef>, grid: Grid)
      requires GameOk(Now()) && Active(Now(), p)
      requires multiset(order) == multiset(HandUnderDeck(Now(), p, grid).zones[Place(p, Deck)])
      modifies this
      ensures Now() == Commands.Mulligan(old(Now()), p, number, order, grid)
    {
      hide Inv; hide Seats; hide Tidy; hide MoveCards; hide Conserved; hide Commands.DrawCards;
      ghost var before := Now();
      NotRefused(before, p);
      ZonesKnown(before, Place(p, Hand), NoCard);
      if zones[Place(p, Hand)] != [] {
        var reqs := WholeHand(heap, zones[Place(p, Hand)]);
        var response := MoveCard(p, Place(p, Hand), Place(p, Deck), reqs, -1, 0, false, false, grid);
      }
      assert Now() == HandUnderDeck(before, p, grid);
      ReorderKeeps(Now(), Place(p, Deck), order);
      zones := zones[Place(p, Deck) := order];
      DrawCards(p, number);
    }

    // ---------------------------------------------------------------- setting up

    /** One new card at the end of a zone, under the player's next id. */
    method AddNewCard(p: int, entry: Entry, ref: CardRef)
      requires CanFill(Now(), p, ref)
      modifies this
      ensures CanFill(Now(), p, ref + 1) && Now() == FillOne(old(Now()), p, entry, ref)
    {
      hide Inv; hide FilledWith; hide FreshFrom;
      FillOneShape(Now(), p, entry, ref);
      var id := players[p].nextCardId;
      players := players[p := players[p].(nextCardId := id + 1)];
      var zone := Place(p, if entry.crypt then Crypt else Deck);
      heap := heap[ref := Card(id, entry.name, false, false, 0, 0, Some(zone), None, [])];
      zones := zones[zone := zones[zone] + [ref]];
    }

    /** The innermost loop of setupZones: as many cards as the row says. */
    method DealCopies(p: int, entry: Entry, number: int, ref: CardRef) returns (next: CardRef)
      requires CanFill(Now(), p, ref)
      modifies this
      ensures next == ref + |CopiesOf(entry, number)| && CanFill(Now(), p, next)
      ensures Now() == FillZones(old(Now()), p, CopiesOf(entry, number), ref)
    {
      hide CanFill; hide FillOne; hide Filled; hide FilledWith; hide FillZones;
      ghost var before := Now();
      next := ref;
      var k := 0;
      FillNone(before, p, ref);
      while k < number
        invariant 0 <= k && (number > 0 ==> k <= number) && (number <= 0 ==> k == 0)
        invariant next == ref + k && CanFill(Now(), p, next)
        invariant Now() == FillZones(before, p, CopiesOf(entry, k), ref)
      {
        FillOneMore(before, p, CopiesOf(entry, k), entry, ref);
        AddNewCard(p, entry, next);
        next, k := next + 1, k + 1;
      }
    }

    /** The rows of one zone of the deck list. */
    method DealRows(p: int, crypt: bool, rows: seq<DeckXml.Tree>, ref: CardRef) returns (next: CardRef)
      requires CanFill(Now(), p, ref)
      modifies this
      ensures next == ref + |RowsDealt(crypt, rows)| && CanFill(Now(), p, next)
      ensures Now() == FillZones(old(Now()), p, RowsDealt(crypt, rows), ref)
    {
      hide CanFill; hide FillOne; hide Filled; hide FilledWith; hide FillZones;
      ghost var before := Now();
      next := ref;
      FillNone(before, p, ref);
      for j := 0 to |rows|
        invariant next == ref + |RowsDealt(crypt, rows[..j])| && CanFill(Now(), p, next)
        invariant Now() == FillZones(before, p, RowsDealt(crypt, rows[..j]), ref)
      {
        assert rows[..j + 1][..j] == rows[..j];
        if rows[j].Card? {
          ghost var copies := CopiesOf(Entry(crypt, rows[j].name), rows[j].number);
          FillBoth(before, p, RowsDealt(crypt, rows[..j]), copies, ref);
          next := DealCopies(p, Entry(crypt, rows[j].name), rows[j].number, next);
          assert RowsDealt(crypt, rows[..j + 1]) == RowsDealt(crypt, rows[..j]) + copies;
        } else {
          assert RowsDealt(crypt, rows[..j]) + [] == RowsDealt(crypt, rows[..j]);
        }
      }
      assert rows[..|rows|] == rows;
    }

    /** Library and crypt are filled from the deck list; its other zones are passed over. */
    method DealCards(p: int, list: seq<DeckXml.Tree>, ref: CardRef)
      requires CanFill(Now(), p, ref) && forall z :: z in list ==> z.Zone?
      modifies this
      ensures Now() == FillZones(old(Now()), p, Dealt(list), ref)
    {
      hide CanFill; hide FillOne; hide Filled; hide FilledWith; hide FillZones; hide RowsDealt;
      ghost var before := Now();
      var next := ref;
      FillNone(before, p, ref);
      for i := 0 to |list|
        invariant next == ref + |Dealt(list[..i])| && CanFill(Now(), p, next)
        invariant Now() == FillZones(before, p, Dealt(list[..i]), ref)
      {
        assert list[..i + 1][..i] == list[..i];
        if list[i].name == DeckHash.LIBRARY || list[i].name == DeckHash.CRYPT {
          var crypt := list[i].name == DeckHash.CRYPT;
          FillBoth(before, p, Dealt(list[..i]), RowsDealt(crypt, list[i].children), ref);
          next := DealRows(p, crypt, list[i].children, next);
          assert Dealt(list[..i + 1]) == Dealt(list[..i]) + RowsDealt(crypt, list[i].children);
        } else {
          assert Dealt(list[..i]) + [] == Dealt(list[..i]);
        }
      }
      assert list[..|list|] == list;
    }

    /** The sideboard plan: each move takes the first card of its name over. */
    method FollowPlan(p: int, plan: seq<PlanMove>)
      requires Inv(Now(), NoCard) && p in players && forall m :: m in plan ==> PlanZone(m.from) && PlanZone(m.to)
      requires Place(p, Deck) in zones && Place(p, Sideboard) in zones
      modifies this
      ensures Now() == ApplyPlan(old(Now()), p, plan)
    {
      hide Inv; hide Filling; hide ApplyMove;
      ghost var before := Now();
      for i := 0 to |plan|
        invariant Inv(Now(), NoCard) && p in players && Place(p, Deck) in zones && Place(p, Sideboard) in zones
        invariant ApplyPlan(Now(), p, plan[i..]) == ApplyPlan(before, p, plan)
      {
        assert plan[i] in plan && plan[i..][0] == plan[i] && plan[i..][1..] == plan[i + 1..];
        FillingKeys(Now(), ApplyMove(Now(), p, plan[i]), p);
        TakeOver(p, plan[i]);
      }
    }

    /** The search for the card runs through the zone by position and stops at the first hit. */
    method TakeOver(p: int, m: PlanMove)
      requires Inv(Now(), NoCard) && p in players && PlanZone(m.from) && PlanZone(m.to)
      requires Place(p, Deck) in zones && Place(p, Sideboard) in zones
      modifies this
      ensures Now() == ApplyMove(old(Now()), p, m)
    {
      hide Inv; hide Filling; hide ApplyMove; hide Without;
      var from, to := Place(p, m.from), Place(p, m.to);
      ghost var before := Now();
      ZonesKnown(before, from, NoCard);
      var cards := zones[from];
      for j := 0 to |cards|
        invariant Now() == before && forall i :: 0 <= i < j ==> heap[cards[i]].name != m.name
      {
        assert cards[j] in cards;
        if heap[cards[j]].name == m.name {
          FirstAtIndex(before, p, m, j);
          RemoveCard(cards[j]);
          heap := heap[cards[j] := heap[cards[j]].(x := 0, y := 0, zone := Some(to))];
          zones := zones[to := zones[to] + [cards[j]]];
          return;
        }
      }
      NoneAtAll(before, p, m);
    }

    /** setupZones; `order` is what the shuffle at its end produces. */
    method SetupZones(p: int, list: seq<DeckXml.Tree>, plan: seq<PlanMove>, base: CardRef, order: seq<CardRef>)
      requires Inv(Now(), NoCard) && p in players && NoZones(Now(), p) && forall z :: z in list ==> z.Zone?
      requires PlanFits(Now(), DeckPlan(Dealt(list), plan, base, order))
      requires multiset(order) == multiset(Unshuffled(Now(), p, DeckPlan(Dealt(list), plan, base, order)).zones[Place(p, Deck)])
      modifies this
      ensures Now() == SetUp(old(Now()), p, DeckPlan(Dealt(list), plan, base, order))
    {
      hide Inv; hide Filling; hide FillZones; hide ApplyPlan; hide FilledWith; hide Dealt; hide NoZones; hide OpenZones;
      ghost var before := Now();
      ghost var deck := DeckPlan(Dealt(list), plan, base, order);
      CreateZones(p);
      OpenZonesFacts(before, p);
      OpenZonesKeepsInv(before, p);
      OpenZonesRest(before, p);
      ghost var empty := Now();
      DealCards(p, list, base);
      FilledKeys(empty, Now(), p, base, |Dealt(list)|);
      FollowPlan(p, plan);
      assert Now() == Unshuffled(before, p, deck);
      zones := zones[Place(p, Deck) := order];
    }

    /** addZone for each of the eight zones; the counter of card ids starts again. */
    method CreateZones(p: int)
      requires p in players
      modifies this
      ensures Now() == OpenZones(old(Now()), p)
    {
      AddZones(p, ZONE_ORDER);
      players := players[p := players[p].(nextCardId := 0)];
    }

    method AddZones(p: int, names: seq<ZoneName>)
      modifies this`zones
      ensures zones == old(zones) + EmptyZones(p, names)
    {
      hide EmptyZones;
      OneZoneMore(zones, p, [], Deck);
      for i := 0 to |names|
        invariant zones == old(zones) + EmptyZones(p, names[..i])
      {
        OneZoneMore(old(zones), p, names[..i], names[i]);
        assert names[..i + 1] == names[..i] + [names[i]];
        zones := zones[Place(p, names[i]) := []];
      }
      assert names[..|names|] == names;
    }

    // ---------------------------------------------------------------- clearing

    /** A card object is deleted with its zone: its children and its parent let go of it. */
    method DeleteCard(c: CardRef)
      requires Inv(Now(), NoCard) && c in heap && NoArrowsAt(Now(), c)
      modifies this`heap, this`zones
      ensures Now() == Discard(old(Now()), c)
    {
      hide Inv; hide NoArrowsAt; hide OthersStay; hide DetachChildren; hide SetParent; hide Detached; hide Without;
      InItsZone(Now(), c, NoCard);
      LiftKeepsInv(Now(), c);
      ghost var from := heap[c].zone.value;
      RemoveCard(c);
      ghost var taken := Now();
      DetachAllChildren(c, Lifted(c, from));
      DetachKeepsInv(Now(), c, Lifted(c, from));
      SetParentCard(c, None);
      assert Now() == Release(taken, c, from);
      heap := heap - {c};
    }

    /** All cards of a zone. */
    method DeleteCards(place: Place)
      requires Inv(Now(), NoCard) && place in zones && NoArrowsAtAny(Now(), zones[place])
      modifies this`heap, this`zones
      ensures Now() == DiscardZone(old(Now()), place)
    {
      hide Inv; hide NoArrowsAt; hide NoArrowsAtAny; hide Discard; hide Discarded; hide Emptied;
      ghost var before := Now();
      while zones[place] != []
        invariant Inv(Now(), NoCard) && place in zones && NoArrowsAtAny(Now(), zones[place])
        invariant DiscardZone(Now(), place) == DiscardZone(before, place)
        decreases |zones[place]|
      {
        ZonesKnown(Now(), place, NoCard);
        FirstFree(Now(), place);
        HeadIsMember(zones[place]);
        ghost var after := Discard(Now(), zones[place][0]);
        FirstGone(Now(), after, place, zones[place][0]);
        DeleteCard(zones[place][0]);
      }
    }

    /** clearZones: zone by zone, then the arrows and the undo list. */
    method ClearZones(p: int)
      requires Inv(Now(), NoCard) && p in players && Unpointed(Now(), p) && AllThere(Now(), p, ZONE_ORDER)
      modifies this
      ensures Now() == Lifecycle.ClearZones(old(Now()), p)
    {
      hide Inv; hide Unpointed; hide DiscardZones; hide ZonesGone; hide Remaining; hide AllThere;
      ghost var before := Now();
      DeleteZones(p, ZONE_ORDER);
      AllZonesEmpty(before, Now(), p);
      zones := map q | q in zones && q.owner != p :: zones[q];
      players := players[p := players[p].(arrows := map[], lastDraw := [])];
    }

    method DeleteZones(p: int, names: seq<ZoneName>)
      requires Inv(Now(), NoCard) && Unpointed(Now(), p) && AllThere(Now(), p, names)
      modifies this`heap, this`zones
      ensures Now() == DiscardZones(old(Now()), p, names)
    {
      hide Inv; hide DiscardZone; hide NoArrowsAt; hide Unpointed; hide Emptied; hide ZonesGone; hide Remaining;
      ghost var before := Now();
      for i := 0 to |names|
        invariant Inv(Now(), NoCard) && Unpointed(Now(), p) && AllThere(Now(), p, names[i..])
        invariant DiscardZones(Now(), p, names[i..]) == DiscardZones(before, p, names)
      {
        assert names[i..][0] == names[i] && names[i..][1..] == names[i + 1..];
        UnpointedZone(Now(), p, names[i], names[i..]);
        ghost var after := DiscardZone(Now(), Place(p, names[i]));
        OneZoneLess(Now(), after, p, names[i]);
        StillThere(Now(), after, p, names[i..]);
        DeleteCards(Place(p, names[i]));
      }
    }

    /** unattachCards: other players' cards come off p's cards; which ones is found out first. */
    method UnattachForeignCards(p: int, grid: Grid)
      requires Inv(Now(), NoCard) && Place(p, Table) in zones
      modifies this`heap, this`zones
      ensures Now() == UnattachForeign(old(Now()), p, grid)
    {
      hide Inv; hide AllAttached; hide UnattachAll; hide ForeignChildren;
      ForeignAttached(Now(), p);
      var ks := ForeignCards(p, zones[Place(p, Table)]);
      UnattachCards(ks, grid, NoCard);
    }

    method ForeignCards(p: int, cards: seq<CardRef>) returns (ks: seq<CardRef>)
      requires forall c :: c in cards ==> c in heap
      ensures ks == ForeignChildren(Now(), p, cards)
    {
      hide ForeignChildren; hide Elsewhere;
      ks := [];
      assert cards[0..] == cards && [] + ForeignChildren(Now(), p, cards) == ForeignChildren(Now(), p, cards);
      for i := 0 to |cards|
        invariant ks + ForeignChildren(Now(), p, cards[i..]) == ForeignChildren(Now(), p, cards)
      {
        assert cards[i] in cards;
        ForeignStep(Now(), p, ks, cards, i);
        var found := CardsElsewhere(p, heap[cards[i]].attached);
        ks := ks + found;
      }
      assert cards[|cards|..] == [];
      NoForeign(Now(), p, ks);
    }

    method CardsElsewhere(p: int, cards: seq<CardRef>) returns (ks: seq<CardRef>)
      ensures ks == Elsewhere(Now(), p, cards)
    {
      hide Elsewhere; hide OwnedBy;
      ks := [];
      assert cards[0..] == cards && [] + Elsewhere(Now(), p, cards) == Elsewhere(Now(), p, cards);
      for i := 0 to |cards|
        invariant ks + Elsewhere(Now(), p, cards[i..]) == Elsewhere(Now(), p, cards)
      {
        ElsewhereStep(Now(), p, ks, cards, i);
        if !OwnedBy(Now(), cards[i], p) {
          ks := ks + [cards[i]];
        }
      }
      assert cards[|cards|..] == [];
      NoForeign(Now(), p, ks);
    }

    /** What conceding and leaving have in common, in the order of the original. */
    method ClearPlayer(p: int, grid: Grid)
      requires Inv(Now(), NoCard) && p in players && AllThere(Now(), p, ZONE_ORDER)
      modifies this
      ensures Now() == Lifecycle.ClearPlayer(old(Now()), p, grid)
    {
      hide Inv; hide SameSetting; hide NoneRelated; hide Unpointed; hide SeatCleared; hide Cleared;
      hide UnattachForeign; hide Lifecycle.ClearZones;
      ghost var before := Now();
      RemoveArrowsRelatedKeepsInv(before, p);
      RemoveArrowsRelatedTo(p);
      ghost var spared := Now();
      ZoneListed(Table);
      UnattachForeignCards(p, grid);
      NoneRelatedUnpointed(Now(), p);
      SettingZones(spared, Now(), p);
      ClearZones(p);
    }

    // ---------------------------------------------------------------- draws

    method DrawCards(p: int, number: int)
      requires GameOk(Now()) && Active(Now(), p)
      modifies this
      ensures Now() == Commands.DrawCards(old(Now()), p, number)
    {
      hide Inv; hide Seats; hide Tidy; hide SamePopulation; hide DrawOne; hide DrawCryptOne;
      ghost var before := Now();
      NotRefused(before, p);
      var n := 0;
      while n < number
        invariant n <= number || n == 0
        invariant GameOk(Now()) && Active(Now(), p)
        invariant Place(p, Deck) in zones && Place(p, Hand) in zones
        invariant Commands.DrawCards(Now(), p, number - n) == Commands.DrawCards(before, p, number)
      {
        var deck := zones[Place(p, Deck)];
        if deck == [] {
          return;
        }
        DrawOneIsTransfer(Now(), p);
        DrawOneSeats(Now(), p);
        NotRefused(DrawOne(Now(), p), p);
        DrawTop(p);
        n := n + 1;
      }
    }

    method DrawTop(p: int)
      requires p in players && Place(p, Deck) in zones && Place(p, Hand) in zones
      requires zones[Place(p, Deck)] != [] && zones[Place(p, Deck)][0] in heap
      modifies this
      ensures Now() == DrawOne(old(Now()), p)
    {
      var deck := zones[Place(p, Deck)];
      var c := deck[0];
      zones := zones[Place(p, Deck) := deck[1..]];
      zones := zones[Place(p, Hand) := zones[Place(p, Hand)] + [c]];
      players := players[p := players[p].(lastDraw := players[p].lastDraw + [heap[c].id])];
      heap := heap[c := heap[c].(x := 0, y := 0, zone := Some(Place(p, Hand)))];
    }

    method DrawCryptCards(p: int, number: int)
      requires GameOk(Now()) && Active(Now(), p)
      modifies this
      ensures Now() == Commands.DrawCryptCards(old(Now()), p, number)
    {
      hide Inv; hide Seats; hide Tidy; hide SamePopulation; hide DrawOne; hide DrawCryptOne;
      ghost var before := Now();
      NotRefused(before, p);
      var n := 0;
      while n < number
        invariant n <= number || n == 0
        invariant GameOk(Now()) && Active(Now(), p)
        invariant Place(p, Crypt) in zones && Place(p, Table) in zones
        invariant Commands.DrawCryptCards(Now(), p, number - n) == Commands.DrawCryptCards(before, p, number)
      {
        var crypt := zones[Place(p, Crypt)];
        if crypt == [] {
          return;
        }
        DrawCryptOneIsTransfer(Now(), p);
        DrawCryptOneSeats(Now(), p);
        NotRefused(DrawCryptOne(Now(), p), p);
        DrawCryptTop(p);
        n := n + 1;
      }
    }

    method DrawCryptTop(p: int)
      requires p in players && Place(p, Crypt) in zones && Place(p, Table) in zones
      requires zones[Place(p, Crypt)] != [] && zones[Place(p, Crypt)][0] in heap
      modifies this
      ensures Now() == DrawCryptOne(old(Now()), p)
    {
      var crypt := zones[Place(p, Crypt)];
      var c := crypt[0];
      zones := zones[Place(p, Crypt) := crypt[1..]];
      zones := zones[Place(p, Table) := zones[Place(p, Table)] + [c]];
      players := players[p := players[p].(lastDraw := players[p].lastDraw + [heap[c].id])];
      heap := heap[c := heap[c].(x := -1, y := 0, faceDown := true, zone := Some(Place(p, Table)))];
    }
  }

  // ------------------------------------------------------------------ setting up, seen as functions

  function EmptyZones(p: int, names: seq<ZoneName>): map<Place, seq<CardRef>>
  {
    map z | z in names :: Place(p, z) := []
  }

  lemma OneZoneMore(zones: map<Place, seq<CardRef>>, p: int, names: seq<ZoneName>, z: ZoneName)
    ensures zones + EmptyZones(p, names + [z]) == (zones + EmptyZones(p, names))[Place(p, z) := []]
    ensures zones + EmptyZones(p, []) == zones
  {
    var a, b := EmptyZones(p, names + [z]), EmptyZones(p, names)[Place(p, z) := []];
    forall q
      ensures q in a <==> q in b
    {
      assert q in a <==> q.owner == p && q.zone in names + [z];
      assert q in EmptyZones(p, names) <==> q.owner == p && q.zone in names;
    }
  }

  lemma FillOneShape(s: State, p: int, entry: Entry, ref: CardRef)
    requires CanFill(s, p, ref)
    ensures var zone, id := Place(p, if entry.crypt then Crypt else Deck), s.players[p].nextCardId;
            && zone in s.zones
            && FillOne(s, p, entry, ref)
               == State(s.started, s.heap[ref := Card(id, entry.name, false, false, 0, 0, Some(zone), None, [])],
                        s.zones[zone := s.zones[zone] + [ref]], s.players[p := s.players[p].(nextCardId := id + 1)])
  {
    hide Inv; hide FilledWith; hide FreshFrom;
  }

  lemma FillNone(s: State, p: int, ref: CardRef)
    requires CanFill(s, p, ref)
    ensures FillZones(s, p, [], ref) == s
  {
  }

  lemma {:induction false} FillBoth(s: State, p: int, a: seq<Entry>, b: seq<Entry>, ref: CardRef)
    requires CanFill(s, p, ref)
    ensures CanFill(FillZones(s, p, a, ref), p, ref + |a|)
    ensures FillZones(s, p, a + b, ref) == FillZones(FillZones(s, p, a, ref), p, b, ref + |a|)
    decreases |a|
  {
    hide CanFill; hide FillOne; hide FilledWith;
    if a == [] {
      assert a + b == b;
    } else {
      assert (a + b)[0] == a[0] && (a + b)[1..] == a[1..] + b;
      FillBoth(FillOne(s, p, a[0], ref), p, a[1..], b, ref + 1);
    }
  }

  lemma FillOneMore(s: State, p: int, a: seq<Entry>, entry: Entry, ref: CardRef)
    requires CanFill(s, p, ref)
    ensures CanFill(FillZones(s, p, a, ref), p, ref + |a|)
    ensures FillZones(s, p, a + [entry], ref) == FillOne(FillZones(s, p, a, ref), p, entry, ref + |a|)
  {
    hide CanFill; hide FillOne; hide FilledWith;
    FillBoth(s, p, a, [entry], ref);
    assert [entry][1..] == [];
  }

  lemma FirstAtIndex(s: State, p: int, m: PlanMove, j: nat)
    requires Inv(s, NoCard) && p in s.players && PlanZone(m.from) && PlanZone(m.to)
    requires Place(p, Deck) in s.zones && Place(p, Sideboard) in s.zones
    requires var cards := s.zones[Place(p, m.from)];
             && j < |cards| && (forall c :: c in cards ==> c in s.heap) && s.heap[cards[j]].name == m.name
             && forall i :: 0 <= i < j ==> s.heap[cards[i]].name != m.name
    ensures var c := s.zones[Place(p, m.from)][j];
            && c in s.zones[Place(p, m.from)] && c in s.heap && s.heap[c].zone == Some(Place(p, m.from))
            && SwappedOver(s, ApplyMove(s, p, m), c, Place(p, m.from), Place(p, m.to))
            && ApplyMove(s, p, m).started == s.started
  {
    hide Inv; hide ApplyMove; hide SwappedOver; hide Filling;
    var cards := s.zones[Place(p, m.from)];
    assert cards[j] in cards;
    ZonesKnown(s, Place(p, m.from), NoCard);
    ApplyMoveMoves(s, p, m);
    FillingStarted(s, ApplyMove(s, p, m), p);
    var c :| IsFirstNamed(s.heap, cards, m.name, c) && SwappedOver(s, ApplyMove(s, p, m), c, Place(p, m.from), Place(p, m.to));
    OnlyFirst(s.heap, cards, m.name, c, j);
  }

  lemma OnlyFirst(heap: Heap, cards: seq<CardRef>, name: string, c: CardRef, j: nat)
    requires j < |cards| && (forall d :: d in cards ==> d in heap) && IsFirstNamed(heap, cards, name, c)
    requires heap[cards[j]].name == name && forall i :: 0 <= i < j ==> heap[cards[i]].name != name
    ensures c == cards[j]
  {
    var i := IndexOf(cards, c);
    assert cards[j] in cards && cards[i] == c;
  }

  lemma FillingStarted(s: State, t: State, p: int)
    requires Filling(s, t, p)
    ensures t.started == s.started
  {
  }

  lemma NoneAtAll(s: State, p: int, m: PlanMove)
    requires Inv(s, NoCard) && p in s.players && PlanZone(m.from) && PlanZone(m.to)
    requires Place(p, Deck) in s.zones && Place(p, Sideboard) in s.zones
    requires var cards := s.zones[Place(p, m.from)];
             (forall c :: c in cards ==> c in s.heap) && forall i :: 0 <= i < |cards| ==> s.heap[cards[i]].name != m.name
    ensures ApplyMove(s, p, m) == s
  {
    hide Inv; hide ApplyMove;
    ApplyMoveMoves(s, p, m);
  }

  // ------------------------------------------------------------------ the other commands, seen as functions

  lemma DetachStep(s: State, c: CardRef, f: Lift)
    requires Inv(s, f) && c in s.heap && s.heap[c].attached != []
    ensures var k := s.heap[c].attached[0];
            && k in s.heap && s.heap[k].parent == Some(c) && k in s.heap[c].attached
            && Inv(Detach(s, k), f) && c in Detach(s, k).heap
            && DetachChildren(Detach(s, k), c, f) == DetachChildren(s, c, f)
  {
    hide Inv; hide OthersStay; hide Detach; hide Detached;
    DetachShortens(s, c, f);
    DetachKeepsInv(s, s.heap[c].attached[0], f);
    DetachStays(s, Detach(s, s.heap[c].attached[0]), s.heap[c].attached[0], f);
  }

  lemma NoneToDetach(s: State, c: CardRef, f: Lift)
    requires Inv(s, f) && c in s.heap && s.heap[c].attached == []
    ensures DetachChildren(s, c, f) == s
  {
  }

  lemma RelocateZones(s: State, c: CardRef, column: nat, f: Lift)
    requires c in s.heap && s.heap[c].zone.Some? && s.heap[c].zone.value in s.zones && c in s.zones[s.heap[c].zone.value]
    requires f.Lifted? ==> f.card in s.heap && s.heap[f.card].zone.None?
    ensures f.Lifted? ==> var t := Relocate(s, c, column); f.card in t.heap && t.heap[f.card].zone.None?
  {
  }

  lemma LoosenedZones(s: State, k: CardRef, column: nat, f: Lift)
    requires Inv(s, f) && k in s.heap && s.heap[k].parent.Some? && !IsLifted(k, f)
    requires f.Lifted? ==> f.card in s.heap && s.heap[f.card].zone.None?
    ensures f.Lifted? ==>
              var t := Loosen(s, k, column, f); f.card in t.heap && t.heap[f.card].zone.None?
  {
    hide Inv; hide Loosen;
    if f.Lifted? {
      var t := Loosen(s, k, column, f);
      assert Stays(s.heap[f.card], t.heap[f.card]);
    }
  }

  lemma UnattachedLift(s: State, k: CardRef, grid: Grid, f: Lift)
    requires Inv(s, f) && k in s.heap && s.heap[k].parent.Some? && !IsLifted(k, f)
    requires f.Lifted? ==> f.card in s.heap && s.heap[f.card].zone.None?
    ensures f.Lifted? ==>
              var t := Movement.UnattachCard(s, k, grid, f); f.card in t.heap && t.heap[f.card].zone.None?
  {
    hide Inv; hide Movement.UnattachCard;
    if f.Lifted? {
      var t := Movement.UnattachCard(s, k, grid, f);
      assert Stays(s.heap[f.card], t.heap[f.card]);
    }
  }

  lemma FirstAttached(s: State, ks: seq<CardRef>, f: Lift)
    requires AllAttached(s, ks, f)
    ensures ks != [] ==> ks[0] in s.heap && s.heap[ks[0]].parent.Some? && !IsLifted(ks[0], f)
  {
    if ks != [] {
      assert ks[0] in ks;
    }
  }

  lemma PickedUpParent(s: State, player: int, start: Place, target: Place, c: CardRef, undoing: bool)
    requires Inv(s, NoCard) && player in s.players && Movable(s, c, start, target)
    ensures var t := PickUp(s, player, start, target, c, undoing);
            Inv(t, Lifted(c, start)) && c in t.heap && t.heap[c].parent.None? && t.heap[c].zone.None?
  {
    hide Inv;
  }

  /** The player without arrows from or to the card. */
  function Disarmed(player: Player, c: CardRef): Player
  {
    player.(arrows := ArrowsWithout(player.arrows, c))
  }

  lemma AllDisarmed(before: map<int, Player>, after: map<int, Player>, keys: seq<int>, c: CardRef)
    requires after.Keys == before.Keys && TurnOrder.Lists(keys, before.Keys)
    requires forall p :: p in after ==> after[p] == if p in keys then Disarmed(before[p], c) else before[p]
    ensures after == map p | p in before :: before[p].(arrows := ArrowsWithout(before[p].arrows, c))
  {
    hide ArrowsWithout;
    forall p | p in before
      ensures p in keys
    {
    }
  }

  lemma ElsewhereStep(s: State, p: int, ks: seq<CardRef>, cards: seq<CardRef>, i: nat)
    requires i < |cards|
    ensures ks + Elsewhere(s, p, cards[i..])
         == (if OwnedBy(s, cards[i], p) then ks else ks + [cards[i]]) + Elsewhere(s, p, cards[i + 1..])
  {
    hide OwnedBy;
    assert cards[i..][0] == cards[i] && cards[i..][1..] == cards[i + 1..];
    var rest := Elsewhere(s, p, cards[i + 1..]);
    assert [] + rest == rest && ks + ([cards[i]] + rest) == ks + [cards[i]] + rest;
  }

  lemma ForeignStep(s: State, p: int, ks: seq<CardRef>, cards: seq<CardRef>, i: nat)
    requires i < |cards| && forall c :: c in cards ==> c in s.heap
    ensures cards[i] in s.heap
    ensures ks + ForeignChildren(s, p, cards[i..])
         == ks + Elsewhere(s, p, s.heap[cards[i]].attached) + ForeignChildren(s, p, cards[i + 1..])
  {
    hide Elsewhere;
    assert cards[i] in cards && cards[i..][0] == cards[i] && cards[i..][1..] == cards[i + 1..];
    var here, rest := Elsewhere(s, p, s.heap[cards[i]].attached), ForeignChildren(s, p, cards[i + 1..]);
    assert ks + (here + rest) == ks + here + rest;
  }

  lemma NoForeign(s: State, p: int, ks: seq<CardRef>)
    ensures ks + Elsewhere(s, p, []) == ks && ks + ForeignChildren(s, p, []) == ks
  {
  }

  function UnrelatedArrows(heap: Heap, arrows: map<int, Arrow>, p: int): map<int, Arrow>
  {
    map i | i in arrows && !RelatedIn(heap, arrows[i], p) :: arrows[i]
  }

  function Unrelated(heap: Heap, player: Player, p: int): Player
  {
    player.(arrows := UnrelatedArrows(heap, player.arrows, p))
  }

  lemma LeftAreUnrelated(heap: Heap, arrows: map<int, Arrow>, left: map<int, Arrow>, ids: seq<int>, doomed: seq<int>, p: int)
    requires TurnOrder.Lists(ids, arrows.Keys)
    requires forall j :: j in doomed <==> j in ids && j in arrows && RelatedIn(heap, arrows[j], p)
    requires left == map j | j in arrows && j !in doomed :: arrows[j]
    ensures left == UnrelatedArrows(heap, arrows, p)
  {
    hide RelatedIn;
    assert forall j :: j in arrows ==> j in ids;
  }

  lemma LeftAreWithout(arrows: map<int, Arrow>, left: map<int, Arrow>, ids: seq<int>, c: CardRef)
    requires TurnOrder.Lists(ids, arrows.Keys)
    requires left.Keys <= arrows.Keys && forall j :: j in left ==> left[j] == arrows[j]
    requires forall j :: j in arrows ==>
               (j in left <==> !(j in ids && (arrows[j].start == c || arrows[j].target == OnCard(c))))
    ensures left == ArrowsWithout(arrows, c)
  {
    assert forall j :: j in arrows ==> j in ids;
    assert forall j :: j in left <==> j in ArrowsWithout(arrows, c);
  }

  lemma SameUnrelated(s: State, q: int, p: int)
    requires q in s.players
    ensures RemoveArrowsRelated(s, p).players[q] == Unrelated(s.heap, s.players[q], p)
  {
    hide RelatedIn;
    var arrows := s.players[q].arrows;
    assert forall i :: i in arrows ==> Related(s, arrows[i], p) == RelatedIn(s.heap, arrows[i], p);
    assert RemoveArrowsRelated(s, p).players[q].arrows == UnrelatedArrows(s.heap, s.players[q].arrows, p);
  }

  lemma AllUnrelated(before: State, after: map<int, Player>, keys: seq<int>, p: int)
    requires after.Keys == before.players.Keys && TurnOrder.Lists(keys, before.players.Keys)
    requires forall q :: q in after ==> after[q] == if q in keys then Unrelated(before.heap, before.players[q], p) else before.players[q]
    ensures before.(players := after) == RemoveArrowsRelated(before, p)
  {
    hide Unrelated;
    var t := RemoveArrowsRelated(before, p);
    assert t.players.Keys == before.players.Keys && t == before.(players := t.players);
    hide RemoveArrowsRelated;
    forall q | q in after
      ensures after[q] == t.players[q]
    {
      assert q in keys;
      SameUnrelated(before, q, p);
    }
    assert after == t.players;
  }

  function Prepended(selected: seq<Selected>, r: Result<seq<Selected>, Response>): Result<seq<Selected>, Response>
  {
    if r.Err? then r else Ok(selected + r.value)
  }

  lemma PrependOne(selected: seq<Selected>, m: Selected, r: Result<seq<Selected>, Response>)
    ensures Prepended(selected + [m], r) == if r.Err? then r else Ok(selected + ([m] + r.value))
  {
    if r.Ok? {
      assert selected + [m] + r.value == selected + ([m] + r.value);
    }
  }

  lemma LinkEnds(s: State, c: CardRef, q: CardRef)
    requires MayLink(s, c, q)
    ensures c in s.heap && q in s.heap
  {
  }

  lemma LargestId(ids: set<int>, keys: seq<int>, id: int)
    requires TurnOrder.Lists(keys, ids) && id >= 0 && (id > 0 ==> id in ids)
    requires forall j :: 0 <= j < |keys| ==> keys[j] <= id
    ensures NewArrowId(ids) == id + 1
  {
    forall i | i in ids
      ensures i <= id
    {
    }
    if id > 0 {
      assert IsMax(ids, id);
      assert |ids| > 0;
    }
  }

  lemma AttachableEnds(s: State, c: CardRef, q: CardRef)
    requires Attachable(s, c, q)
    ensures c in s.heap && s.heap[c].zone.Some? && HasCoords(s.heap[c].zone.value.zone)
  {
  }

  lemma SetParentKeys(heap: Heap, c: CardRef, parent: Option<CardRef>)
    requires c in heap && (parent.Some? ==> parent.value in heap)
    requires heap[c].parent.Some? ==> heap[c].parent.value in heap && c in heap[heap[c].parent.value].attached
    ensures SetParent(heap, c, parent).Keys == heap.Keys
  {
  }
}

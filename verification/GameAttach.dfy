/** Attaching and unattaching with the columns that the tables' indexes answer with. */
module GameAttach {
  import opened Wrappers
  import opened Cards
  import opened Shuffling
  import opened ZoneLists
  import opened PileRow
  import opened RowMoves
  import opened TableZone
  import opened TableSteps
  import TableRuns
  import opened GameState
  import opened Movement
  import opened Commands
  import opened Attachments
  import opened TableLinks
  import opened GameRuns
  import opened GameTables

  // ------------------------------------------------------------------ a card taken off another

  /** A child is beside the grid, has no children, and its parent knows of it. */
  lemma ChildKnown(s: State, c: CardRef)
    requires Inv(s, NoCard) && c in s.heap && s.heap[c].parent.Some?
    ensures var o := s.heap[c].parent.value;
            && o in s.heap && o != c && c in s.heap[o].attached && s.heap[c].attached == [] && s.heap[c].x == -1
            && s.heap[c].zone.Some? && HasCoords(s.heap[c].zone.value.zone) && s.heap[c].zone.value in s.zones
            && c in s.zones[s.heap[c].zone.value]
  {
    hide Ids; hide Arrows;
    InItsZone(s, c, NoCard);
  }

  /** What unattachCard does before any compaction, with the column the indexes answer with. */
  lemma LoosenIsMove(s: State, p: Place, ix: Indexes, c: CardRef, o: CardRef, column: nat)
    requires Inv(s, NoCard) && p in s.zones && HasCoords(p.zone) && Good(BoardOf(s, p, ix)) && c in s.zones[p] && c in s.heap
    requires s.heap[c].parent == Some(o) && s.heap[c].zone == Some(p) && s.heap[c].x == -1 && s.heap[c].attached == []
    requires o in s.heap && o != c && c in s.heap[o].attached
    ensures var f := Freed(BoardOf(s, p, ix), c, o);
            && Consistent(f) && Consistent(MovedOn(f, c, -1, s.heap[c].y, s.heap[c].faceDown))
            && var u := MovedOn(f, c, -1, s.heap[c].y, s.heap[c].faceDown);
               && c in u.heap && u.heap[c].x >= 0 && u.place == p
               && (column == u.heap[c].x ==> Loosen(s, c, column, NoCard) == WithBoard(s, u))
  {
    hide Inv; hide Good; hide Calm; hide Unlinked; hide SameTrees; hide MovedOn; hide Without; hide Consistent; hide Relocate;
    var b := BoardOf(s, p, ix);
    var f := Freed(b, c, o);
    FreedGood(b, c, o);
    ConsistentGood(f);
    ShiftConsistent(f, c, -1, s.heap[c].y, s.heap[c].faceDown);
    MovedColumn(f, c, -1, s.heap[c].y, s.heap[c].faceDown);
    var s1 := Detach(s, c);
    assert s1.heap == f.heap;
    assert BoardOf(s1, p, ix) == f;
    RelocateIsMove(s1, p, ix, c, -1);
    assert forall u: Board :: u.place == p ==> WithBoard(s1, u) == WithBoard(s, u);
  }

  /** The board after unattachCard fits the game again. */
  lemma UnattachIsUnattached(s: State, p: Place, ix: Indexes, c: CardRef, o: CardRef, places: seq<(int, int)>)
    returns (grid: Movement.Grid)
    requires Inv(s, NoCard) && p in s.zones && HasCoords(p.zone) && Good(BoardOf(s, p, ix)) && c in s.zones[p] && c in s.heap
    requires s.heap[c].parent == Some(o) && s.heap[c].zone == Some(p) && s.heap[c].x == -1 && s.heap[c].attached == []
    requires o in s.heap && o != c && c in s.heap[o].attached && Threes(places)
    ensures var f := Freed(BoardOf(s, p, ix), c, o);
            Consistent(f) && Consistent(MovedOn(f, c, -1, s.heap[c].y, s.heap[c].faceDown))
    ensures Movement.UnattachCard(s, c, grid, NoCard) == WithBoard(s, Unattached(BoardOf(s, p, ix), c, o, places))
    ensures Unattached(BoardOf(s, p, ix), c, o, places).place == p
    ensures OthersAsWere(Freed(BoardOf(s, p, ix), c, o), Unattached(BoardOf(s, p, ix), c, o, places))
  {
    hide Inv; hide Good; hide Calm; hide Unlinked; hide SameTrees; hide MovedOn; hide Consistent; hide Compact; hide Loosen;
    hide AllFixed; hide OthersAsWere; hide Freed;
    FreedKeys(BoardOf(s, p, ix), c, o);
    var face := s.heap[c].faceDown;
    LoosenIsMove(s, p, ix, c, o, 0);
    var f := Freed(BoardOf(s, p, ix), c, o);
    var u := MovedOn(f, c, -1, s.heap[c].y, face);
    var column: nat := u.heap[c].x;
    LoosenIsMove(s, p, ix, c, o, column);
    var t := Loosen(s, c, column, NoCard);
    MovedOnOthers(f, c, -1, s.heap[c].y, face);
    if face {
      assert BoardOf(t, p, u.indexes) == u;
      var moves := CompactIsAllFixed(t, p, u.indexes, NoCard, places);
      CarriedOutIs(t, p, u, AllFixed(u, places), moves);
      AllFixedOthers(u, places);
      OthersAsWereThen(f, u, AllFixed(u, places));
      grid := Movement.Grid(true, false, d => column, d => moves, []);
      assert WithBoard(t, AllFixed(u, places)) == WithBoard(s, AllFixed(u, places));
    } else {
      grid := Movement.Grid(true, false, d => column, d => [], []);
    }
  }

  lemma FreedKeys(b: Board, c: CardRef, o: CardRef)
    requires c in b.heap && o in b.heap && c != o && c in b.heap[o].attached
    ensures Freed(b, c, o).cards == b.cards && Freed(b, c, o).heap.Keys == b.heap.Keys && Freed(b, c, o).place == b.place
    ensures Freed(b, c, o).heap[c] == b.heap[c].(parent := None)
    ensures forall d :: d in b.heap && d != c && d != o ==> Freed(b, c, o).heap[d] == b.heap[d]
    ensures Freed(b, c, o).heap[o] == b.heap[o].(attached := Freed(b, c, o).heap[o].attached) && b.heap[o].attached != []
  {
  }

  lemma FreedUntouched(s: State, p: Place, ix: Indexes, c: CardRef, o: CardRef, u: Board, q: Place)
    requires Inv(s, NoCard) && p in s.zones && q in s.zones && q != p && c in s.zones[p] && c in s.heap && o in s.heap
    requires c != o && c in s.heap[o].attached && OthersAsWere(Freed(BoardOf(s, p, ix), c, o), u) && u.place == p
    ensures LeftAlone(s, WithBoard(s, u), q)
  {
    hide Inv; hide Freed;
    ZonesKnown(s, q, NoCard);
    FreedKeys(BoardOf(s, p, ix), c, o);
    forall d | d in s.zones[q]
      ensures d in s.heap && d in u.heap && SameOnTable(s.heap[d], u.heap[d])
    {
      NotOnOther(s, q, p, d);
      assert u.heap[d] == Freed(BoardOf(s, p, ix), c, o).heap[d];
    }
  }

  /**
   cmdAttachCard without a target: with what the indexes of its table answer with, the card comes back
   into the grid; its old parent, on this table or another, has one child less.
   */
  lemma UnattachPlayed(
    w: World, player: int, zone: ZoneName, id: int, goal: AttachTarget, c: CardRef, o: CardRef, places: seq<(int, int)>)
    returns (grid: Movement.Grid, v: World)
    requires TablesGood(w) && GameOk(w.game) && player in w.game.players
    requires PlanAttach(w.game, player, zone, id, goal) == Free(c) && c in w.game.heap && w.game.heap[c].parent == Some(o)
    requires var p := Place(player, zone);
             && HasCoords(zone) && TableGood(w, p) && c in w.game.zones[p]
             && TableRuns.Possible(BoardOf(w.game, p, w.tables[p]), TableRuns.Unattach(c, o, places))
    ensures Played(w, DoAttach(player, zone, id, goal, grid), v)
  {
    hide Inv; hide Seats; hide Tidy; hide Follows; hide PlanAttach; hide TablesGood; hide TableGood; hide Movement.UnattachCard;
    hide TableRuns.Possible; hide ExecLinks;
    grid, v := UnattachFollows(w, Place(player, zone), c, o, places);
    UnattachIsCommand(w.game, player, zone, id, goal, c, grid);
  }

  lemma UnattachFollows(w: World, p: Place, c: CardRef, o: CardRef, places: seq<(int, int)>)
    returns (grid: Movement.Grid, v: World)
    requires TablesGood(w) && Inv(w.game, NoCard) && c in w.game.heap && w.game.heap[c].parent == Some(o)
    requires HasCoords(p.zone) && TableGood(w, p) && c in w.game.zones[p]
    requires TableRuns.Possible(BoardOf(w.game, p, w.tables[p]), TableRuns.Unattach(c, o, places))
    ensures Inv(DropArrows(w.game, c), NoCard)
    ensures v.game == Movement.UnattachCard(DropArrows(w.game, c), c, grid, NoCard) && Follows(w, v)
  {
    hide Inv; hide Good; hide FollowsBy; hide Follows; hide LeftAlone; hide OthersAsWere; hide Freed; hide TableRuns.Possible;
    hide Unattached; hide TablesGood; hide MovedOn; hide Consistent; hide Visits; hide Movement.UnattachCard; hide NoArrowsAt;
    var s := w.game;
    var b := BoardOf(s, p, w.tables[p]);
    ChildKnown(s, c);
    ZonesKnown(s, p, NoCard);
    DropArrowsKeepsInv(s, c, NoCard);
    var s1 := DropArrows(s, c);
    assert BoardOf(s1, p, w.tables[p]) == b;
    UnattachStep(b, c, o, places);
    FreedKeys(b, c, o);
    grid := UnattachIsUnattached(s1, p, w.tables[p], c, o, places);
    var u := Unattached(b, c, o, places);
    var t := WithBoard(s1, u);
    v := World(t, w.tables[p := u.indexes]);
    assert BoardOf(t, p, u.indexes) == u;
    forall q | q in s.zones && HasCoords(q.zone) && q != p
      ensures LeftAlone(s, t, q)
    {
      FreedUntouched(s, p, w.tables[p], c, o, u, q);
      SamePlacesUntouched(s, WithBoard(s, u), t, q);
    }
    OneTableFollows(w, t, p, u.indexes, [TableRuns.Unattach(c, o, places)]);
  }

  lemma SamePlacesUntouched(s: State, t: State, u: State, q: Place)
    requires LeftAlone(s, t, q) && u.heap == t.heap && u.zones == t.zones
    ensures LeftAlone(s, u, q)
  {
  }

  lemma UnattachStep(b: Board, c: CardRef, o: CardRef, places: seq<(int, int)>)
    requires Good(b) && TableRuns.Possible(b, TableRuns.Unattach(c, o, places))
    ensures c in b.heap && o in b.heap && c != o && c in b.heap[o].attached && c in b.cards && Threes(places)
    ensures Consistent(Freed(b, c, o)) && Consistent(MovedOn(Freed(b, c, o), c, -1, b.heap[c].y, b.heap[c].faceDown))
    ensures FollowsBy(b, Unattached(b, c, o, places), [TableRuns.Unattach(c, o, places)])
  {
    hide Good; hide Consistent; hide MovedOn; hide Visits; hide Unattached; hide Freed;
    FreedKeys(b, c, o);
    UnattachedGood(b, c, o, places);
    OneStep(b, TableRuns.Unattach(c, o, places));
  }

  lemma UnattachIsCommand(s: State, player: int, zone: ZoneName, id: int, goal: AttachTarget, c: CardRef, grid: Movement.Grid)
    requires GameOk(s) && player in s.players && PlanAttach(s, player, zone, id, goal) == Free(c)
    requires c in s.heap && s.heap[c].parent.Some?
    ensures Inv(DropArrows(s, c), NoCard)
    ensures Allowed(s, DoAttach(player, zone, id, goal, grid))
    ensures Exec(s, DoAttach(player, zone, id, goal, grid)) == Movement.UnattachCard(DropArrows(s, c), c, grid, NoCard)
  {
    hide Inv; hide Seats; hide Tidy; hide PlanAttach; hide SameSetting; hide Calm; hide Unlinked; hide NoArrowsAt; hide SamePopulation;
    DropArrowsKeepsInv(s, c, NoCard);
  }

  // ------------------------------------------------------------------ a card attached to another one of its table

  /** The link of the commands' view is the hung board, old parent and all. */
  lemma LinkIsHung(s: State, p: Place, ix: Indexes, c: CardRef, q: CardRef)
    requires p in s.zones && c in s.heap && q in s.heap && c != q && LinkKnown(BoardOf(s, p, ix), c)
    ensures s.heap[c].parent.Some? ==>
              s.heap[c].parent.value in s.heap && c in s.heap[s.heap[c].parent.value].attached
    ensures var f := Unhooked(BoardOf(s, p, ix), c);
            && c in f.heap && q in f.heap
            && Link(s, c, q) == WithBoard(s, Hung(f, c, q))
            && BoardOf(Link(s, c, q), p, Hung(f, c, q).indexes) == Hung(f, c, q)
  {
    hide Without;
    var h := Hung(Unhooked(BoardOf(s, p, ix), c), c, q);
    assert Link(s, c, q).heap == h.heap;
  }

  /** A card without children has no others to shed. */
  lemma HangIsLink(s: State, c: CardRef, q: CardRef, grid: Movement.Grid)
    requires Inv(s, NoCard) && Attachable(s, c, q) && s.heap[c].attached == []
    ensures s.heap[c].parent.Some? ==>
              s.heap[c].parent.value in s.heap && c in s.heap[s.heap[c].parent.value].attached
    ensures HangUnder(s, c, q, grid) == Link(DropArrows(s, c), c, q)
  {
    hide Inv; hide SameSetting; hide Calm; hide UnlinkedAll; hide MayLink; hide AllAttached; hide NoArrowsAt; hide Linked;
    if s.heap[c].parent.Some? {
      ChildKnown(s, c);
    }
  }

  /** The first empty pile is a slot of the grid that nobody uses. */
  lemma SpaceIsFree(b: Board, y: int)
    requires AllIndexed(b)
    ensures b.At(y).space >= 0 && ColumnEmpty(b.At(y).cells, b.At(y).space)
  {
    assert Indexed(b.At(y));
  }

  /** What the indexes answer with while the new parent is set aside. */
  datatype Room = Room(stacked: bool, column: nat, after: seq<(CardRef, nat)>)

  lemma RoomIsAside(s: State, p: Place, ix: Indexes, q: CardRef, first: seq<(int, int)>) returns (room: Room)
    requires Fits(s, p, ix, NoCard) && q in s.zones[p] && q in s.heap && s.heap[q].parent.None? && OnTable(s, q, NoCard)
    requires AllIndexed(BoardOf(s, p, ix)) && Threes(first)
    requires Consistent(SetAside(BoardOf(s, p, ix), q))
    ensures forall grid: Movement.Grid ::
              grid.stacked == room.stacked && grid.column(q) == room.column && grid.compactedAfter(q) == room.after ==>
                GiveRoom(s, q, grid) == WithBoard(s, Aside(BoardOf(s, p, ix), q, first))
    ensures OthersAsWere(BoardOf(s, p, ix), Aside(BoardOf(s, p, ix), q, first)) && Aside(BoardOf(s, p, ix), q, first).place == p
    ensures Inv(WithBoard(s, Aside(BoardOf(s, p, ix), q, first)), NoCard)
  {
    hide Inv; hide SameSetting; hide Calm; hide SameTrees; hide Compact; hide Relocate; hide MovedOn; hide AllFixed; hide Consistent;
    hide OthersAsWere; hide AllIndexed; hide PassedOver;
    var b := BoardOf(s, p, ix);
    var y, face := s.heap[q].y, s.heap[q].faceDown;
    room := Room(Stacked(b, q), 0, []);
    if room.stacked {
      SpaceIsFree(b, y);
      NotPassedOver(b.At(y).cells, s.heap[q], b.At(y).space);
      var u := MovedOn(b, q, b.At(y).space, y, face);
      RelocateIsMove(s, p, ix, q, b.At(y).space);
      RelocateCalm(s, q, u.heap[q].x, NoCard);
      MovedOnOthers(b, q, b.At(y).space, y, face);
      room := room.(column := u.heap[q].x);
      if face {
        var t := WithBoard(s, u);
        assert BoardOf(t, p, u.indexes) == u;
        var moves := CompactIsAllFixed(t, p, u.indexes, NoCard, first);
        CarriedOutIs(t, p, u, AllFixed(u, first), moves);
        AllFixedOthers(u, first);
        OthersAsWereThen(b, u, AllFixed(u, first));
        room := room.(after := moves);
        assert WithBoard(t, AllFixed(u, first)) == WithBoard(s, AllFixed(u, first));
      }
    } else {
      SameOthers(b);
      SameBoard(s, p, ix);
    }
  }

  lemma NotPassedOver(cells: map<int, Tile>, card: Card, x: int)
    requires ColumnEmpty(cells, x)
    ensures !PassedOver(cells, card, x)
  {
  }

  /** Hanging the card under another one of its table changes the two and an old parent, and nobody else. */
  lemma HungUntouched(s: State, t: State, p: Place, ix: Indexes, c: CardRef, q: CardRef, k: Place)
    requires Inv(s, NoCard) && p in s.zones && k in s.zones && k != p && c in s.zones[p] && q in s.zones[p]
    requires c in s.heap && q in s.heap && c != q && LinkKnown(BoardOf(s, p, ix), c)
    requires c in Unhooked(BoardOf(s, p, ix), c).heap && q in Unhooked(BoardOf(s, p, ix), c).heap
    requires t.heap == Hung(Unhooked(BoardOf(s, p, ix), c), c, q).heap && k in t.zones && t.zones[k] == s.zones[k]
    ensures LeftAlone(s, t, k)
  {
    hide Inv; hide Without;
    ZonesKnown(s, k, NoCard);
    forall d | d in s.zones[k]
      ensures d in s.heap && d in t.heap && SameOnTable(s.heap[d], t.heap[d])
    {
      NotOnOther(s, k, p, d);
    }
  }

  /** The board while a card is being attached. */
  ghost predicate AttachBoard(b: Board, c: CardRef, q: CardRef, first: seq<(int, int)>, places: seq<(int, int)>)
  {
    && LinkKnown(b, c) && c in b.cards && q in b.cards && c != q
    && var f := Unhooked(b, c);
       && c in f.heap && q in f.heap && Good(f) && f.cards == b.cards && f.place == b.place
       && Threes(first) && Threes(places) && AttachReady(f, c, q, first) && AllIndexed(Hung(f, c, q))
  }

  lemma AttachBoardKnown(b: Board, c: CardRef, q: CardRef, first: seq<(int, int)>, places: seq<(int, int)>)
    requires Good(b) && TableRuns.Possible(b, TableRuns.AttachHere(c, q, first, places))
    ensures AttachBoard(b, c, q, first, places)
    ensures TableRuns.Step(b, TableRuns.AttachHere(c, q, first, places)) == AttachedHere(Unhooked(b, c), c, q, first, places)
  {
    hide Good; hide Hung; hide AttachReady; hide AttachVisits; hide AllIndexed; hide AttachedHere; hide Without; hide MiddleToTop;
    UnhookedGood(b, c);
    var f := Unhooked(b, c);
    AttachedGoodIff(f, c, q, first, places);
    HungIndexed(f, c, q);
  }

  /** The game once the card hangs, whatever the indexes will answer. */
  lemma HungInGame(s: State, p: Place, ix: Indexes, c: CardRef, q: CardRef)
    requires Inv(s, NoCard) && p in s.zones && HasCoords(p.zone) && Attachable(s, c, q) && s.heap[c].attached == []
    requires s.heap[q].zone == Some(p) && q in s.zones[p] && LinkKnown(BoardOf(s, p, ix), c)
    ensures c in Unhooked(BoardOf(s, p, ix), c).heap && q in Unhooked(BoardOf(s, p, ix), c).heap
    ensures var h := Hung(Unhooked(BoardOf(s, p, ix), c), c, q);
            var t := WithBoard(DropArrows(s, c), h);
            && Inv(t, NoCard) && (forall grid :: HangUnder(s, c, q, grid) == t)
            && p in t.zones && BoardOf(t, p, h.indexes) == h && h.place == p
            && q in t.zones[p] && q in t.heap && t.heap[q].parent.None? && OnTable(t, q, NoCard)
  {
    hide Inv; hide SameSetting; hide HangUnder; hide Hung; hide Link; hide DropArrows; hide Unhooked; hide LinkKnown;
    var b := BoardOf(s, p, ix);
    ArrowsKeepBoard(s, p, ix, c);
    var s1 := DropArrows(s, c);
    LinkIsHung(s1, p, ix, c, q);
    var h := Hung(Unhooked(b, c), c, q);
    HungFacts(b, c, q);
    forall grid: Movement.Grid
      ensures HangUnder(s, c, q, grid) == WithBoard(s1, h)
    {
      HangIsLink(s, c, q, grid);
    }
    assert HangUnder(s, c, q, Movement.Grid(true, false, d => 0, d => [], [])) == WithBoard(s1, h);
    HungMembers(s1, WithBoard(s1, h), p, c, q, h);
  }

  /** What the indexes answer with during the whole command. */
  lemma AttachAnswers(s: State, p: Place, ix: Indexes, c: CardRef, q: CardRef, first: seq<(int, int)>, places: seq<(int, int)>)
    returns (grid: Movement.Grid)
    requires Inv(s, NoCard) && p in s.zones && HasCoords(p.zone) && Attachable(s, c, q) && s.heap[c].attached == []
    requires s.heap[c].zone == Some(p) && s.heap[q].zone == Some(p) && AttachBoard(BoardOf(s, p, ix), c, q, first, places)
    ensures var f := Unhooked(BoardOf(s, p, ix), c);
            && Consistent(f) && AttachCard(s, c, q, grid) == WithBoard(DropArrows(s, c), AttachedHere(f, c, q, first, places))
            && OthersAsWere(Hung(f, c, q), AttachedHere(f, c, q, first, places))
            && AttachedHere(f, c, q, first, places).place == p
  {
    hide Inv; hide Good; hide SameSetting; hide Compact; hide GiveRoom; hide HangUnder; hide Hung; hide Aside; hide AllFixed;
    hide Consistent; hide SetAside; hide OthersAsWere; hide DropArrows; hide Unhooked; hide LinkKnown; hide AllIndexed;
    ConsistentGood(Unhooked(BoardOf(s, p, ix), c));
    HungInGame(s, p, ix, c, q);
    var s1, h := DropArrows(s, c), Hung(Unhooked(BoardOf(s, p, ix), c), c, q);
    var t1 := WithBoard(s1, h);
    var room := RoomIsAside(t1, p, h.indexes, q, first);
    var a := Aside(h, q, first);
    var t2 := WithBoard(t1, a);
    var moves := FixAnswers(t2, p, a, places);
    AllFixedOthers(a, places);
    OthersAsWereThen(h, a, AllFixed(a, places));
    var column, after := room.column, room.after;
    grid := Movement.Grid(true, room.stacked, d => column, d => after, moves);
    assert HangUnder(s, c, q, grid) == t1;
    assert GiveRoom(t1, q, grid) == t2;
    WithBoards(s1, t1, t2, h, a, AllFixed(a, places));
  }

  lemma FixAnswers(t: State, p: Place, a: Board, places: seq<(int, int)>) returns (moves: seq<(CardRef, nat)>)
    requires Inv(t, NoCard) && p in t.zones && HasCoords(p.zone) && a.place == p && a.heap == t.heap && a.cards == t.zones[p]
    requires Consistent(a) && Threes(places)
    ensures Compact(t, p, moves, NoCard) == WithBoard(t, AllFixed(a, places)) && AllFixed(a, places).place == p
  {
    hide Inv; hide Consistent; hide Compact; hide AllFixed;
    assert BoardOf(t, p, a.indexes) == a;
    moves := CompactIsAllFixed(t, p, a.indexes, NoCard, places);
    CarriedOutIs(t, p, a, AllFixed(a, places), moves);
  }

  lemma ArrowsKeepBoard(s: State, p: Place, ix: Indexes, c: CardRef)
    requires p in s.zones
    ensures DropArrows(s, c).heap == s.heap && DropArrows(s, c).zones == s.zones
    ensures BoardOf(DropArrows(s, c), p, ix) == BoardOf(s, p, ix)
  {
  }

  lemma HungFacts(b: Board, c: CardRef, q: CardRef)
    requires LinkKnown(b, c) && q in b.heap && c != q && c in Unhooked(b, c).heap && q in Unhooked(b, c).heap
    ensures var h := Hung(Unhooked(b, c), c, q);
            && h.cards == b.cards && h.place == b.place && q in h.heap
            && h.heap[q].zone == b.heap[q].zone && h.heap[q].parent == b.heap[q].parent
  {
    hide Without;
  }

  lemma HungMembers(s: State, t: State, p: Place, c: CardRef, q: CardRef, h: Board)
    requires p in s.zones && q in s.zones[p] && t == WithBoard(s, h) && h.place == p && h.cards == s.zones[p]
    requires q in h.heap && h.heap[q].zone == Some(p) && h.heap[q].parent.None? && HasCoords(p.zone)
    ensures p in t.zones && q in t.zones[p] && q in t.heap && t.heap[q].parent.None? && OnTable(t, q, NoCard)
  {
  }

  lemma WithBoards(s: State, t: State, r: State, h: Board, a: Board, u: Board)
    requires t == WithBoard(s, h) && r == WithBoard(t, a) && a.place == h.place && u.place == h.place
    ensures WithBoard(r, u) == WithBoard(s, u)
  {
  }

  lemma AttachFollows(w: World, p: Place, c: CardRef, q: CardRef, first: seq<(int, int)>, places: seq<(int, int)>)
    returns (grid: Movement.Grid, v: World)
    requires TablesGood(w) && Inv(w.game, NoCard) && HasCoords(p.zone) && TableGood(w, p)
    requires Attachable(w.game, c, q) && w.game.heap[c].attached == [] && c in w.game.zones[p] && q in w.game.zones[p]
    requires var b, op := BoardOf(w.game, p, w.tables[p]), TableRuns.AttachHere(c, q, first, places);
             TableRuns.Possible(b, op) && TableRuns.Harmless(b, op)
    ensures v.game == AttachCard(w.game, c, q, grid) && Follows(w, v)
  {
    hide Inv; hide Good; hide AttachCard; hide Follows; hide FollowsBy; hide LeftAlone; hide OthersAsWere; hide AttachedHere; hide Hung;
    hide TableRuns.Possible; hide TableRuns.Harmless; hide TableRuns.Step; hide TablesGood; hide AttachReady; hide DropArrows;
    hide Consistent; hide AllIndexed; hide Unhooked; hide LinkKnown; hide Link;
    var s, ix := w.game, w.tables[p];
    var b := BoardOf(s, p, ix);
    var op := TableRuns.AttachHere(c, q, first, places);
    ZonesKnown(s, p, NoCard);
    AttachBoardKnown(b, c, q, first, places);
    grid := AttachAnswers(s, p, ix, c, q, first, places);
    var f := Unhooked(b, c);
    var u := AttachedHere(f, c, q, first, places);
    ArrowsKeepBoard(s, p, ix, c);
    var s1 := DropArrows(s, c);
    var t := WithBoard(s1, u);
    v := World(t, w.tables[p := u.indexes]);
    OneStep(b, op);
    assert BoardOf(t, p, u.indexes) == u;
    forall k | k in s.zones && HasCoords(k.zone) && k != p
      ensures LeftAlone(s, t, k)
    {
      AttachUntouched(s, p, ix, c, q, u, k);
    }
    OneTableFollows(w, t, p, u.indexes, [op]);
  }

  lemma AttachUntouched(s: State, p: Place, ix: Indexes, c: CardRef, q: CardRef, u: Board, k: Place)
    requires Inv(s, NoCard) && p in s.zones && k in s.zones && k != p && c in s.zones[p] && q in s.zones[p]
    requires Attachable(s, c, q) && s.heap[c].attached == [] && LinkKnown(BoardOf(s, p, ix), c)
    requires c in Unhooked(BoardOf(s, p, ix), c).heap && q in Unhooked(BoardOf(s, p, ix), c).heap
    requires OthersAsWere(Hung(Unhooked(BoardOf(s, p, ix), c), c, q), u) && u.place == p
    ensures LeftAlone(s, WithBoard(DropArrows(s, c), u), k)
  {
    hide Inv; hide Hung; hide Unhooked; hide LinkKnown; hide OthersAsWere; hide Link; hide DropArrows; hide HangUnder; hide LeftAlone;
    hide SameSetting;
    var h := Hung(Unhooked(BoardOf(s, p, ix), c), c, q);
    HungFacts(BoardOf(s, p, ix), c, q);
    HungUntouched(s, WithBoard(s, h), p, ix, c, q, k);
    ArrowsKeepBoard(s, p, ix, c);
    var s1 := DropArrows(s, c);
    var none := Movement.Grid(true, false, d => 0, d => [], []);
    HangIsLink(s, c, q, none);
    LinkIsHung(s1, p, ix, c, q);
    var t1 := WithBoard(s1, h);
    assert t1 == HangUnder(s, c, q, none);
    OtherTablesUntouched(t1, p, h, u, k);
    SamePlacesUntouched(s, WithBoard(s, h), t1, k);
    UntouchedOn(s, t1, WithBoard(t1, u), k);
    WithBoards(s1, t1, WithBoard(t1, u), h, u, u);
    SamePlacesUntouched(s, WithBoard(t1, u), WithBoard(s1, u), k);
  }

  /**
   cmdAttachCard for two cards of one table, the first without children: with what the table's indexes answer
   with, the parent is set aside if need be, and both compactions are the table's own.
   */
  lemma AttachPlayed(
    w: World, player: int, zone: ZoneName, id: int, goal: AttachTarget, c: CardRef, q: CardRef,
    first: seq<(int, int)>, places: seq<(int, int)>) returns (grid: Movement.Grid, v: World)
    requires TablesGood(w) && GameOk(w.game) && player in w.game.players && PlanAttach(w.game, player, zone, id, goal) == Hang(c, q)
    requires var p := Place(player, zone);
             && HasCoords(zone) && TableGood(w, p) && c in w.game.zones[p] && q in w.game.zones[p]
             && c in w.game.heap && w.game.heap[c].attached == [] && c != q
             && var b, op := BoardOf(w.game, p, w.tables[p]), TableRuns.AttachHere(c, q, first, places);
                TableRuns.Possible(b, op) && TableRuns.Harmless(b, op)
    ensures Played(w, DoAttach(player, zone, id, goal, grid), v)
  {
    hide Inv; hide Seats; hide Tidy; hide Follows; hide PlanAttach; hide TablesGood; hide TableGood; hide AttachCard;
    hide TableRuns.Possible; hide TableRuns.Harmless; hide ExecLinks; hide Attachable;
    PlanIsAttachable(w.game, player, zone, id, goal);
    grid, v := AttachFollows(w, Place(player, zone), c, q, first, places);
    AttachIsCommand(w.game, player, zone, id, goal, c, q, grid);
  }

  lemma AttachIsCommand(
    s: State, player: int, zone: ZoneName, id: int, goal: AttachTarget, c: CardRef, q: CardRef, grid: Movement.Grid)
    requires GameOk(s) && player in s.players && PlanAttach(s, player, zone, id, goal) == Hang(c, q) && c != q
    requires Attachable(s, c, q)
    ensures Allowed(s, DoAttach(player, zone, id, goal, grid))
    ensures Exec(s, DoAttach(player, zone, id, goal, grid)) == AttachCard(s, c, q, grid)
  {
    hide Inv; hide Seats; hide Tidy; hide PlanAttach; hide SameSetting; hide SamePopulation; hide AttachCard; hide Attachable;
  }
}

/**
 The game and the indexes of its tables together.  Commands are given the columns that the indexes answer
 with, and what they do to each table is a run of the table's own steps.
 */
module GameTables {
  import opened Wrappers
  import opened Cards
  import opened Shuffling
  import opened ZoneLists
  import opened PileRow
  import opened RowMoves
  import opened TableZone
  import opened TableSteps
  import TableRuns
  import opened GameState
  import opened Movement
  import opened Commands
  import opened Attachments
  import opened Tokens
  import opened TableLinks
  import opened GameRuns

  /** All that the server keeps: the game, and the three maps of every table. */
  datatype World = World(game: State, tables: map<Place, Indexes>)

  ghost predicate TableGood(w: World, p: Place)
  {
    p in w.game.zones && p in w.tables && Good(BoardOf(w.game, p, w.tables[p]))
  }

  ghost predicate TablesGood(w: World)
  {
    forall p :: p in w.game.zones && HasCoords(p.zone) ==> TableGood(w, p)
  }

  /** What happened to table p is a harmless run of the table's steps. */
  ghost predicate TableFollows(w: World, v: World, p: Place)
    requires TableGood(w, p)
  {
    p in v.game.zones && p in v.tables
    && exists ops :: FollowsBy(BoardOf(w.game, p, w.tables[p]), BoardOf(v.game, p, v.tables[p]), ops)
  }

  ghost predicate FollowsBy(b: Board, u: Board, ops: seq<TableRuns.TableOp>)
    requires Good(b)
  {
    TableRuns.HarmlessRun(b, ops) && TableRuns.Run(b, ops) == u
  }

  /** No table appears, and each that is left has followed. */
  ghost predicate Follows(w: World, v: World)
    requires TablesGood(w)
  {
    forall p :: p in v.game.zones && HasCoords(p.zone) ==> p in w.game.zones && TableFollows(w, v, p)
  }

  lemma FollowsKeepsGood(w: World, v: World)
    requires TablesGood(w) && Follows(w, v)
    ensures TablesGood(v)
  {
    hide Good; hide TableRuns.Run; hide TableRuns.HarmlessRun; hide TableRuns.IndexesAgree; hide TableRuns.NextColumnFree;
    forall p | p in v.game.zones && HasCoords(p.zone)
      ensures TableGood(v, p)
    {
      var b := BoardOf(w.game, p, w.tables[p]);
      var ops :| FollowsBy(b, BoardOf(v.game, p, v.tables[p]), ops);
      TableRuns.RunsStayGood(b, ops);
    }
  }

  // ------------------------------------------------------------------ a table that is left alone

  predicate SameOnTable(a: Card, b: Card)
  {
    && b.x == a.x && b.y == a.y && b.name == a.name && b.zone == a.zone
    && (a.parent.None? ==> b.parent.None?) && (a.attached == [] ==> b.attached == [])
  }

  ghost predicate LeftAlone(s: State, t: State, p: Place)
  {
    && p in s.zones && p in t.zones && t.zones[p] == s.zones[p]
    && forall c :: c in s.zones[p] ==> c in s.heap && c in t.heap && SameOnTable(s.heap[c], t.heap[c])
  }

  ghost predicate AllLeftAlone(s: State, t: State)
  {
    && (forall p :: p in t.zones && HasCoords(p.zone) ==> p in s.zones)
    && (forall p :: p in s.zones && HasCoords(p.zone) ==> LeftAlone(s, t, p))
  }

  lemma UntouchedThen(s: State, t: State, u: State)
    requires AllLeftAlone(s, t) && AllLeftAlone(t, u)
    ensures AllLeftAlone(s, u)
  {
    forall p | p in s.zones && HasCoords(p.zone)
      ensures LeftAlone(s, u, p)
    {
      assert LeftAlone(s, t, p) && LeftAlone(t, u, p);
    }
  }

  lemma OneStep(b: Board, op: TableRuns.TableOp)
    requires Good(b) && TableRuns.Possible(b, op) && TableRuns.Harmless(b, op)
    ensures FollowsBy(b, TableRuns.Step(b, op), [op])
  {
    hide Good; hide TableRuns.Possible; hide TableRuns.Harmless; hide TableRuns.Step;
    TableRuns.StepKeepsGoodIff(b, op);
    assert [op][0] == op && [op][1..] == [];
    assert TableRuns.HarmlessRun(TableRuns.Step(b, op), []);
    assert TableRuns.Run(TableRuns.Step(b, op), []) == TableRuns.Step(b, op);
  }

  lemma TwoSteps(b: Board, op: TableRuns.TableOp, next: TableRuns.TableOp)
    requires Good(b) && TableRuns.Possible(b, op) && TableRuns.Harmless(b, op)
    requires Good(TableRuns.Step(b, op))
    requires TableRuns.Possible(TableRuns.Step(b, op), next) && TableRuns.Harmless(TableRuns.Step(b, op), next)
    ensures FollowsBy(b, TableRuns.Step(TableRuns.Step(b, op), next), [op, next])
  {
    hide Good; hide TableRuns.Possible; hide TableRuns.Harmless; hide TableRuns.Step;
    OneStep(TableRuns.Step(b, op), next);
    assert [op, next][0] == op && [op, next][1..] == [next];
  }

  /** What happens elsewhere is one of the table's steps. */
  lemma UntouchedFollows(w: World, v: World, p: Place)
    requires TableGood(w, p) && LeftAlone(w.game, v.game, p) && p in v.tables && v.tables[p] == w.tables[p]
    ensures TableFollows(w, v, p)
  {
    hide Consistent; hide AllSettled; hide AllAlone;
    var b := BoardOf(w.game, p, w.tables[p]);
    assert Elsewhere(b, v.game.heap);
    OneStep(b, TableRuns.Others(v.game.heap));
    assert FollowsBy(b, BoardOf(v.game, p, v.tables[p]), [TableRuns.Others(v.game.heap)]);
  }

  lemma AllLeftAloneFollows(w: World, t: State)
    requires TablesGood(w) && AllLeftAlone(w.game, t)
    ensures Follows(w, World(t, w.tables))
  {
    hide Good; hide LeftAlone; hide TableFollows;
    forall p | p in t.zones && HasCoords(p.zone)
      ensures p in w.game.zones && TableFollows(w, World(t, w.tables), p)
    {
      assert LeftAlone(w.game, t, p);
      UntouchedFollows(w, World(t, w.tables), p);
    }
  }

  // ------------------------------------------------------------------ commands that leave all tables alone

  lemma SameCardsUntouched(s: State, t: State)
    requires forall p :: p in t.zones && HasCoords(p.zone) ==> p in s.zones
    requires forall p :: p in s.zones && HasCoords(p.zone) ==> p in t.zones && t.zones[p] == s.zones[p]
    requires Placed(s, NoCard)
    requires forall c :: c in s.heap && OnTable(s, c, NoCard) ==> c in t.heap && SameOnTable(s.heap[c], t.heap[c])
    ensures AllLeftAlone(s, t)
  {
    forall p | p in s.zones && HasCoords(p.zone)
      ensures LeftAlone(s, t, p)
    {
    }
  }

  /** A card that goes from list to list changes, and its two lists; the tables are not concerned. */
  lemma ListMoveOne(
    s: State, player: int, start: Place, target: Place, c: CardRef, x: int, y: int, wanted: Option<bool>, undoing: bool,
    grid: Movement.Grid)
    requires Inv(s, NoCard) && player in s.players && Movable(s, c, start, target) && c in s.zones[start]
    requires !HasCoords(start.zone) && !HasCoords(target.zone)
    ensures AllLeftAlone(s, MoveOne(s, player, start, target, c, x, y, wanted, undoing, grid))
  {
    hide Inv; hide MoveOne; hide OthersStay; hide MovedOne; hide LandedAt; hide GoneFrom; hide FaceAfter;
    FreeOutsideTables(s, c, start);
    MovedExactly(s, player, start, target, c, x, y, wanted, undoing, grid);
    var t := MoveOne(s, player, start, target, c, x, y, wanted, undoing, grid);
    if Vanishes(s, c, start, target) {
      GoneUntouched(s, t, start, c);
    } else {
      LandedUntouched(s, t, start, target, c, x, grid.column(c), y, FaceAfter(s, c, target, wanted));
    }
  }

  lemma GoneUntouched(s: State, t: State, start: Place, c: CardRef)
    requires Inv(s, NoCard) && !HasCoords(start.zone) && GoneFrom(s, t, start, c)
    ensures AllLeftAlone(s, t)
  {
    hide Ids; hide Forest; hide Arrows; hide Without;
    SameCardsUntouched(s, t);
  }

  lemma LandedUntouched(
    s: State, t: State, start: Place, target: Place, c: CardRef, index: int, column: int, y: int, faceDown: bool)
    requires Inv(s, NoCard) && !HasCoords(start.zone) && !HasCoords(target.zone)
    requires LandedAt(s, t, start, target, c, index, column, y, faceDown)
    ensures AllLeftAlone(s, t)
  {
    hide Ids; hide Forest; hide Arrows; hide Without; hide InsertAt; hide AllLeftAlone;
    SameCardsUntouched(s, t);
  }

  lemma {:induction false} ListMoveLoop(
    s: State, player: int, start: Place, target: Place, ms: seq<Selected>, x: int, y: int, undoing: bool, grid: Movement.Grid)
    requires Inv(s, NoCard) && player in s.players && AllMovable(s, ms, start, target)
    requires !HasCoords(start.zone) && !HasCoords(target.zone)
    ensures AllLeftAlone(s, MoveLoop(s, player, start, target, ms, x, y, undoing, grid))
    decreases |ms|
  {
    hide Inv; hide OthersStay; hide MovedOne; hide Conserved; hide MoveOne; hide CardsOf; hide LeftAlone;
    if ms == [] {
      Unchanged(s);
    } else {
      assert Movable(s, ms[0].card, start, target);
      var c := ms[0].card;
      InItsZone(s, c, NoCard);
      ListMoveOne(s, player, start, target, c, x, y, ms[0].faceDown, undoing, grid);
      var t := MoveOne(s, player, start, target, c, x, y, ms[0].faceDown, undoing, grid);
      RestMovable(s, t, ms, start, target);
      StayPlayers(s, t, player, {c});
      var next := if Vanishes(s, c, start, target) then x else x + 1;
      ListMoveLoop(t, player, start, target, ms[1..], next, y, undoing, grid);
      UntouchedThen(s, t, MoveLoop(t, player, start, target, ms[1..], next, y, undoing, grid));
    }
  }

  lemma Unchanged(s: State)
    requires Inv(s, NoCard)
    ensures AllLeftAlone(s, s)
  {
    hide Ids; hide Forest; hide Arrows;
    SameCardsUntouched(s, s);
  }

  lemma ListMoveCards(
    s: State, player: int, start: Place, target: Place, reqs: seq<MoveRequest>, x: int, y: int, fix: bool, undoing: bool,
    grid: Movement.Grid)
    requires Inv(s, NoCard) && player in s.players && start in s.zones && target in s.zones
    requires !HasCoords(start.zone) && !HasCoords(target.zone)
    ensures AllLeftAlone(s, MoveCards(s, player, start, target, reqs, x, y, fix, undoing, grid).0)
  {
    hide Inv; hide OthersStay; hide Conserved; hide MoveLoop; hide Select; hide Sorted; hide SelectionOk; hide CardsOf;
    hide AllLeftAlone;
    Unchanged(s);
    ZonesKnown(s, start, NoCard);
    SelectSelects(s, start, target, reqs, {}, grid.columnEmpty);
    var selected := Select(s, start, target, reqs, {}, grid.columnEmpty);
    if selected.Ok? && selected.value != [] {
      SelectionKnown(s, start, selected.value);
      var ms := Sorted(s, selected.value);
      SelectionMovable(s, start, target, selected.value, ms);
      ListMoveLoop(s, player, start, target, ms, if x <= -1 then |s.zones[target]| else x, y, undoing, grid);
    }
  }

  /** Commands that concern no table: list to list, links of arrows, faces, seats. */
  predicate Quiet(cmd: Command)
  {
    || cmd.DoDraw? || cmd.DoUndo? || cmd.DoMulligan? || cmd.DoShuffle? || cmd.DoFlip? || cmd.DoArrow? || cmd.DoDeleteArrow?
    || cmd.DoPhase? || cmd.DoJoin? || cmd.DoStop?
    || (cmd.DoMove? && !HasCoords(cmd.start.zone) && !HasCoords(cmd.target.zone))
  }

  lemma SameListsUntouched(s: State, t: State)
    requires Inv(s, NoCard) && t.heap == s.heap
    requires forall p :: p in t.zones && HasCoords(p.zone) ==> p in s.zones
    requires forall p :: p in s.zones && HasCoords(p.zone) ==> p in t.zones && t.zones[p] == s.zones[p]
    ensures AllLeftAlone(s, t)
  {
    hide Ids; hide Forest; hide Arrows;
    SameCardsUntouched(s, t);
  }

  /** A draw changes one card, of the deck, and no table's list. */
  lemma DrawOneShape(s: State, p: int)
    requires p in s.players && Place(p, Deck) in s.zones && Place(p, Hand) in s.zones
    requires s.zones[Place(p, Deck)] != [] && s.zones[Place(p, Deck)][0] in s.heap
    ensures OneChanged(s, DrawOne(s, p), s.zones[Place(p, Deck)][0])
  {
  }

  ghost predicate OneChanged(s: State, t: State, c: CardRef)
  {
    && t.heap.Keys == s.heap.Keys && (forall d :: d in s.heap && d != c ==> t.heap[d] == s.heap[d])
    && t.zones.Keys == s.zones.Keys && forall q :: q in s.zones && HasCoords(q.zone) ==> t.zones[q] == s.zones[q]
  }

  lemma OneChangedUntouched(s: State, t: State, c: CardRef, from: Place)
    requires Inv(s, NoCard) && OneChanged(s, t, c) && from in s.zones && c in s.zones[from] && !HasCoords(from.zone)
    ensures AllLeftAlone(s, t)
  {
    ZonesKnown(s, from, NoCard);
    hide Placed; hide Ids; hide Forest; hide Arrows;
    SameCardsUntouched(s, t);
  }

  lemma {:induction false} DrawUntouched(s: State, p: int, number: int)
    requires GameOk(s) && Active(s, p)
    ensures AllLeftAlone(s, DrawCards(s, p, number))
    decreases number
  {
    hide Inv; hide Seats; hide Tidy; hide DrawOne; hide SamePopulation; hide AllLeftAlone; hide OneChanged;
    NotRefused(s, p);
    Unchanged(s);
    if number > 0 && s.zones[Place(p, Deck)] != [] {
      DrawOneIsTransfer(s, p);
      DrawOneSeats(s, p);
      DrawOneShape(s, p);
      OneChangedUntouched(s, DrawOne(s, p), s.zones[Place(p, Deck)][0], Place(p, Deck));
      var s1 := DrawOne(s, p);
      DrawUntouched(s1, p, number - 1);
      UntouchedThen(s, s1, DrawCards(s1, p, number - 1));
    }
  }

  lemma UndoUntouched(s: State, p: int, grid: Movement.Grid)
    requires GameOk(s) && Active(s, p)
    ensures AllLeftAlone(s, UndoDraw(s, p, grid).0)
  {
    hide Inv; hide Seats; hide Tidy; hide MoveCards; hide Conserved; hide AllLeftAlone;
    Unchanged(s);
    NotRefused(s, p);
    var list := s.players[p].lastDraw;
    if list != [] {
      PopKeeps(s, p, list[..|list| - 1]);
      var t := WithLastDraw(s, p, list[..|list| - 1]);
      SameListsUntouched(s, t);
      ListMoveCards(t, p, Place(p, Hand), Place(p, Deck), [MoveRequest(list[|list| - 1], None)], 0, 0, false, true, grid);
      UntouchedThen(s, t, UndoDraw(s, p, grid).0);
    }
  }

  lemma MulliganUntouched(s: State, p: int, number: int, order: seq<CardRef>, grid: Movement.Grid)
    requires GameOk(s) && Active(s, p)
    requires multiset(order) == multiset(HandUnderDeck(s, p, grid).zones[Place(p, Deck)])
    ensures AllLeftAlone(s, Mulligan(s, p, number, order, grid))
  {
    hide Inv; hide Seats; hide Tidy; hide HandUnderDeck; hide AllLeftAlone;
    var s1 := HandUnderDeck(s, p, grid);
    HandUntouched(s, p, grid);
    ReorderKeeps(s1, Place(p, Deck), order);
    var s2 := Reorder(s1, Place(p, Deck), order);
    SameListsUntouched(s1, s2);
    UntouchedThen(s, s1, s2);
    DrawUntouched(s2, p, number);
    UntouchedThen(s, s2, DrawCards(s2, p, number));
  }

  lemma HandUntouched(s: State, p: int, grid: Movement.Grid)
    requires GameOk(s) && Active(s, p)
    ensures AllLeftAlone(s, HandUnderDeck(s, p, grid))
  {
    hide Inv; hide Seats; hide Tidy; hide MoveCards; hide Conserved; hide AllLeftAlone;
    Unchanged(s);
    NotRefused(s, p);
    ZonesKnown(s, Place(p, Hand), NoCard);
    if s.zones[Place(p, Hand)] != [] {
      ListMoveCards(s, p, Place(p, Hand), Place(p, Deck), WholeHand(s.heap, s.zones[Place(p, Hand)]), -1, 0, false, false, grid);
    }
  }

  lemma FlipUntouched(s: State, c: CardRef, faceDown: bool)
    requires Inv(s, NoCard) && c in s.heap
    ensures AllLeftAlone(s, Flip(s, c, faceDown))
  {
    hide Ids; hide Forest; hide Arrows;
    SameCardsUntouched(s, Flip(s, c, faceDown));
  }

  lemma StopUntouched(s: State)
    requires Inv(s, NoCard)
    ensures StopGame(s).zones == map[]
  {
  }

  lemma MovesUntouched(s: State, cmd: Command)
    requires GameOk(s) && Allowed(s, cmd) && Quiet(cmd) && !AboutSeats(cmd) && !AboutLinks(cmd)
    ensures AllLeftAlone(s, ExecMoves(s, cmd))
  {
    hide Inv; hide Seats; hide Tidy; hide MoveBetween; hide MoveCards; hide HandUnderDeck; hide DrawCards; hide UndoDraw; hide Mulligan;
    hide AllLeftAlone;
    match cmd
    case DoDraw(p, n) => DrawUntouched(s, p, n);
    case DoUndo(p, grid) => UndoUntouched(s, p, grid);
    case DoMulligan(p, n, order, grid) => MulliganUntouched(s, p, n, order, grid);
    case DoShuffle(p, order) =>
      NotRefused(s, p);
      SameListsUntouched(s, Reorder(s, Place(p, Deck), order));
    case DoMove(p, start, target, reqs, x, y, _, grid) => BetweenUntouched(s, p, start, target, reqs, x, y, grid);
  }

  lemma BetweenUntouched(
    s: State, p: int, start: Place, target: Place, reqs: seq<MoveRequest>, x: int, y: int, grid: Movement.Grid)
    requires GameOk(s) && Active(s, p) && start in s.zones && target in s.zones
    requires !HasCoords(start.zone) && !HasCoords(target.zone)
    ensures AllLeftAlone(s, MoveBetween(s, p, start, target, reqs, x, y, true, false, grid).0)
  {
    hide Inv; hide Seats; hide Tidy; hide MoveCards; hide AllLeftAlone;
    ListMoveCards(s, p, start, target, reqs, x, y, true, false, grid);
  }

  lemma LinksUntouched(s: State, cmd: Command)
    requires GameOk(s) && Allowed(s, cmd) && Quiet(cmd) && AboutLinks(cmd)
    ensures AllLeftAlone(s, ExecLinks(s, cmd))
  {
    hide Inv; hide Seats; hide Tidy; hide CreateArrow; hide DeleteArrow; hide PlanAttach; hide TokenPlanOk; hide PlanOk; hide Flip;
    hide AllLeftAlone;
    match cmd
    case DoFlip(p, c, faceDown) => FlipUntouched(s, c, faceDown);
    case DoArrow(p, from, id, end) => SameListsUntouched(s, CreateArrow(s, p, from, id, end).0);
    case DoDeleteArrow(p, arrow) => SameListsUntouched(s, DeleteArrow(s, p, arrow).0);
  }

  lemma SeatsUntouched(s: State, cmd: Command)
    requires GameOk(s) && Allowed(s, cmd) && (cmd.DoPhase? || cmd.DoJoin?)
    ensures AllLeftAlone(s, ExecSeats(s, cmd))
  {
    hide Inv; hide Seats; hide Tidy; hide AllLeftAlone;
    if cmd.DoPhase? {
      SameListsUntouched(s, ClearArrows(s));
    } else {
      SameListsUntouched(s, Join(s, cmd.player, cmd.spectator, cmd.judge));
    }
  }

  lemma NoTablesFollow(w: World, v: World)
    requires TablesGood(w) && v.game.zones == map[]
    ensures Follows(w, v)
  {
  }

  lemma NoTablesLeft(s: State, cmd: Command)
    requires GameOk(s) && Allowed(s, cmd) && cmd.DoStop?
    ensures Exec(s, cmd).zones == map[]
  {
    hide Inv; hide Seats; hide Tidy;
  }

  // ------------------------------------------------------------------ a card moved on its table

  /** Moving cards on one table leaves all cards elsewhere as they are. */
  ghost predicate OthersAsWere(b: Board, u: Board)
  {
    u.heap.Keys == b.heap.Keys && multiset(u.cards) == multiset(b.cards)
    && forall d :: d in b.heap && d !in b.cards ==> u.heap[d] == b.heap[d]
  }

  lemma OthersAsWereThen(b: Board, u: Board, v: Board)
    requires OthersAsWere(b, u) && OthersAsWere(u, v)
    ensures OthersAsWere(b, v)
  {
    assert forall d :: d in u.cards <==> d in multiset(u.cards);
    assert forall d :: d in b.cards <==> d in multiset(b.cards);
  }

  lemma MovedOnOthers(b: Board, c: CardRef, x: int, y: int, faceDown: bool)
    requires Consistent(b) && c in b.cards && c in b.heap
    ensures OthersAsWere(b, MovedOn(b, c, x, y, faceDown))
  {
    if PassedOver(b.At(y).cells, b.heap[c], x) {
      MovedOnPassedOver(b, c, x, y, faceDown);
    } else {
      MovedOnShape(b, c, x, y, faceDown);
      TakenOffShape(b, c);
      hide Consistent; hide MovedOn; hide Without; hide TakenOff; hide PassedOver;
    }
  }

  lemma SlotOthers(b: Board, y: int, from: int, to: int)
    requires Consistent(b) && from in b.At(y).cells && to >= 0
    ensures Consistent(SlotMoved(b, y, from, to)) && OthersAsWere(b, SlotMoved(b, y, from, to))
  {
    hide Consistent; hide MovedOn; hide OthersAsWere; hide MoveInRow;
    TileOwner(b, y, from);
    SlotMovedRow(b, y, from, to);
    MovedOnOthers(b, b.At(y).cells[from].card, to, y, b.heap[b.At(y).cells[from].card].faceDown);
  }

  lemma PlaceOthers(b: Board, spot: (int, int))
    requires Consistent(b)
    ensures OthersAsWere(b, PlaceFixed(b, spot))
  {
    hide Consistent; hide SlotMoved; hide OthersAsWere;
    var (x, y) := spot;
    SameOthers(b);
    if x >= 0 {
      if x !in b.At(y).cells && x + 1 !in b.At(y).cells {
        if x + 2 in b.At(y).cells {
          SlotOthers(b, y, x + 2, x);
        }
      } else if x !in b.At(y).cells {
        SlotOthers(b, y, x + 1, x);
        var u := SlotMoved(b, y, x + 1, x);
        SecondOthers(u, x, y);
        OthersAsWereThen(b, u, SecondFixed(u, x, y));
      } else {
        SecondOthers(b, x, y);
      }
    }
  }

  lemma SameOthers(b: Board)
    ensures OthersAsWere(b, b)
  {
  }

  lemma SecondOthers(b: Board, x: int, y: int)
    requires Consistent(b) && x >= 0
    ensures OthersAsWere(b, SecondFixed(b, x, y))
  {
    hide Consistent; hide SlotMoved; hide OthersAsWere;
    SameOthers(b);
    if x + 1 !in b.At(y).cells && x + 2 in b.At(y).cells {
      SlotOthers(b, y, x + 2, x + 1);
    }
  }

  lemma {:induction false} AllFixedOthers(b: Board, places: seq<(int, int)>)
    requires Consistent(b) && TableZone.Threes(places)
    ensures OthersAsWere(b, AllFixed(b, places))
    decreases |places|
  {
    hide Consistent; hide PlaceFixed; hide OthersAsWere; hide RowReplaced;
    SameOthers(b);
    if places != [] {
      assert places[0] in places;
      PlaceOthers(b, places[0]);
      PlaceFixedConsistent(b, places[0]);
      AllFixedOthers(PlaceFixed(b, places[0]), places[1..]);
      OthersAsWereThen(b, PlaceFixed(b, places[0]), AllFixed(PlaceFixed(b, places[0]), places[1..]));
    }
  }

  lemma ShiftedOthers(b: Board, c: CardRef, x: int, y: int, faceDown: bool, places: seq<(int, int)>)
    requires Consistent(b) && c in b.cards && c in b.heap
    requires Consistent(MovedOn(b, c, x, y, faceDown)) && Threes(places)
    ensures OthersAsWere(b, Shifted(b, c, x, y, faceDown, places)) && Shifted(b, c, x, y, faceDown, places).place == b.place
  {
    hide Consistent; hide MovedOn; hide AllFixed; hide OthersAsWere;
    SameOthers(b);
    if !PassedOver(b.At(y).cells, b.heap[c], x) {
      var t := MovedOn(b, c, x, y, faceDown);
      MovedOnOthers(b, c, x, y, faceDown);
      MovedOnShape(b, c, x, y, faceDown);
      AllFixedOthers(t, places);
      AllFixedCompacts(t, places);
      OthersAsWereThen(b, t, AllFixed(t, places));
    }
  }

  /** What happens to the cards of one table alone leaves every other table untouched. */
  lemma OtherTablesUntouched(s: State, p: Place, b: Board, u: Board, q: Place)
    requires Inv(s, NoCard) && p in s.zones && b.heap == s.heap && b.cards == s.zones[p] && u.place == p
    requires OthersAsWere(b, u) && q in s.zones && q != p
    ensures LeftAlone(s, WithBoard(s, u), q)
  {
    hide Ids; hide Forest; hide Arrows;
  }

  /** A step of table p that leaves the others alone. */
  lemma OneTableFollows(w: World, t: State, p: Place, ix: Indexes, ops: seq<TableRuns.TableOp>)
    requires TablesGood(w) && p in w.game.zones && HasCoords(p.zone) && p in t.zones && TableGood(w, p)
    requires FollowsBy(BoardOf(w.game, p, w.tables[p]), BoardOf(t, p, ix), ops)
    requires forall q :: q in t.zones && HasCoords(q.zone) ==> q in w.game.zones
    requires forall q :: q in w.game.zones && HasCoords(q.zone) && q != p ==> LeftAlone(w.game, t, q)
    ensures Follows(w, World(t, w.tables[p := ix]))
  {
    hide Good; hide LeftAlone; hide FollowsBy; hide TableFollows;
    var v := World(t, w.tables[p := ix]);
    forall q | q in t.zones && HasCoords(q.zone)
      ensures q in w.game.zones && TableFollows(w, v, q)
    {
      if q != p {
        UntouchedFollows(w, v, q);
      } else {
        ThisTableFollows(w, v, p, ops);
      }
    }
  }

  lemma ThisTableFollows(w: World, v: World, p: Place, ops: seq<TableRuns.TableOp>)
    requires TableGood(w, p) && p in v.game.zones && p in v.tables
    requires FollowsBy(BoardOf(w.game, p, w.tables[p]), BoardOf(v.game, p, v.tables[p]), ops)
    ensures TableFollows(w, v, p)
  {
  }

  /** The server carries the command out with these answers of the indexes, and every table follows. */
  ghost predicate Played(w: World, cmd: Command, v: World)
  {
    TablesGood(w) && GameOk(w.game) && Allowed(w.game, cmd) && v.game == Exec(w.game, cmd) && Follows(w, v)
  }

  /** The player may move cards between these zones of a game whose tables are good. */
  ghost predicate MayMove(w: World, player: int, start: Place, target: Place, mayTouch: bool)
  {
    && TablesGood(w) && GameOk(w.game) && Active(w.game, player) && start in w.game.zones && target in w.game.zones
    && MoveRefusal(w.game, player, start, target, mayTouch).None?
  }

  lemma MayMoveMeans(w: World, player: int, start: Place, target: Place, mayTouch: bool)
    requires MayMove(w, player, start, target, mayTouch)
    ensures TablesGood(w) && Inv(w.game, NoCard) && player in w.game.players && start in w.game.zones && target in w.game.zones
  {
    hide Inv; hide TablesGood;
  }

  /** moveCard between zones that the player may move cards between is the command. */
  lemma MovePlayed(
    w: World, player: int, start: Place, target: Place, reqs: seq<MoveRequest>, x: int, y: int, mayTouch: bool,
    grid: Movement.Grid, v: World)
    requires MayMove(w, player, start, target, mayTouch) && Inv(w.game, NoCard)
    requires v.game == MoveCards(w.game, player, start, target, reqs, x, y, true, false, grid).0
    requires TablesGood(w) && Follows(w, v)
    ensures Played(w, DoMove(player, start, target, reqs, x, y, mayTouch, grid), v)
  {
    hide Inv; hide Seats; hide Tidy; hide MoveCards; hide TablesGood; hide Follows;
  }

  /**
   moveCard for one card of a table onto the same table: with the column and the compaction that the
   table's indexes answer with, the command is one shift of that table, and the other tables stay.
   */
  lemma ShiftPlayed(
    w: World, player: int, p: Place, req: MoveRequest, c: CardRef, x: int, y: int, mayTouch: bool, places: seq<(int, int)>)
    returns (grid: Movement.Grid, v: World)
    requires MayMove(w, player, p, p, mayTouch) && HasCoords(p.zone) && Asked(w.game, p, req, c) && c in w.game.heap
    requires TableGood(w, p)
    requires var op := TableRuns.Shift(c, x, y, FaceAfter(w.game, c, p, req.faceDown), places);
             var b := BoardOf(w.game, p, w.tables[p]);
             TableRuns.Possible(b, op) && TableRuns.Harmless(b, op)
    ensures Played(w, DoMove(player, p, p, [req], x, y, mayTouch, grid), v)
  {
    hide Inv; hide MayMove; hide Played; hide Good; hide TablesGood; hide Consistent; hide MovedOn; hide MoveCards; hide Shifted;
    hide FaceAfter; hide Asked; hide OthersAsWere; hide LeftAlone; hide FollowsBy; hide Follows; hide TableRuns.Harmless;
    MayMoveMeans(w, player, p, p, mayTouch);
    var s, ix := w.game, w.tables[p];
    var b, face := BoardOf(s, p, ix), FaceAfter(s, c, p, req.faceDown);
    var op := TableRuns.Shift(c, x, y, face, places);
    ShiftKnown(b, c, x, y, face, places);
    grid := ShiftAnswered(s, player, p, ix, req, c, x, y, false, places);
    var u := Shifted(b, c, x, y, face, places);
    ShiftedOthers(b, c, x, y, face, places);
    v := World(WithBoard(s, u), w.tables[p := u.indexes]);
    OneStep(b, op);
    assert BoardOf(v.game, p, u.indexes) == u;
    forall q | q in s.zones && HasCoords(q.zone) && q != p
      ensures LeftAlone(s, v.game, q)
    {
      OtherTablesUntouched(s, p, b, u, q);
    }
    OneTableFollows(w, v.game, p, u.indexes, [op]);
    MovePlayed(w, player, p, p, [req], x, y, mayTouch, grid, v);
  }

  lemma ShiftKnown(b: Board, c: CardRef, x: int, y: int, face: bool, places: seq<(int, int)>)
    requires Good(b) && TableRuns.Possible(b, TableRuns.Shift(c, x, y, face, places))
    ensures Consistent(b) && c in b.cards && c in b.heap && b.heap[c].parent.None? && Threes(places)
    ensures Consistent(MovedOn(b, c, x, y, face))
    ensures TableRuns.Step(b, TableRuns.Shift(c, x, y, face, places)) == Shifted(b, c, x, y, face, places)
  {
    hide AllSettled; hide AllAlone; hide MovedOn; hide Shifted; hide Consistent;
    ShiftConsistent(b, c, x, y, face);
    ConsistentGood(b);
  }

  lemma ConsistentGood(b: Board)
    requires Good(b)
    ensures Consistent(b)
  {
  }

  // ------------------------------------------------------------------ a card played to a table

  lemma ArrivesThenElse(b: Board, c: CardRef, x: int, y: int, face: bool, heap: Heap, id: int)
    requires Good(b) && c in b.heap && c !in b.cards && b.heap[c].parent.None? && b.heap[c].attached == []
    requires CardsKnown(b.At(y).cells, b.heap) && b.At(y).space % 3 == 0
    requires c in heap && heap == Arrived(b, c, x, y, face).heap[c := Arrived(b, c, x, y, face).heap[c].(id := id)]
    ensures FollowsBy(b, Arrived(b, c, x, y, face).(heap := heap), [TableRuns.Arrive(c, x, y, face), TableRuns.Others(heap)])
  {
    hide FreeColumn; hide Consistent; hide AllSettled; hide AllAlone; hide Arrived; hide JoinsOthers;
    ArrivedGoodIff(b, c, x, y, face);
    ArrivedRows(b, c, x, y, face);
    var u := Arrived(b, c, x, y, face);
    OnlyIdElsewhere(u, c, heap, id);
    hide Good;
    TwoSteps(b, TableRuns.Arrive(c, x, y, face), TableRuns.Others(heap));
  }

  lemma OnlyIdElsewhere(u: Board, c: CardRef, heap: Heap, id: int)
    requires c in u.heap && heap == u.heap[c := u.heap[c].(id := id)]
    ensures Elsewhere(u, heap)
  {
  }

  /** A card that lands on one table was on no table: all others stay. */
  lemma LandedElsewhere(
    s: State, t: State, start: Place, target: Place, c: CardRef, index: int, column: int, y: int, faceDown: bool, q: Place)
    requires Inv(s, NoCard) && LandedAt(s, t, start, target, c, index, column, y, faceDown)
    requires q in s.zones && q != start && q != target
    ensures LeftAlone(s, t, q)
  {
    hide Ids; hide Forest; hide Arrows; hide Without; hide InsertAt;
  }

  /**
   moveCard for one card from a list to a table: with the column the table's indexes answer with, the
   command is an arrival on that table - or, for a token, nothing that concerns a table.
   */
  lemma PlayPlayed(w: World, player: int, start: Place, p: Place, req: MoveRequest, c: CardRef, x: int, y: int, mayTouch: bool)
    returns (grid: Movement.Grid, v: World)
    requires MayMove(w, player, start, p, mayTouch) && HasCoords(p.zone) && !HasCoords(start.zone)
    requires Asked(w.game, start, req, c)
    ensures Played(w, DoMove(player, start, p, [req], x, y, mayTouch, grid), v)
  {
    hide Inv; hide MayMove; hide Played; hide Good; hide Consistent; hide MoveCards; hide MoveOne; hide OthersStay; hide MovedOne;
    hide FaceAfter; hide LeftAlone; hide FollowsBy; hide Follows; hide LandedAt; hide GoneFrom; hide Conserved; hide FreeColumn;
    hide Arrived; hide AllLeftAlone;
    MayMoveMeans(w, player, start, p, mayTouch);
    var s, ix := w.game, w.tables[p];
    var b := BoardOf(s, p, ix);
    assert TableGood(w, p);
    AskedIsThere(s, start, req, c);
    FreeOutsideTables(s, c, start);
    NotOnOther(s, start, p, c);
    var face := FaceAfter(s, c, p, req.faceDown);
    ConsistentGood(b);
    RowKnown(b, y);
    SpaceAligned(b, y);
    var column := AnsweredColumn(b, x, y, s.heap[c].name, face);
    grid := Movement.Grid(ColumnEmpty(b.At(y).cells, x), false, d => column, d => [], []);
    OneSent(s, player, start, p, req, c, x, y, true, false, grid);
    MovedExactly(s, player, start, p, c, x, y, req.faceDown, false, grid);
    var t := MoveOne(s, player, start, p, c, x, y, req.faceDown, false, grid);
    if Vanishes(s, c, start, p) {
      GoneUntouched(s, t, start, c);
      v := World(t, w.tables);
      AllLeftAloneFollows(w, t);
    } else {
      var u := Arrived(b, c, x, y, face);
      LandedIsArrived(s, t, start, p, ix, c, x, y, face);
      ArrivesThenElse(b, c, x, y, face, t.heap, t.heap[c].id);
      v := World(t, w.tables[p := u.indexes]);
      forall q | q in s.zones && HasCoords(q.zone) && q != p
        ensures LeftAlone(s, t, q)
      {
        LandedElsewhere(s, t, start, p, c, x, column, y, face, q);
      }
      OneTableFollows(w, t, p, u.indexes, [TableRuns.Arrive(c, x, y, face), TableRuns.Others(t.heap)]);
    }
    MovePlayed(w, player, start, p, [req], x, y, mayTouch, grid, v);
  }

  lemma AskedIsThere(s: State, start: Place, req: MoveRequest, c: CardRef)
    requires Asked(s, start, req, c)
    ensures c in s.zones[start] && c in s.heap && s.heap[c].zone == Some(start)
  {
  }

  lemma NotOnOther(s: State, start: Place, p: Place, c: CardRef)
    requires Inv(s, NoCard) && start in s.zones && p in s.zones && start != p && c in s.zones[start]
    ensures c !in s.zones[p]
  {
    ZonesKnown(s, p, NoCard);
    ZonesKnown(s, start, NoCard);
    hide Inv;
  }

  lemma AnsweredColumn(b: Board, x: int, y: int, name: string, face: bool) returns (column: nat)
    requires Good(b) && CardsKnown(b.At(y).cells, b.heap)
    ensures column == FreeColumn(b.At(y), b.heap, x, name, face)
  {
    hide FreeColumn; hide Indexed; hide Consistent; hide AllAlone;
    assert Settled(b.At(y));
    FreeColumnUnused(b.At(y), b.heap, x, name, face);
    column := FreeColumn(b.At(y), b.heap, x, name, face);
  }

  /** The landing is the arrival of the table model, up to the card's new id. */
  lemma LandedIsArrived(s: State, t: State, start: Place, p: Place, ix: Indexes, c: CardRef, x: int, y: int, face: bool)
    requires p in s.zones && HasCoords(p.zone) && start != p
    requires CardsKnown(BoardOf(s, p, ix).At(y).cells, s.heap) && BoardOf(s, p, ix).At(y).space % 3 == 0 && c in s.heap
    requires LandedAt(s, t, start, p, c, x, FreeColumn(BoardOf(s, p, ix).At(y), s.heap, x, s.heap[c].name, face), y, face)
    ensures var u := Arrived(BoardOf(s, p, ix), c, x, y, face);
            && c in t.heap && c in u.heap && p in t.zones
            && t.heap == u.heap[c := u.heap[c].(id := t.heap[c].id)]
            && BoardOf(t, p, u.indexes) == u.(heap := t.heap)
    ensures t.zones.Keys == s.zones.Keys
  {
    hide FreeColumn; hide Without;
    ArrivedRows(BoardOf(s, p, ix), c, x, y, face);
  }

  // ------------------------------------------------------------------ a card that leaves its table

  /** The same table, whatever cards elsewhere are like. */
  ghost predicate Alike(a: Board, b: Board)
  {
    && b.place == a.place && b.cards == a.cards && b.indexes == a.indexes
    && forall c :: c in a.cards ==> c in a.heap && c in b.heap && b.heap[c] == a.heap[c]
  }

  lemma AlikeConsistent(a: Board, b: Board)
    requires Consistent(a) && Alike(a, b)
    ensures Consistent(b)
  {
  }

  lemma SameCardsSameColumn(a: Heap, b: Heap, row: Row, x: int, name: string, dontStack: bool)
    requires CardsKnown(row.cells, a)
    requires forall k :: k in row.cells ==> row.cells[k].card in b && b[row.cells[k].card] == a[row.cells[k].card]
    ensures CardsKnown(row.cells, b) && FreeColumn(row, a, x, name, dontStack) == FreeColumn(row, b, x, name, dontStack)
  {
  }

  lemma TakenOffAlike(a: Board, b: Board, c: CardRef)
    requires Consistent(a) && Alike(a, b) && c in a.cards
    ensures c in a.heap && c in b.heap && Consistent(TakenOff(a, c)) && Consistent(TakenOff(b, c))
    ensures Alike(TakenOff(a, c), TakenOff(b, c))
  {
    AlikeConsistent(a, b);
    TakenOffConsistent(a, c);
    TakenOffConsistent(b, c);
    hide Remove;
    ListedOnce(a);
    WithoutFacts(a.cards, c);
    hide Consistent; hide Distinct; hide Without;
  }

  lemma ArrivedAlike(a: Board, b: Board, c: CardRef, x: int, y: int, faceDown: bool)
    requires Consistent(a) && Consistent(b) && Alike(a, b) && c in a.heap && c in b.heap
    requires b.heap[c] == a.heap[c]
    ensures CardsKnown(a.At(y).cells, a.heap) && a.At(y).space % 3 == 0
    ensures CardsKnown(b.At(y).cells, b.heap) && b.At(y).space % 3 == 0
    ensures Alike(Arrived(a, c, x, y, faceDown), Arrived(b, c, x, y, faceDown))
  {
    RowKnown(a, y);
    RowKnown(b, y);
    SpaceAligned(a, y);
    SpaceAligned(b, y);
    forall k | k in a.At(y).cells
      ensures a.At(y).cells[k].card in b.heap && b.heap[a.At(y).cells[k].card] == a.heap[a.At(y).cells[k].card]
    {
      TileOwner(a, y, k);
    }
    SameCardsSameColumn(a.heap, b.heap, a.At(y), x, a.heap[c].name, faceDown);
    hide FreeColumn; hide Insert; hide Consistent;
  }

  lemma MovedOnAlike(a: Board, b: Board, c: CardRef, x: int, y: int, faceDown: bool)
    requires Consistent(a) && Consistent(b) && Alike(a, b) && c in a.cards
    ensures Alike(MovedOn(a, c, x, y, faceDown), MovedOn(b, c, x, y, faceDown))
  {
    hide Consistent; hide TakenOff; hide Arrived; hide FreeColumn;
    TakenOffAlike(a, b, c);
    TakenOffShape(a, c);
    TakenOffShape(b, c);
    if !PassedOver(a.At(y).cells, a.heap[c], x) {
      ArrivedAlike(TakenOff(a, c), TakenOff(b, c), c, x, y, faceDown);
      MovedOnIs(a, c, x, y, faceDown);
      MovedOnIs(b, c, x, y, faceDown);
    } else {
      MovedOnPassedOver(a, c, x, y, faceDown);
      MovedOnPassedOver(b, c, x, y, faceDown);
    }
  }

  lemma SlotAlike(a: Board, b: Board, y: int, from: int, to: int)
    requires Consistent(a) && Consistent(b) && Alike(a, b) && from in a.At(y).cells && to >= 0
    ensures Alike(SlotMoved(a, y, from, to), SlotMoved(b, y, from, to))
    ensures Consistent(SlotMoved(a, y, from, to)) && Consistent(SlotMoved(b, y, from, to))
  {
    hide Consistent; hide MovedOn;
    TileOwner(a, y, from);
    TileOwner(b, y, from);
    var c := a.At(y).cells[from].card;
    MovedOnAlike(a, b, c, to, y, a.heap[c].faceDown);
    SlotOthers(a, y, from, to);
    SlotOthers(b, y, from, to);
  }

  lemma PlaceAlike(a: Board, b: Board, spot: (int, int))
    requires Consistent(a) && Consistent(b) && Alike(a, b)
    ensures Alike(PlaceFixed(a, spot), PlaceFixed(b, spot))
  {
    hide Consistent; hide SlotMoved;
    var (x, y) := spot;
    if x >= 0 {
      if x !in a.At(y).cells && x + 1 !in a.At(y).cells {
        if x + 2 in a.At(y).cells {
          SlotAlike(a, b, y, x + 2, x);
        }
      } else if x !in a.At(y).cells {
        SlotAlike(a, b, y, x + 1, x);
        SecondAlike(SlotMoved(a, y, x + 1, x), SlotMoved(b, y, x + 1, x), x, y);
      } else {
        SecondAlike(a, b, x, y);
      }
    }
  }

  lemma SecondAlike(a: Board, b: Board, x: int, y: int)
    requires Consistent(a) && Consistent(b) && Alike(a, b) && x >= 0
    ensures Alike(SecondFixed(a, x, y), SecondFixed(b, x, y))
  {
    hide Consistent; hide SlotMoved;
    if x + 1 !in a.At(y).cells && x + 2 in a.At(y).cells {
      SlotAlike(a, b, y, x + 2, x + 1);
    }
  }

  /** Compaction does the same to tables that are alike. */
  lemma {:induction false} AllFixedAlike(a: Board, b: Board, places: seq<(int, int)>)
    requires Consistent(a) && Consistent(b) && Alike(a, b) && Threes(places)
    ensures Alike(AllFixed(a, places), AllFixed(b, places))
    decreases |places|
  {
    hide Consistent; hide PlaceFixed; hide Alike;
    if places != [] {
      assert places[0] in places;
      PlaceAlike(a, b, places[0]);
      PlaceFixedConsistent(a, places[0]);
      PlaceFixedConsistent(b, places[0]);
      AllFixedAlike(PlaceFixed(a, places[0]), PlaceFixed(b, places[0]), places[1..]);
    }
  }

  lemma DepartsThenElse(b: Board, c: CardRef, places: seq<(int, int)>, u: Board)
    requires Good(b) && c in b.cards && c in b.heap && Consistent(TakenOff(b, c)) && Visits(TakenOff(b, c), places)
    requires Threes(places) && Alike(AllFixed(TakenOff(b, c), places), u)
    ensures FollowsBy(b, u, [TableRuns.Depart([c], places), TableRuns.Others(u.heap)])
  {
    hide Consistent; hide AllSettled; hide AllAlone; hide TakenOff; hide AllFixed; hide Visits;
    TableRuns.OneTakenOff(b, c);
    DepartedGood(b, [c], places);
    var d := AllFixed(TakenOff(b, c), places);
    assert TableSteps.Departed(b, [c], places) == d;
    assert Elsewhere(d, u.heap);
    assert d.(heap := u.heap) == u;
    hide Good;
    TwoSteps(b, TableRuns.Depart([c], places), TableRuns.Others(u.heap));
  }

  /** Once a card has left table p in the lists, the compaction its indexes answer with ends at the departed table. */
  lemma Leaving(s: State, t: State, p: Place, ix: Indexes, c: CardRef, places: seq<(int, int)>)
    returns (moves: seq<(CardRef, nat)>, u: Board)
    requires p in s.zones && p in t.zones && HasCoords(p.zone) && Inv(t, NoCard) && Good(BoardOf(s, p, ix))
    requires c in s.zones[p] && c in s.heap && t.zones[p] == Without(s.zones[p], c)
    requires forall d :: d in s.zones[p] && d != c ==> d in s.heap && d in t.heap && t.heap[d] == s.heap[d]
    requires Visits(TakenOff(BoardOf(s, p, ix), c), places)
    ensures Compact(t, p, moves, NoCard) == WithBoard(t, u) && u.place == p
    ensures OthersAsWere(BoardOf(t, p, TakenOff(BoardOf(s, p, ix), c).indexes), u)
    ensures FollowsBy(BoardOf(s, p, ix), u, [TableRuns.Depart([c], places), TableRuns.Others(u.heap)])
  {
    hide Inv; hide Consistent; hide AllSettled; hide AllAlone; hide TakenOff; hide AllFixed; hide OthersAsWere; hide FollowsBy;
    hide Compact;
    var b := BoardOf(s, p, ix);
    var taken := TakenOff(b, c);
    TakenOffConsistent(b, c);
    TakenOffShape(b, c);
    ListedOnce(b);
    WithoutFacts(b.cards, c);
    var a := BoardOf(t, p, taken.indexes);
    assert Alike(taken, a);
    hide Without; hide Alike;
    AlikeConsistent(taken, a);
    AllFixedAlike(taken, a, places);
    moves := CompactIsAllFixed(t, p, taken.indexes, NoCard, places);
    u := AllFixed(a, places);
    CarriedOutIs(t, p, a, u, moves);
    AllFixedOthers(a, places);
    DepartsThenElse(b, c, places, u);
  }

  lemma UntouchedOn(s: State, t: State, u: State, q: Place)
    requires LeftAlone(s, t, q) && LeftAlone(t, u, q)
    ensures LeftAlone(s, u, q)
  {
  }

  lemma LandedHeap(s: State, t: State, start: Place, target: Place, c: CardRef, index: int, column: int, y: int, faceDown: bool)
    requires Inv(s, NoCard) && LandedAt(s, t, start, target, c, index, column, y, faceDown) && start != target
    ensures start in t.zones && t.zones[start] == Without(s.zones[start], c) && t.zones.Keys == s.zones.Keys
    ensures forall d :: d in s.heap && d != c ==> d in t.heap && t.heap[d] == s.heap[d]
    ensures forall d :: d in s.zones[start] ==> d in s.heap
  {
    hide Ids; hide Forest; hide Arrows; hide Without; hide InsertAt;
  }

  lemma GoneHeap(s: State, t: State, start: Place, c: CardRef)
    requires Inv(s, NoCard) && GoneFrom(s, t, start, c)
    ensures t.zones[start] == Without(s.zones[start], c) && t.zones.Keys == s.zones.Keys
    ensures forall d :: d in s.heap && d != c ==> d in t.heap && t.heap[d] == s.heap[d]
    ensures forall d :: d in s.zones[start] ==> d in s.heap
    ensures forall q :: q in s.zones && q != start ==> LeftAlone(s, t, q)
  {
    hide Ids; hide Forest; hide Arrows; hide Without;
  }

  /**
   moveCard for one card from a table to a list, when it has no children: with the compaction the table's
   indexes answer with, the command is a departure from that table, also when the card is a token and vanishes.
   */
  lemma TakePlayed(
    w: World, player: int, p: Place, target: Place, req: MoveRequest, c: CardRef, x: int, y: int, mayTouch: bool,
    places: seq<(int, int)>) returns (grid: Movement.Grid, v: World)
    requires MayMove(w, player, p, target, mayTouch) && HasCoords(p.zone) && !HasCoords(target.zone) && TableGood(w, p)
    requires Asked(w.game, p, req, c)
    requires target.owner == p.owner || (player in w.game.players && w.game.players[player].judge)
    requires c in w.game.zones[p] && c in w.game.heap && w.game.heap[c].parent.None? && w.game.heap[c].attached == []
    requires Visits(TakenOff(BoardOf(w.game, p, w.tables[p]), c), places)
    ensures Played(w, DoMove(player, p, target, [req], x, y, mayTouch, grid), v)
  {
    hide Inv; hide MayMove; hide Played; hide Good; hide Consistent; hide MoveCards; hide MoveOne; hide OthersStay; hide MovedOne;
    hide FaceAfter; hide LeftAlone; hide FollowsBy; hide Follows; hide LandedAt; hide GoneFrom; hide Conserved; hide Without;
    hide Asked; hide Compact; hide OthersAsWere; hide Visits; hide TablesGood; hide TakenOff;
    MayMoveMeans(w, player, p, target, mayTouch);
    var s, ix := w.game, w.tables[p];
    var first := Movement.Grid(true, false, d => 0, d => [], []);
    var xCoord := if x <= -1 then |s.zones[target]| else x;
    ZonesKnown(s, p, NoCard);
    MovedExactly(s, player, p, target, c, xCoord, y, req.faceDown, false, first);
    var t := MoveOne(s, player, p, target, c, xCoord, y, req.faceDown, false, first);
    if Vanishes(s, c, p, target) {
      GoneHeap(s, t, p, c);
    } else {
      LandedHeap(s, t, p, target, c, xCoord, 0, y, FaceAfter(s, c, target, req.faceDown));
    }
    var moves, u := Leaving(s, t, p, ix, c, places);
    grid := Movement.Grid(true, false, d => 0, d => [], moves);
    SameMoveOne(s, player, p, target, c, xCoord, y, req.faceDown, first, grid);
    OneSent(s, player, p, target, req, c, x, y, true, false, grid);
    v := World(WithBoard(t, u), w.tables[p := u.indexes]);
    LeftFollows(w, t, p, c, u, [TableRuns.Depart([c], places), TableRuns.Others(u.heap)]) by {
      forall q | q in s.zones && q != p && HasCoords(q.zone)
        ensures LeftAlone(s, t, q)
      {
        if !Vanishes(s, c, p, target) {
          LandedElsewhere(s, t, p, target, c, xCoord, 0, y, FaceAfter(s, c, target, req.faceDown), q);
        }
      }
    }
    MovePlayed(w, player, p, target, [req], x, y, mayTouch, grid, v);
  }

  /** The compaction's part of the grid does not matter for the move itself. */
  lemma SameMoveOne(
    s: State, player: int, start: Place, target: Place, c: CardRef, x: int, y: int, wanted: Option<bool>,
    a: Movement.Grid, b: Movement.Grid)
    requires Inv(s, NoCard) && player in s.players && Movable(s, c, start, target)
    requires s.heap[c].attached == [] || start.zone == target.zone
    requires a.column(c) == b.column(c)
    ensures MoveOne(s, player, start, target, c, x, y, wanted, false, a) == MoveOne(s, player, start, target, c, x, y, wanted, false, b)
  {
    hide Inv; hide NoArrowsAt; hide OthersStay; hide FaceAfter; hide Ready; hide BroughtIn; hide MovedOne; hide BringIn; hide PickUp;
    hide DropChildren; hide SameCards;
    var s1 := PickUp(s, player, start, target, c, false);
    NothingDropped(s1, start, target, c, a);
    NothingDropped(s1, start, target, c, b);
  }

  /** Table p has followed, the others were untouched by the move and by the compaction of p. */
  lemma LeftFollows(w: World, t: State, p: Place, c: CardRef, u: Board, ops: seq<TableRuns.TableOp>)
    requires TablesGood(w) && TableGood(w, p) && HasCoords(p.zone) && Inv(t, NoCard) && t.zones.Keys == w.game.zones.Keys
    requires c in w.game.zones[p] && c in w.game.heap && u.place == p
    requires OthersAsWere(BoardOf(t, p, TakenOff(BoardOf(w.game, p, w.tables[p]), c).indexes), u)
    requires FollowsBy(BoardOf(w.game, p, w.tables[p]), u, ops)
    requires forall q :: q in w.game.zones && q != p && HasCoords(q.zone) ==> LeftAlone(w.game, t, q)
    ensures Follows(w, World(WithBoard(t, u), w.tables[p := u.indexes]))
  {
    hide Inv; hide Good; hide LeftAlone; hide FollowsBy; hide Follows; hide OthersAsWere; hide TablesGood; hide TakenOff;
    var r := WithBoard(t, u);
    assert BoardOf(r, p, u.indexes) == u;
    forall q | q in w.game.zones && HasCoords(q.zone) && q != p
      ensures LeftAlone(w.game, r, q)
    {
      OtherTablesUntouched(t, p, BoardOf(t, p, TakenOff(BoardOf(w.game, p, w.tables[p]), c).indexes), u, q);
      UntouchedOn(w.game, t, r, q);
    }
    OneTableFollows(w, r, p, u.indexes, ops);
  }

  /** An arrival followed by what happens elsewhere. */
  lemma ArrivesThenOthers(b: Board, c: CardRef, x: int, y: int, face: bool, heap: Heap)
    requires Good(b) && c in b.heap && c !in b.cards && b.heap[c].parent.None?
    requires CardsKnown(b.At(y).cells, b.heap) && b.At(y).space % 3 == 0
    requires b.heap[c].attached == [] || !JoinsOthers(b.At(y), b.heap, x, b.heap[c].name, face)
    requires Elsewhere(Arrived(b, c, x, y, face), heap)
    ensures FollowsBy(b, Arrived(b, c, x, y, face).(heap := heap), [TableRuns.Arrive(c, x, y, face), TableRuns.Others(heap)])
  {
    hide FreeColumn; hide Consistent; hide AllSettled; hide AllAlone; hide Arrived; hide JoinsOthers; hide Elsewhere;
    ArrivedGoodIff(b, c, x, y, face);
    hide Good;
    TwoSteps(b, TableRuns.Arrive(c, x, y, face), TableRuns.Others(heap));
  }

  /** What the landing and a compaction elsewhere leave of the table a card has come to. */
  lemma LandedThenElse(
    s: State, t: State, r: State, start: Place, q: Place, ix: Indexes, c: CardRef, x: int, y: int, face: bool)
    requires q in s.zones && Good(BoardOf(s, q, ix)) && HasCoords(q.zone) && start != q && c in s.heap && c !in s.zones[q]
    requires s.heap[c].parent.None?
    requires CardsKnown(BoardOf(s, q, ix).At(y).cells, s.heap) && BoardOf(s, q, ix).At(y).space % 3 == 0
    requires s.heap[c].attached == [] || !JoinsOthers(BoardOf(s, q, ix).At(y), s.heap, x, s.heap[c].name, face)
    requires LandedAt(s, t, start, q, c, x, FreeColumn(BoardOf(s, q, ix).At(y), s.heap, x, s.heap[c].name, face), y, face)
    requires LeftAlone(t, r, q)
    ensures var b := BoardOf(s, q, ix);
            var u := Arrived(b, c, x, y, face);
            && q in r.zones && BoardOf(r, q, u.indexes) == u.(heap := r.heap)
            && FollowsBy(b, u.(heap := r.heap), [TableRuns.Arrive(c, x, y, face), TableRuns.Others(r.heap)])
  {
    hide FreeColumn; hide Good; hide Arrived; hide JoinsOthers; hide LandedAt; hide FollowsBy;
    LandedIsArrived(s, t, start, q, ix, c, x, y, face);
    ArrivesThenOthers(BoardOf(s, q, ix), c, x, y, face, r.heap);
  }

  /**
   moveCard for one card from a table to another player's, children or not: with what the indexes of both
   tables answer with, it is an arrival on the one and a departure from the other, compaction included.
   */
  lemma PassPlayed(
    w: World, player: int, p: Place, q: Place, req: MoveRequest, c: CardRef, x: int, y: int, mayTouch: bool,
    places: seq<(int, int)>) returns (grid: Movement.Grid, v: World)
    requires MayMove(w, player, p, q, mayTouch) && HasCoords(p.zone) && HasCoords(q.zone) && p != q
    requires TableGood(w, p) && TableGood(w, q) && Asked(w.game, p, req, c)
    requires c in w.game.zones[p] && c in w.game.heap && w.game.heap[c].parent.None?
    requires Visits(TakenOff(BoardOf(w.game, p, w.tables[p]), c), places)
    requires var b := BoardOf(w.game, q, w.tables[q]);
             && !PassedOver(b.At(y).cells, b.heap[c], x)
             && CardsKnown(b.At(y).cells, b.heap)
             && (b.heap[c].attached == []
                 || !JoinsOthers(b.At(y), b.heap, x, b.heap[c].name, FaceAfter(w.game, c, q, req.faceDown)))
    ensures Played(w, DoMove(player, p, q, [req], x, y, mayTouch, grid), v)
  {
    hide Inv; hide MayMove; hide Played; hide Good; hide Consistent; hide MoveCards; hide MoveOne; hide OthersStay; hide MovedOne;
    hide FaceAfter; hide LeftAlone; hide FollowsBy; hide Follows; hide LandedAt; hide GoneFrom; hide Conserved; hide Without;
    hide Asked; hide Compact; hide OthersAsWere; hide Visits; hide TablesGood; hide TakenOff; hide FreeColumn; hide JoinsOthers;
    hide Arrived;
    MayMoveMeans(w, player, p, q, mayTouch);
    var s := w.game;
    var b, face := BoardOf(s, q, w.tables[q]), FaceAfter(s, c, q, req.faceDown);
    ConsistentGood(b);
    SpaceAligned(b, y);
    NotOnOther(s, p, q, c);
    ZonesKnown(s, p, NoCard);
    var column := AnsweredColumn(b, x, y, s.heap[c].name, face);
    var empty := ColumnEmpty(b.At(y).cells, x);
    var first := Movement.Grid(empty, false, d => column, d => [], []);
    MovedExactly(s, player, p, q, c, x, y, req.faceDown, false, first);
    var t := MoveOne(s, player, p, q, c, x, y, req.faceDown, false, first);
    LandedHeap(s, t, p, q, c, x, column, y, face);
    var moves, u := Leaving(s, t, p, w.tables[p], c, places);
    grid := Movement.Grid(empty, false, d => column, d => [], moves);
    SameMoveOne(s, player, p, q, c, x, y, req.faceDown, first, grid);
    SkippedIsPassedOver(s, q, w.tables[q], c, x, y);
    OneSent(s, player, p, q, req, c, x, y, true, false, grid);
    var r := WithBoard(t, u);
    v := World(r, w.tables[p := u.indexes][q := Arrived(b, c, x, y, face).indexes]);
    PassFollows(w, t, p, q, c, x, y, face, u, column, places);
    MovePlayed(w, player, p, q, [req], x, y, mayTouch, grid, v);
  }

  lemma PassFollows(
    w: World, t: State, p: Place, q: Place, c: CardRef, x: int, y: int, face: bool, u: Board, column: int, places: seq<(int, int)>)
    requires TablesGood(w) && TableGood(w, p) && TableGood(w, q) && HasCoords(p.zone) && HasCoords(q.zone) && p != q
    requires Inv(w.game, NoCard) && Inv(t, NoCard) && t.zones.Keys == w.game.zones.Keys
    requires c in w.game.zones[p] && c in w.game.heap && w.game.heap[c].parent.None? && c !in w.game.zones[q] && u.place == p
    requires OthersAsWere(BoardOf(t, p, TakenOff(BoardOf(w.game, p, w.tables[p]), c).indexes), u)
    requires FollowsBy(BoardOf(w.game, p, w.tables[p]), u, [TableRuns.Depart([c], places), TableRuns.Others(u.heap)])
    requires var b := BoardOf(w.game, q, w.tables[q]);
             && CardsKnown(b.At(y).cells, b.heap) && b.At(y).space % 3 == 0
             && (b.heap[c].attached == [] || !JoinsOthers(b.At(y), b.heap, x, b.heap[c].name, face))
             && column == FreeColumn(b.At(y), b.heap, x, b.heap[c].name, face)
    requires LandedAt(w.game, t, p, q, c, x, column, y, face)
    ensures Follows(w, World(WithBoard(t, u), w.tables[p := u.indexes][q := Arrived(BoardOf(w.game, q, w.tables[q]), c, x, y, face).indexes]))
  {
    hide Inv; hide Good; hide LeftAlone; hide FollowsBy; hide OthersAsWere; hide TablesGood; hide TakenOff; hide LandedAt;
    hide TableFollows; hide JoinsOthers; hide FreeColumn; hide Arrived;
    var s, r := w.game, WithBoard(t, u);
    var a, ix := Arrived(BoardOf(s, q, w.tables[q]), c, x, y, face), TakenOff(BoardOf(s, p, w.tables[p]), c).indexes;
    var v := World(r, w.tables[p := u.indexes][q := a.indexes]);
    forall k | k in s.zones && HasCoords(k.zone)
      ensures TableGood(w, k) && TableFollows(w, v, k)
    {
      TableIsGood(w, k);
      if k == p {
        assert BoardOf(r, p, u.indexes) == u;
        ThisTableFollows(w, v, p, [TableRuns.Depart([c], places), TableRuns.Others(u.heap)]);
      } else {
        OtherTablesUntouched(t, p, BoardOf(t, p, ix), u, k);
        if k == q {
          LandedThenElse(s, t, r, p, q, w.tables[q], c, x, y, face);
          ThisTableFollows(w, v, q, [TableRuns.Arrive(c, x, y, face), TableRuns.Others(r.heap)]);
        } else {
          LandedElsewhere(s, t, p, q, c, x, column, y, face, k);
          UntouchedOn(s, t, r, k);
          UntouchedFollows(w, v, k);
        }
      }
    }
  }

  lemma TableIsGood(w: World, p: Place)
    requires TablesGood(w) && p in w.game.zones && HasCoords(p.zone)
    ensures TableGood(w, p)
  {
  }

  /** A command of this kind is one of the other steps on every table. */
  lemma QuietPlayed(w: World, cmd: Command)
    requires TablesGood(w) && GameOk(w.game) && Allowed(w.game, cmd) && Quiet(cmd)
    ensures Played(w, cmd, World(Exec(w.game, cmd), w.tables))
  {
    hide TablesGood; hide GameOk; hide Allowed; hide ExecMoves; hide ExecLinks; hide AllLeftAlone; hide TableFollows; hide ExecSeats; hide Follows;
    if cmd.DoStop? {
      NoTablesLeft(w.game, cmd);
      NoTablesFollow(w, World(Exec(w.game, cmd), w.tables));
    } else {
      if AboutSeats(cmd) {
        SeatsUntouched(w.game, cmd);
      } else if AboutLinks(cmd) {
        LinksUntouched(w.game, cmd);
      } else {
        MovesUntouched(w.game, cmd);
      }
      AllLeftAloneFollows(w, Exec(w.game, cmd));
    }
  }


  // ------------------------------------------------------------------ crypt draws

  lemma FollowsThen(w: World, v: World, u: World)
    requires TablesGood(w) && TablesGood(v) && Follows(w, v) && Follows(v, u)
    ensures Follows(w, u)
  {
    hide Good; hide TableFollows;
    forall p | p in u.game.zones && HasCoords(p.zone)
      ensures p in w.game.zones && TableFollows(w, u, p)
    {
      assert p in v.game.zones && TableFollows(v, u, p);
      assert p in w.game.zones && TableFollows(w, v, p);
      TableFollowsThen(w, v, u, p);
    }
  }

  lemma TableFollowsThen(w: World, v: World, u: World, p: Place)
    requires TableGood(w, p) && TableGood(v, p) && TableFollows(w, v, p) && TableFollows(v, u, p)
    ensures TableFollows(w, u, p)
  {
    hide Good; hide TableRuns.Run; hide TableRuns.HarmlessRun;
    var a, b, c := BoardOf(w.game, p, w.tables[p]), BoardOf(v.game, p, v.tables[p]), BoardOf(u.game, p, u.tables[p]);
    var ops :| FollowsBy(a, b, ops);
    var more :| FollowsBy(b, c, more);
    TableRuns.RunConcat(a, ops, more);
    assert FollowsBy(a, c, ops + more);
  }

  /** The top card of the crypt comes to the table beside the grid. */
  lemma CryptOneFollows(w: World, p: int)
    requires TablesGood(w) && Inv(w.game, NoCard) && p in w.game.players
    requires Place(p, Crypt) in w.game.zones && Place(p, Table) in w.game.zones
    requires w.game.zones[Place(p, Crypt)] != [] && w.game.zones[Place(p, Crypt)][0] in w.game.heap
    ensures Follows(w, World(DrawCryptOne(w.game, p), w.tables))
  {
    hide Good; hide LeftAlone; hide FollowsBy; hide Follows;
    var s, table := w.game, Place(p, Table);
    var c := s.zones[Place(p, Crypt)][0];
    assert TableGood(w, table);
    FreeOutsideTables(s, c, Place(p, Crypt));
    NotOnOther(s, Place(p, Crypt), table, c);
    var b, t := BoardOf(s, table, w.tables[table]), DrawCryptOne(s, p);
    BesideGood(b, c);
    OneStep(b, TableRuns.DrawCrypt(c));
    CryptIsBeside(s, p, w.tables[table]);
    forall q | q in s.zones && HasCoords(q.zone) && q != table
      ensures LeftAlone(s, t, q)
    {
      CryptUntouched(s, p, q);
    }
    OneTableFollows(w, t, table, w.tables[table], [TableRuns.DrawCrypt(c)]);
    assert w.tables[table := w.tables[table]] == w.tables;
  }

  lemma CryptIsBeside(s: State, p: int, ix: Indexes)
    requires p in s.players && Place(p, Crypt) in s.zones && Place(p, Table) in s.zones
    requires s.zones[Place(p, Crypt)] != [] && s.zones[Place(p, Crypt)][0] in s.heap
    ensures BoardOf(DrawCryptOne(s, p), Place(p, Table), ix)
         == Beside(BoardOf(s, Place(p, Table), ix), s.zones[Place(p, Crypt)][0])
  {
    var c := s.zones[Place(p, Crypt)][0];
    assert DrawCryptOne(s, p).heap == Beside(BoardOf(s, Place(p, Table), ix), c).heap;
  }

  lemma CryptUntouched(s: State, p: int, q: Place)
    requires Inv(s, NoCard) && p in s.players && Place(p, Crypt) in s.zones && Place(p, Table) in s.zones
    requires s.zones[Place(p, Crypt)] != [] && s.zones[Place(p, Crypt)][0] in s.heap
    requires q in s.zones && HasCoords(q.zone) && q != Place(p, Table)
    ensures LeftAlone(s, DrawCryptOne(s, p), q)
  {
    NotOnOther(s, Place(p, Crypt), q, s.zones[Place(p, Crypt)][0]);
    ZonesKnown(s, q, NoCard);
    hide Inv;
  }

  lemma {:induction false} CryptFollows(w: World, p: int, number: int)
    requires TablesGood(w) && GameOk(w.game) && Active(w.game, p)
    ensures Follows(w, World(DrawCryptCards(w.game, p, number), w.tables))
    decreases number
  {
    hide Inv; hide Seats; hide Tidy; hide DrawCryptOne; hide SamePopulation; hide TablesGood; hide Follows;
    var s := w.game;
    NotRefused(s, p);
    if number > 0 && s.zones[Place(p, Crypt)] != [] {
      DrawCryptOneIsTransfer(s, p);
      DrawCryptOneSeats(s, p);
      CryptOneFollows(w, p);
      var v := World(DrawCryptOne(s, p), w.tables);
      FollowsKeepsGood(w, v);
      CryptFollows(v, p, number - 1);
      FollowsThen(w, v, World(DrawCryptCards(v.game, p, number - 1), w.tables));
    } else {
      Unchanged(s);
      AllLeftAloneFollows(w, s);
    }
  }

  /** Drawing crypt cards is so many crypt draws on the player's table. */
  lemma CryptPlayed(w: World, p: int, number: int)
    requires TablesGood(w) && GameOk(w.game) && Active(w.game, p)
    ensures var cmd := DoDrawCrypt(p, number);
            Allowed(w.game, cmd) && Played(w, cmd, World(Exec(w.game, cmd), w.tables))
  {
    hide Inv; hide Seats; hide Tidy; hide DrawCryptCards; hide TablesGood; hide Follows;
    CryptFollows(w, p, number);
  }

  // ------------------------------------------------------------------ runs

  /** One command of a run, and what the server keeps afterwards. */
  datatype Turn = Turn(cmd: Command, next: World)

  ghost predicate WorldRun(w: World, turns: seq<Turn>)
    decreases |turns|
  {
    hide Played;
    turns != [] ==> Played(w, turns[0].cmd, turns[0].next) && WorldRun(turns[0].next, turns[1..])
  }

  function CommandsOf(turns: seq<Turn>): seq<Command>
  {
    if turns == [] then [] else [turns[0].cmd] + CommandsOf(turns[1..])
  }

  function LastOf(w: World, turns: seq<Turn>): World
    decreases |turns|
  {
    if turns == [] then w else LastOf(turns[0].next, turns[1..])
  }

  /** No two cards of a table share a slot, its indexes agree with its cards, and the next column is a free one. */
  ghost predicate TableAgrees(w: World, p: Place)
  {
    && p in w.game.zones && p in w.tables
    && var b := BoardOf(w.game, p, w.tables[p]);
       && TableRuns.IndexesAgree(b)
       && forall x, y, name, dontStack :: TableRuns.NextColumnFree(b, x, y, name, dontStack)
  }

  lemma GoodTableAgrees(w: World, p: Place)
    requires TableGood(w, p)
    ensures TableAgrees(w, p)
  {
    hide Good; hide TableRuns.IndexesAgree; hide TableRuns.NextColumnFree;
    TableRuns.RunsStayGood(BoardOf(w.game, p, w.tables[p]), []);
  }

  /**
   Over every run of commands that are answered by the tables' own indexes: it is a run of the game, so
   the game's invariants hold, and on every table at once the indexes agree with the cards.
   */
  lemma {:induction false} WorldRunsAgree(w: World, turns: seq<Turn>)
    requires TablesGood(w) && GameOk(w.game) && WorldRun(w, turns)
    ensures AllowedRun(w.game, CommandsOf(turns))
    ensures var v := LastOf(w, turns);
            && v.game == Run(w.game, CommandsOf(turns)) && GameOk(v.game) && TablesGood(v)
            && forall p :: p in v.game.zones && HasCoords(p.zone) ==> TableAgrees(v, p)
    decreases |turns|
  {
    hide GameOk; hide Allowed; hide Exec; hide TablesGood; hide Follows; hide TableAgrees;
    if turns == [] {
      forall p | p in w.game.zones && HasCoords(p.zone)
        ensures TableAgrees(w, p)
      {
        TableIsGood(w, p);
        GoodTableAgrees(w, p);
      }
    } else {
      var cmds := CommandsOf(turns);
      assert cmds[0] == turns[0].cmd && cmds[1..] == CommandsOf(turns[1..]);
      FollowsKeepsGood(w, turns[0].next);
      WorldRunsAgree(turns[0].next, turns[1..]);
    }
  }
}

/**
 Where the two views of a table meet: the commands see a list of cards and take columns as parameters,
 the table's indexes answer with columns.  With those columns both views do the same.
 */
module TableLinks {
  import opened Wrappers
  import opened Cards
  import opened Shuffling
  import opened ZoneLists
  import opened PileRow
  import opened Compaction
  import opened RowMoves
  import opened TableZone
  import opened TableSteps
  import opened GameState
  import opened Movement

  /** A table of the game together with its indexes. */
  function BoardOf(s: State, p: Place, ix: Indexes): Board
    requires p in s.zones
  {
    Board(p, s.heap, s.zones[p], ix)
  }

  /** The game after something happened to the cards of one table. */
  function WithBoard(s: State, b: Board): State
  {
    s.(heap := b.heap, zones := s.zones[b.place := b.cards])
  }

  /** The table and its indexes fit the game. */
  ghost predicate Fits(s: State, p: Place, ix: Indexes, f: Lift)
  {
    Inv(s, f) && p in s.zones && HasCoords(p.zone) && Consistent(BoardOf(s, p, ix))
  }

  // ------------------------------------------------------------------ moves on one table

  /** A move on the table changes the card's place and face, and puts it at the end of the list. */
  lemma MovedOnShape(b: Board, c: CardRef, x: int, y: int, faceDown: bool)
    requires Consistent(b) && c in b.cards && c in b.heap && !PassedOver(b.At(y).cells, b.heap[c], x)
    ensures b.heap[c].zone == Some(b.place)
    ensures var u := MovedOn(b, c, x, y, faceDown);
            && c in u.heap && u.place == b.place && (x >= 0 ==> u.heap[c].x >= 0)
            && u.heap == b.heap[c := b.heap[c].(x := u.heap[c].x, y := y, faceDown := faceDown)]
            && u.cards == Without(b.cards, c) + [c]
  {
    MovedOnIs(b, c, x, y, faceDown);
    TakenOffShape(b, c);
    TakenOffConsistent(b, c);
    var t := TakenOff(b, c);
    ArrivedRows(t, c, x, y, faceDown);
    hide Consistent; hide MovedOn; hide Arrived; hide TakenOff; hide Insert; hide Without;
    var u := MovedOn(b, c, x, y, faceDown);
    assert u.heap == b.heap[c := b.heap[c].(x := u.heap[c].x, y := y, faceDown := faceDown)];
  }

  /** A move to another column, at the column the indexes answer with. */
  lemma RelocateIsMove(s: State, p: Place, ix: Indexes, c: CardRef, x: int)
    requires p in s.zones && Consistent(BoardOf(s, p, ix)) && c in s.zones[p] && c in s.heap
    requires !PassedOver(BoardOf(s, p, ix).At(s.heap[c].y).cells, s.heap[c], x)
    ensures s.heap[c].zone == Some(p)
    ensures var u := MovedOn(BoardOf(s, p, ix), c, x, s.heap[c].y, s.heap[c].faceDown);
            && c in u.heap && u.place == p
            && (x >= 0 ==> u.heap[c].x >= 0)
            && (u.heap[c].x >= 0 ==> Relocate(s, c, u.heap[c].x) == WithBoard(s, u))
  {
    MovedOnShape(BoardOf(s, p, ix), c, x, s.heap[c].y, s.heap[c].faceDown);
    hide Consistent; hide MovedOn; hide Without;
  }

  /** One move of a compaction: made, or passed over. */
  lemma SlotIsMoves(s: State, p: Place, ix: Indexes, f: Lift, y: int, from: int, to: int) returns (moves: seq<(CardRef, nat)>)
    requires Fits(s, p, ix, f) && from in BoardOf(s, p, ix).At(y).cells && to >= 0
    ensures var u := SlotMoved(BoardOf(s, p, ix), y, from, to);
            && Compact(s, p, moves, f) == WithBoard(s, u)
            && Fits(WithBoard(s, u), p, u.indexes, f) && BoardOf(WithBoard(s, u), p, u.indexes) == u
  {
    hide Inv; hide Calm; hide SameTrees; hide Consistent; hide Relocate; hide MovedOn; hide PassedOver;
    var b := BoardOf(s, p, ix);
    TileOwner(b, y, from);
    RowKnown(b, y);
    var c := b.At(y).cells[from].card;
    var u := SlotMoved(b, y, from, to);
    SlotMovedRow(b, y, from, to);
    ReplacedConsistent(b, u, y, MoveInRow(b.At(y), b.heap, from, to));
    if PassedOver(b.At(y).cells, s.heap[c], to) {
      moves := [];
      MovedOnPassedOver(b, c, to, y, b.heap[c].faceDown);
      assert WithBoard(s, u) == s;
    } else {
      RelocateIsMove(s, p, ix, c, to);
      NotLifted(s, p, c, f);
      moves := [(c, u.heap[c].x)];
      assert moves[1..] == [];
    }
    assert Inv(Compact(s, p, moves, f), f);
  }

  /** A card in a zone's list is in that zone, and not in the air. */
  lemma NotLifted(s: State, p: Place, c: CardRef, f: Lift)
    requires Inv(s, f) && p in s.zones && c in s.zones[p]
    ensures c in s.heap && s.heap[c].zone == Some(p) && !IsLifted(c, f)
  {
    hide Ids; hide Forest; hide Arrows;
  }

  lemma {:induction false} CompactTwice(s: State, p: Place, a: seq<(CardRef, nat)>, b: seq<(CardRef, nat)>, f: Lift)
    requires Inv(s, f) && HasCoords(p.zone)
    ensures Compact(s, p, a + b, f) == Compact(Compact(s, p, a, f), p, b, f)
    decreases |a|
  {
    hide Inv; hide Calm; hide SameTrees; hide Relocate;
    if a == [] {
      assert a + b == b;
    } else {
      var (c, column) := a[0];
      assert (a + b)[0] == a[0] && (a + b)[1..] == a[1..] + b;
      if c in s.heap && s.heap[c].zone == Some(p) && s.heap[c].parent.None? && s.heap[c].x >= 0 && !IsLifted(c, f) {
        RelocateCalm(s, c, column, f);
        CompactTwice(Relocate(s, c, column), p, a[1..], b, f);
      } else {
        CompactTwice(s, p, a[1..], b, f);
      }
    }
  }

  /** What is known about a step that a list of moves carries out. */
  ghost predicate CarriedOut(s: State, p: Place, b: Board, u: Board, moves: seq<(CardRef, nat)>, f: Lift)
  {
    && Inv(s, f) && p in s.zones && HasCoords(p.zone) && b == BoardOf(s, p, b.indexes)
    && Compact(s, p, moves, f) == WithBoard(s, u)
    && Fits(WithBoard(s, u), p, u.indexes, f) && BoardOf(WithBoard(s, u), p, u.indexes) == u
  }

  lemma NothingCarriedOut(s: State, p: Place, ix: Indexes, f: Lift)
    requires Fits(s, p, ix, f)
    ensures CarriedOut(s, p, BoardOf(s, p, ix), BoardOf(s, p, ix), [], f)
  {
    hide Inv; hide Consistent;
    assert WithBoard(s, BoardOf(s, p, ix)) == s;
  }

  lemma CarriedOutThen(
    s: State, p: Place, b: Board, u: Board, v: Board, one: seq<(CardRef, nat)>, two: seq<(CardRef, nat)>, f: Lift)
    requires CarriedOut(s, p, b, u, one, f) && CarriedOut(WithBoard(s, u), p, u, v, two, f)
    ensures CarriedOut(s, p, b, v, one + two, f)
  {
    hide Inv; hide Consistent; hide Compact;
    CompactTwice(s, p, one, two, f);
    assert WithBoard(WithBoard(s, u), v) == WithBoard(s, v);
  }

  lemma PlaceIsMoves(s: State, p: Place, ix: Indexes, f: Lift, spot: (int, int)) returns (moves: seq<(CardRef, nat)>)
    requires Fits(s, p, ix, f)
    ensures CarriedOut(s, p, BoardOf(s, p, ix), PlaceFixed(BoardOf(s, p, ix), spot), moves, f)
  {
    hide Inv; hide Consistent; hide SlotMoved; hide Compact; hide RowReplaced; hide MoveInRow; hide CarriedOut;
    var b := BoardOf(s, p, ix);
    var (x, y) := spot;
    NothingCarriedOut(s, p, ix, f);
    moves := [];
    if x >= 0 {
      if x !in b.At(y).cells && x + 1 !in b.At(y).cells {
        if x + 2 in b.At(y).cells {
          moves := SlotCarriedOut(s, p, ix, f, y, x + 2, x);
        }
      } else if x !in b.At(y).cells {
        var u := SlotMoved(b, y, x + 1, x);
        var one := SlotCarriedOut(s, p, ix, f, y, x + 1, x);
        CarriedOutFits(s, p, b, u, one, f);
        var two := SecondIsMoves(WithBoard(s, u), p, u.indexes, f, x, y);
        CarriedOutThen(s, p, b, u, SecondFixed(u, x, y), one, two, f);
        moves := one + two;
      } else {
        moves := SecondIsMoves(s, p, ix, f, x, y);
      }
    }
  }

  lemma CarriedOutFits(s: State, p: Place, b: Board, u: Board, moves: seq<(CardRef, nat)>, f: Lift)
    requires CarriedOut(s, p, b, u, moves, f)
    ensures Fits(WithBoard(s, u), p, u.indexes, f) && BoardOf(WithBoard(s, u), p, u.indexes) == u
  {
  }

  lemma SlotCarriedOut(s: State, p: Place, ix: Indexes, f: Lift, y: int, from: int, to: int) returns (moves: seq<(CardRef, nat)>)
    requires Fits(s, p, ix, f) && from in BoardOf(s, p, ix).At(y).cells && to >= 0
    ensures CarriedOut(s, p, BoardOf(s, p, ix), SlotMoved(BoardOf(s, p, ix), y, from, to), moves, f)
  {
    hide Inv; hide Consistent; hide SlotMoved; hide Compact;
    moves := SlotIsMoves(s, p, ix, f, y, from, to);
  }

  lemma SecondIsMoves(s: State, p: Place, ix: Indexes, f: Lift, x: int, y: int) returns (moves: seq<(CardRef, nat)>)
    requires Fits(s, p, ix, f) && x >= 0
    ensures CarriedOut(s, p, BoardOf(s, p, ix), SecondFixed(BoardOf(s, p, ix), x, y), moves, f)
  {
    hide Inv; hide Consistent; hide SlotMoved; hide Compact; hide CarriedOut;
    var b := BoardOf(s, p, ix);
    NothingCarriedOut(s, p, ix, f);
    moves := [];
    if x + 1 !in b.At(y).cells && x + 2 in b.At(y).cells {
      moves := SlotCarriedOut(s, p, ix, f, y, x + 2, x + 1);
    }
  }

  /**
   fixFreeSpaces: whatever order the set of places yields, the compaction computed from the indexes is
   one that the commands can be given, move by move and column by column.
   */
  lemma {:induction false} CompactIsAllFixed(s: State, p: Place, ix: Indexes, f: Lift, places: seq<(int, int)>)
    returns (moves: seq<(CardRef, nat)>)
    requires Fits(s, p, ix, f) && Threes(places)
    ensures CarriedOut(s, p, BoardOf(s, p, ix), AllFixed(BoardOf(s, p, ix), places), moves, f)
    decreases |places|
  {
    hide Inv; hide Consistent; hide Compact; hide CarriedOut; hide PlaceFixed;
    var b := BoardOf(s, p, ix);
    if places == [] {
      NothingCarriedOut(s, p, ix, f);
      moves := [];
    } else {
      var u := PlaceFixed(b, places[0]);
      var one := PlaceIsMoves(s, p, ix, f, places[0]);
      CarriedOutFits(s, p, b, u, one, f);
      var two := CompactIsAllFixed(WithBoard(s, u), p, u.indexes, f, places[1..]);
      CarriedOutThen(s, p, b, u, AllFixed(u, places[1..]), one, two, f);
      moves := one + two;
    }
  }

  // ------------------------------------------------------------------ one card moved on its table

  /** Lifted and put down on its own table, at the column the indexes answer with. */
  lemma SettleIsMove(s: State, p: Place, ix: Indexes, c: CardRef, index: int, x: int, y: int, faceDown: bool)
    requires p in s.zones && p.owner in s.players && HasCoords(p.zone) && Consistent(BoardOf(s, p, ix))
    requires c in s.zones[p] && c in s.heap && !PassedOver(BoardOf(s, p, ix).At(y).cells, s.heap[c], x)
    ensures s.heap[c].zone == Some(p)
    ensures var u := MovedOn(BoardOf(s, p, ix), c, x, y, faceDown);
            && c in u.heap && u.place == p
            && Settle(LiftCard(s, c), c, p, index, u.heap[c].x, y, false, faceDown) == WithBoard(s, u)
  {
    MovedOnShape(BoardOf(s, p, ix), c, x, y, faceDown);
    hide Consistent; hide MovedOn; hide Without;
    var u := MovedOn(BoardOf(s, p, ix), c, x, y, faceDown);
    assert Settle(LiftCard(s, c), c, p, index, u.heap[c].x, y, false, faceDown).heap == u.heap;
  }

  /** A card that stays on its table: nothing but the card itself is taken away and put down. */
  lemma MoveOneOnTable(
    s: State, player: int, p: Place, c: CardRef, index: int, y: int, wanted: Option<bool>, undoing: bool, grid: Movement.Grid)
    requires Inv(s, NoCard) && player in s.players && Movable(s, c, p, p) && HasCoords(p.zone)
    ensures p.owner in s.players && c in s.zones[p]
    ensures MoveOne(s, player, p, p, c, index, y, wanted, undoing, grid)
         == Settle(LiftCard(s, c), c, p, index, grid.column(c), y, false, FaceAfter(s, c, p, wanted))
  {
    hide Ids; hide Forest; hide Arrows; hide Settle; hide FaceAfter; hide NoArrowsAt;
    assert s.zones.Keys == s.zones.Keys;
  }

  lemma OneRequest(s: State, start: Place, target: Place, req: MoveRequest, columnEmpty: bool)
    requires ZoneKnown(s, start) && FindCard(s.heap, s.zones[start], Hidden(start), req.id).Some?
    ensures var (c, i) := FindCard(s.heap, s.zones[start], Hidden(start), req.id).value;
            c in s.heap &&
            Select(s, start, target, [req], {}, columnEmpty)
            == Ok(if Skipped(s, c, target, columnEmpty) then [] else [Selected(c, i, req.faceDown)])
  {
    hide FindCard; hide Skipped;
    var m := Selected(FindCard(s.heap, s.zones[start], Hidden(start), req.id).value.0,
                      FindCard(s.heap, s.zones[start], Hidden(start), req.id).value.1, req.faceDown);
    assert Select(s, start, target, [], {} + {req.id}, columnEmpty) == Ok([]);
    assert [req][0] == req && [req][1..] == [] && [m] + [] == [m];
  }

  lemma OneSorted(s: State, m: Selected)
    requires AllKnown(s, [m])
    ensures Sorted(s, [m]) == [m]
  {
    assert [m][1..] == [];
  }

  /** The cards a command asks for in this zone: the one card it finds. */
  ghost predicate Asked(s: State, p: Place, req: MoveRequest, c: CardRef)
  {
    && ZoneKnown(s, p) && FindCard(s.heap, s.zones[p], Hidden(p), req.id).Some?
    && FindCard(s.heap, s.zones[p], Hidden(p), req.id).value.0 == c
  }

  /** The loop of moveCard for a single card. */
  lemma OneLoop(
    s: State, player: int, start: Place, target: Place, m: Selected, x: int, y: int, undoing: bool, grid: Movement.Grid)
    requires Inv(s, NoCard) && player in s.players && AllMovable(s, [m], start, target)
    ensures Movable(s, m.card, start, target)
    ensures MoveLoop(s, player, start, target, [m], x, y, undoing, grid)
         == MoveOne(s, player, start, target, m.card, x, y, m.faceDown, undoing, grid)
  {
    hide Inv; hide OthersStay; hide MovedOne; hide Conserved; hide MoveOne; hide CardsOf;
    assert [m][0] == m && [m][1..] == [];
    assert Movable(s, [m][0].card, start, target);
  }

  /** moveCard for a single card of a table, its own table being the target. */
  lemma OneMoved(
    s: State, player: int, p: Place, req: MoveRequest, c: CardRef, x: int, y: int, fix: bool, undoing: bool, grid: Movement.Grid)
    requires Inv(s, NoCard) && player in s.players && p in s.zones && HasCoords(p.zone) && Asked(s, p, req, c)
    ensures c in s.zones[p] && c in s.heap && s.heap[c].zone == Some(p) && p.owner in s.players
    ensures var r := MoveCards(s, player, p, p, [req], x, y, fix, undoing, grid);
            if Skipped(s, c, p, grid.columnEmpty) then r == (s, RespContextError)
            else
              var t := Settle(LiftCard(s, c), c, p, x, grid.column(c), y, false, FaceAfter(s, c, p, req.faceDown));
              Inv(t, NoCard) && r == (if fix then Compact(t, p, grid.compactedAtEnd, NoCard) else t, RespOk)
  {
    hide Inv; hide OthersStay; hide Conserved; hide MoveLoop; hide Select; hide Sorted; hide CardsOf; hide Settle;
    hide FindCard; hide FaceAfter; hide MoveOne; hide MovedOne; hide Compact; hide Calm; hide SameTrees; hide LiftCard;
    OneRequest(s, p, p, req, grid.columnEmpty);
    SelectSelects(s, p, p, [req], {}, grid.columnEmpty);
    TableOwner(s, p);
    if !Skipped(s, c, p, grid.columnEmpty) {
      var m := Selected(c, FindCard(s.heap, s.zones[p], Hidden(p), req.id).value.1, req.faceDown);
      SelectionKnown(s, p, [m]);
      OneSorted(s, m);
      SelectionMovable(s, p, p, [m], [m]);
      OneLoop(s, player, p, p, m, x, y, undoing, grid);
      MoveOneOnTable(s, player, p, c, x, y, req.faceDown, undoing, grid);
    }
  }

  lemma TableOwner(s: State, p: Place)
    requires Inv(s, NoCard) && p in s.zones
    ensures p.owner in s.players
  {
    hide Ids; hide Forest; hide Arrows;
  }

  /**
   moveCard for one card of a table, with the columns its indexes answer with: the game's table and the
   indexes together end up as the shifted board says, and nothing else in the game changes.
   */
  lemma ShiftAnswered(
    s: State, player: int, p: Place, ix: Indexes, req: MoveRequest, c: CardRef, x: int, y: int, undoing: bool,
    places: seq<(int, int)>) returns (grid: Movement.Grid)
    requires Fits(s, p, ix, NoCard) && Good(BoardOf(s, p, ix)) && player in s.players && Asked(s, p, req, c)
    requires c in s.heap && s.heap[c].parent.None? && Threes(places)
    ensures c in s.zones[p] && Consistent(MovedOn(BoardOf(s, p, ix), c, x, y, FaceAfter(s, c, p, req.faceDown)))
    ensures grid.columnEmpty == ColumnEmpty(BoardOf(s, p, ix).At(y).cells, x)
    ensures var b, face := BoardOf(s, p, ix), FaceAfter(s, c, p, req.faceDown);
            MoveCards(s, player, p, p, [req], x, y, true, undoing, grid)
            == (WithBoard(s, Shifted(b, c, x, y, face, places)),
                if PassedOver(b.At(y).cells, s.heap[c], x) then RespContextError else RespOk)
  {
    hide Inv; hide Good; hide Consistent; hide MovedOn; hide AllFixed; hide MoveCards; hide Settle; hide LiftCard;
    hide Compact; hide FaceAfter; hide FindCard; hide WithBoard; hide PassedOver;
    var b, face := BoardOf(s, p, ix), FaceAfter(s, c, p, req.faceDown);
    var empty := ColumnEmpty(b.At(y).cells, x);
    grid := Movement.Grid(empty, false, d => 0, d => [], []);
    OneMoved(s, player, p, req, c, x, y, true, undoing, grid);
    ShiftConsistent(b, c, x, y, face);
    SkippedIsPassedOver(s, p, ix, c, x, y);
    if PassedOver(b.At(y).cells, s.heap[c], x) {
      SameBoard(s, p, ix);
    } else {
      var column, moves := ShiftMoves(s, player, p, ix, req, c, x, y, undoing, places);
      grid := Movement.Grid(empty, false, d => column, d => [], moves);
      OneMoved(s, player, p, req, c, x, y, true, undoing, grid);
    }
  }

  lemma SameBoard(s: State, p: Place, ix: Indexes)
    requires p in s.zones
    ensures WithBoard(s, BoardOf(s, p, ix)) == s
  {
  }

  /** The guard of the selection is the index's answer. */
  lemma SkippedIsPassedOver(s: State, p: Place, ix: Indexes, c: CardRef, x: int, y: int)
    requires p in s.zones && HasCoords(p.zone) && c in s.heap && s.heap[c].parent.None?
    ensures var cells := BoardOf(s, p, ix).At(y).cells;
            Skipped(s, c, p, ColumnEmpty(cells, x)) <==> PassedOver(cells, s.heap[c], x)
  {
  }

  /** The column and the compaction that the indexes answer with. */
  lemma ShiftMoves(
    s: State, player: int, p: Place, ix: Indexes, req: MoveRequest, c: CardRef, x: int, y: int, undoing: bool,
    places: seq<(int, int)>) returns (column: nat, moves: seq<(CardRef, nat)>)
    requires Fits(s, p, ix, NoCard) && Good(BoardOf(s, p, ix)) && player in s.players && Asked(s, p, req, c)
    requires c in s.heap && c in s.zones[p] && s.heap[c].parent.None? && Threes(places) && p.owner in s.players
    requires s.heap[c].zone == Some(p)
    requires !PassedOver(BoardOf(s, p, ix).At(y).cells, s.heap[c], x)
    requires Consistent(MovedOn(BoardOf(s, p, ix), c, x, y, FaceAfter(s, c, p, req.faceDown)))
    ensures var face := FaceAfter(s, c, p, req.faceDown);
            var t, u := Settle(LiftCard(s, c), c, p, x, column, y, false, face), MovedOn(BoardOf(s, p, ix), c, x, y, face);
            Inv(t, NoCard) && Compact(t, p, moves, NoCard) == WithBoard(s, AllFixed(u, places))
  {
    hide Inv; hide Good; hide Consistent; hide MovedOn; hide AllFixed; hide MoveCards; hide Settle; hide LiftCard; hide Compact;
    hide FaceAfter; hide FindCard; hide PassedOver;
    var b, face := BoardOf(s, p, ix), FaceAfter(s, c, p, req.faceDown);
    var u := MovedOn(b, c, x, y, face);
    SettleIsMove(s, p, ix, c, x, x, y, face);
    MovedColumn(b, c, x, y, face);
    column := u.heap[c].x;
    SkippedIsPassedOver(s, p, ix, c, x, y);
    var col := column;
    OneMoved(s, player, p, req, c, x, y, false, undoing,
             Movement.Grid(ColumnEmpty(b.At(y).cells, x), false, d => col, d => [], []));
    var t := WithBoard(s, u);
    assert BoardOf(t, p, u.indexes) == u;
    moves := CompactIsAllFixed(t, p, u.indexes, NoCard, places);
    CarriedOutIs(t, p, u, AllFixed(u, places), moves);
    assert WithBoard(t, AllFixed(u, places)) == WithBoard(s, AllFixed(u, places));
  }

  lemma CarriedOutIs(s: State, p: Place, b: Board, u: Board, moves: seq<(CardRef, nat)>)
    requires CarriedOut(s, p, b, u, moves, NoCard)
    ensures Inv(s, NoCard) && HasCoords(p.zone) && Compact(s, p, moves, NoCard) == WithBoard(s, u) && u.place == p
  {
  }

  /** On a good table the column a card is given is one of the grid. */
  lemma MovedColumn(b: Board, c: CardRef, x: int, y: int, faceDown: bool)
    requires Shiftable(b, c) && !PassedOver(b.At(y).cells, b.heap[c], x)
    ensures var u := MovedOn(b, c, x, y, faceDown); c in u.heap && u.heap[c].x >= 0
  {
    hide Consistent; hide FreeColumn; hide TakenOff; hide Arrived; hide Indexed; hide AllAlone; hide MovedOn;
    GoodIsLoose(b);
    TakenOffLoose(b, c);
    TakenOffConsistent(b, c);
    TakenOffShape(b, c);
    var t := TakenOff(b, c);
    RowKnown(t, y);
    assert Indexed(t.At(y));
    FreeColumnUnused(t.At(y), t.heap, x, b.heap[c].name, faceDown);
    MovedOnIs(b, c, x, y, faceDown);
    ArrivedRows(t, c, x, y, faceDown);
  }

  // ------------------------------------------------------------------ one card played to a table

  /** A card outside the tables hangs under none and has none. */
  lemma FreeOutsideTables(s: State, c: CardRef, start: Place)
    requires Inv(s, NoCard) && start in s.zones && c in s.zones[start] && !HasCoords(start.zone)
    ensures c in s.heap && s.heap[c].zone == Some(start) && s.heap[c].parent.None? && s.heap[c].attached == []
  {
    hide Ids; hide Arrows;
    assert forall k :: k in s.heap[c].attached ==> k in s.heap && s.heap[k].parent == Some(c);
    EmptyWithoutMembers(s.heap[c].attached);
  }

  /** Without children to drop, taking a card away changes its zone's list, its zone field, the undo list and arrows. */
  lemma TakenExactly(s: State, player: int, start: Place, target: Place, c: CardRef, undoing: bool, grid: Movement.Grid)
    requires Inv(s, NoCard) && player in s.players && Movable(s, c, start, target)
    requires s.heap[c].attached == [] || start.zone == target.zone
    ensures c in s.zones[start]
    ensures var t := TakeAway(s, player, start, target, c, undoing, grid);
            t.heap == s.heap[c := s.heap[c].(zone := None)] && t.zones == s.zones[start := Without(s.zones[start], c)]
  {
    hide Inv; hide NoArrowsAt; hide Without; hide OthersStay; hide Calm; hide PickUp; hide DropChildren; hide SameCards;
    PickedUp(s, player, start, target, c, undoing);
    NothingDropped(PickUp(s, player, start, target, c, undoing), start, target, c, grid);
  }

  lemma PickedUp(s: State, player: int, start: Place, target: Place, c: CardRef, undoing: bool)
    requires Inv(s, NoCard) && player in s.players && Movable(s, c, start, target)
    ensures c in s.zones[start]
    ensures var t := PickUp(s, player, start, target, c, undoing);
            t.heap == s.heap[c := s.heap[c].(zone := None)] && t.zones == s.zones[start := Without(s.zones[start], c)]
  {
    hide Inv; hide Without; hide OthersStay;
    InItsZone(s, c, NoCard);
  }

  lemma NothingDropped(s: State, start: Place, target: Place, c: CardRef, grid: Movement.Grid)
    requires Inv(s, Lifted(c, start)) && c in s.heap && s.heap[c].parent.None?
    requires s.heap[c].attached == [] || start.zone == target.zone
    ensures DropChildren(s, start, target, c, grid) == s
  {
    hide Inv; hide Calm; hide UnlinkedAll; hide AllAttached;
  }

  /** The card has come to the target zone; nothing else in lists and cards has changed. */
  ghost predicate LandedAt(
    s: State, t: State, start: Place, target: Place, c: CardRef, index: int, column: int, y: int, faceDown: bool)
  {
    && c in s.heap && c in t.heap && start in s.zones && target in s.zones && c in s.zones[start]
    && t.heap == s.heap[c := s.heap[c].(id := t.heap[c].id, x := if HasCoords(target.zone) then column else 0,
                                        y := if HasCoords(target.zone) then y else 0, zone := Some(target), faceDown := faceDown)]
    && var zones := s.zones[start := Without(s.zones[start], c)];
       t.zones == zones[target := if HasCoords(target.zone) then zones[target] + [c] else InsertAt(zones[target], index, c)]
  }

  /** The card is gone. */
  ghost predicate GoneFrom(s: State, t: State, start: Place, c: CardRef)
  {
    && start in s.zones && c in s.zones[start]
    && t.heap == s.heap - {c} && t.zones == s.zones[start := Without(s.zones[start], c)]
  }

  lemma MovedExactly(
    s: State, player: int, start: Place, target: Place, c: CardRef, x: int, y: int, wanted: Option<bool>, undoing: bool,
    grid: Movement.Grid)
    requires Inv(s, NoCard) && player in s.players && Movable(s, c, start, target)
    requires s.heap[c].attached == [] || start.zone == target.zone
    ensures var t := MoveOne(s, player, start, target, c, x, y, wanted, undoing, grid);
            if Vanishes(s, c, start, target) then GoneFrom(s, t, start, c)
            else LandedAt(s, t, start, target, c, x, grid.column(c), y, FaceAfter(s, c, target, wanted))
  {
    hide Inv; hide NoArrowsAt; hide Without; hide OthersStay; hide TakeAway; hide FaceAfter;
    hide Ready; hide BroughtIn; hide MovedOne; hide InsertAt; hide BringIn;
    TakenExactly(s, player, start, target, c, undoing, grid);
    var t := TakeAway(s, player, start, target, c, undoing, grid);
    TargetStays(s, t, target, c);
    BroughtExactly(t, start, target, c, x, y, FaceAfter(s, c, target, wanted), grid.column(c));
  }

  lemma BroughtExactly(s: State, start: Place, target: Place, c: CardRef, index: int, y: int, faceDown: bool, column: nat)
    requires Inv(s, Lifted(c, start)) && Ready(s, start, target, c) && target in s.zones
    ensures var t := BringIn(s, start, target, c, index, y, faceDown, column);
            if Vanishes(s, c, start, target) then t.heap == s.heap - {c} && t.zones == s.zones
            else
              && c in t.heap
              && t.heap == s.heap[c := s.heap[c].(id := t.heap[c].id, x := if HasCoords(target.zone) then column else 0,
                                                  y := if HasCoords(target.zone) then y else 0, zone := Some(target),
                                                  faceDown := faceDown)]
              && t.zones == s.zones[target := if HasCoords(target.zone) then s.zones[target] + [c]
                                              else InsertAt(s.zones[target], index, c)]
  {
    hide Inv; hide NoArrowsAt; hide OthersStay; hide BroughtIn; hide InsertAt;
    TargetHasOwner(s, start, target, c);
  }

  // ------------------------------------------------------------------ one request

  /** moveCard for a single request between different zones. */
  lemma OneSent(
    s: State, player: int, start: Place, target: Place, req: MoveRequest, c: CardRef, x: int, y: int, fix: bool, undoing: bool,
    grid: Movement.Grid)
    requires Inv(s, NoCard) && player in s.players && start in s.zones && target in s.zones && Asked(s, start, req, c)
    requires c in s.heap && !Skipped(s, c, target, grid.columnEmpty)
    requires HasCoords(target.zone) || start.owner == target.owner || s.players[player].judge
    ensures Movable(s, c, start, target)
    ensures var xCoord := if !HasCoords(target.zone) && x <= -1 then |s.zones[target]| else x;
            var t := MoveOne(s, player, start, target, c, xCoord, y, req.faceDown, undoing, grid);
            MoveCards(s, player, start, target, [req], x, y, fix, undoing, grid)
            == (if HasCoords(start.zone) && fix then Compact(t, start, grid.compactedAtEnd, NoCard) else t, RespOk)
  {
    hide Inv; hide OthersStay; hide Conserved; hide MoveLoop; hide Select; hide Sorted; hide CardsOf;
    hide FindCard; hide MoveOne; hide MovedOne; hide Compact; hide Calm; hide SameTrees;
    OneRequest(s, start, target, req, grid.columnEmpty);
    SelectSelects(s, start, target, [req], {}, grid.columnEmpty);
    var m := Selected(c, FindCard(s.heap, s.zones[start], Hidden(start), req.id).value.1, req.faceDown);
    SelectionKnown(s, start, [m]);
    OneSorted(s, m);
    SelectionMovable(s, start, target, [m], [m]);
    OneLoop(s, player, start, target, m, if !HasCoords(target.zone) && x <= -1 then |s.zones[target]| else x, y, undoing, grid);
  }
}

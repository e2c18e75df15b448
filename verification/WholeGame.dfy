/**
 The seats and the cards of one game together: every command about seats with all it does to the cards, and every
 command about cards.  Over all games both sides agree on who takes part in which role and whether the game runs.
 */
module WholeGame {
  import opened Wrappers
  import opened Cards
  import opened Shuffling
  import opened ZoneLists
  import opened GameState
  import opened Movement
  import opened Commands
  import opened Attachments
  import opened Tokens
  import opened Lifecycle
  import opened Setup
  import CardLists
  import CommandRules
  import GameRuns
  import TurnOrder
  import TurnGame
  import TurnRules
  import Admission

  // ------------------------------------------------------------------ cards: who takes part stays the same

  /** The same players in the same roles, and the game runs or not as before. */
  ghost predicate RolesKept(s: State, t: State)
  {
    && t.started == s.started && t.players.Keys == s.players.Keys
    && forall p :: p in s.players ==> SameRole(s.players[p], t.players[p])
  }

  predicate SameRole(a: Player, b: Player)
  {
    b.spectator == a.spectator && b.judge == a.judge && b.conceded == a.conceded
  }

  lemma RolesThen(s: State, t: State, u: State)
    requires RolesKept(s, t) && RolesKept(t, u)
    ensures RolesKept(s, u)
  {
  }

  lemma MovedRoles(s: State, t: State, start: Place, target: Place)
    requires t == s || exists moved :: Conserved(s, t, moved, start, target)
    ensures RolesKept(s, t)
  {
    if t != s {
      var moved :| Conserved(s, t, moved, start, target);
      assert forall p :: p in s.players ==> SameSeat(s.players[p], t.players[p]);
    }
  }

  lemma MoveRoles(
    s: State, player: int, start: Place, target: Place, reqs: seq<MoveRequest>, x: int, y: int,
    fixFreeSpaces: bool, undoing: bool, grid: Grid)
    requires GameOk(s) && Active(s, player) && start in s.zones && target in s.zones
    ensures RolesKept(s, MoveBetween(s, player, start, target, reqs, x, y, fixFreeSpaces, undoing, grid).0)
  {
    hide GameOk; hide Conserved; hide RolesKept; hide MoveBetween;
    MovedRoles(s, MoveBetween(s, player, start, target, reqs, x, y, fixFreeSpaces, undoing, grid).0, start, target);
  }

  lemma DrawRoles(s: State, p: int, number: int)
    requires GameOk(s) && Active(s, p)
    ensures RolesKept(s, DrawCards(s, p, number)) && RolesKept(s, DrawCryptCards(s, p, number))
  {
    hide GameOk; hide DrawCards; hide DrawCryptCards;
    CardLists.DrawTakesTop(s, p, number);
    CardLists.CryptDrawTakesTop(s, p, number);
  }

  lemma UndoRoles(s: State, p: int, grid: Grid)
    requires GameOk(s) && Active(s, p)
    ensures RolesKept(s, Commands.UndoDraw(s, p, grid).0)
  {
    hide GameOk; hide MoveBetween; hide RolesKept; hide Conserved;
    NotRefused(s, p);
    var list := s.players[p].lastDraw;
    ListRoles(s, p, s.players[p].lastDraw);
    if list != [] {
      PopKeeps(s, p, list[..|list| - 1]);
      var u := WithLastDraw(s, p, list[..|list| - 1]);
      ListRoles(s, p, list[..|list| - 1]);
      MoveRoles(u, p, Place(p, Hand), Place(p, Deck), [MoveRequest(list[|list| - 1], None)], 0, 0, false, true, grid);
      RolesThen(s, u, Commands.UndoDraw(s, p, grid).0);
    } else {
      SameRoles(s);
    }
  }

  lemma ListRoles(s: State, p: int, list: seq<int>)
    requires p in s.players
    ensures RolesKept(s, WithLastDraw(s, p, list))
  {
  }

  lemma SameRoles(s: State)
    ensures RolesKept(s, s)
  {
  }

  lemma MulliganRoles(s: State, p: int, number: int, order: seq<CardRef>, grid: Grid)
    requires GameOk(s) && Active(s, p)
    requires multiset(order) == multiset(HandUnderDeck(s, p, grid).zones[Place(p, Deck)])
    ensures RolesKept(s, Mulligan(s, p, number, order, grid))
  {
    hide GameOk; hide MoveBetween; hide RolesKept; hide Conserved; hide DrawCards; hide SamePopulation;
    HandRoles(s, p, grid);
    var s1 := HandUnderDeck(s, p, grid);
    hide HandUnderDeck;
    ReorderKeeps(s1, Place(p, Deck), order);
    var s2 := Reorder(s1, Place(p, Deck), order);
    ReorderRoles(s1, Place(p, Deck), order);
    RolesThen(s, s1, s2);
    DrawRoles(s2, p, number);
    RolesThen(s, s2, Mulligan(s, p, number, order, grid));
  }

  lemma HandRoles(s: State, p: int, grid: Grid)
    requires GameOk(s) && Active(s, p)
    ensures RolesKept(s, HandUnderDeck(s, p, grid))
  {
    hide Inv; hide Seats; hide Tidy; hide MoveBetween; hide RolesKept; hide Conserved;
    NotRefused(s, p);
    ZonesKnown(s, Place(p, Hand), NoCard);
    SameRoles(s);
    if s.zones[Place(p, Hand)] != [] {
      MoveRoles(s, p, Place(p, Hand), Place(p, Deck), WholeHand(s.heap, s.zones[Place(p, Hand)]), -1, 0, false, false, grid);
    }
  }

  lemma ReorderRoles(s: State, zone: Place, order: seq<CardRef>)
    requires zone in s.zones
    ensures RolesKept(s, Reorder(s, zone, order))
  {
  }

  lemma SettingRoles(s: State, t: State)
    requires SameSetting(s, t)
    ensures RolesKept(s, t)
  {
  }

  lemma AttachRoles(s: State, p: int, zone: ZoneName, id: int, goal: AttachTarget, grid: Grid)
    requires GameOk(s) && p in s.players && PlanOk(s, PlanAttach(s, p, zone, id, goal))
    ensures RolesKept(s, Attach(s, p, zone, id, goal, grid).0)
  {
    hide Inv; hide Seats; hide Tidy; hide PlanAttach; hide AttachCard; hide UnattachCommand; hide SameSetting; hide SamePopulation;
    hide Attachable; hide RolesKept;
    SameRoles(s);
    match PlanAttach(s, p, zone, id, goal)
    case Refuse(_) =>
    case Hang(c, q) =>
      PlanIsAttachable(s, p, zone, id, goal);
      SettingRoles(s, AttachCard(s, c, q, grid));
    case Free(c) =>
      SettingRoles(s, UnattachCommand(s, c, grid));
  }

  lemma TokenRoles(
    s: State, p: int, zone: ZoneName, name: string, x: int, y: int, token: bool, ref: CardRef,
    replaced: Option<(ZoneName, int)>, grid: Grid)
    requires GameOk(s) && p in s.players && ref !in s.heap && TokenPlanOk(s, p, zone, name, x, y, token, ref, replaced, grid)
    ensures RolesKept(s, CreateToken(s, p, zone, name, x, y, token, ref, replaced, grid).0)
  {
    hide Inv; hide Seats; hide Tidy; hide PlanAttach; hide SamePopulation; hide Attach; hide RolesKept; hide PlaceToken;
    SameRoles(s);
    if Refusal(s, p).None? && Place(p, zone) in s.zones {
      AddCardKeepsGame(s, ref, Place(p, zone), Positive(x), grid.column(ref), Positive(y), name, token);
      var t := PlaceToken(s, p, zone, name, x, y, token, ref, grid);
      PlacedRoles(s, p, zone, name, x, y, token, ref, grid);
      if replaced.Some? {
        CommandRules.TokenPlanIs(s, p, zone, name, x, y, token, ref, replaced, grid);
        AttachRoles(t, p, replaced.value.0, replaced.value.1, To(Place(p, zone), Some(t.heap[ref].id)), grid);
        RolesThen(s, t, CreateToken(s, p, zone, name, x, y, token, ref, replaced, grid).0);
      }
    }
  }

  lemma PlacedRoles(s: State, p: int, zone: ZoneName, name: string, x: int, y: int, token: bool, ref: CardRef, grid: Grid)
    requires p in s.players && Place(p, zone) in s.zones
    ensures RolesKept(s, PlaceToken(s, p, zone, name, x, y, token, ref, grid))
  {
    hide InsertAt;
  }

  lemma ArrowRoles(s: State, p: int, from: Place, id: int, end: EndRequest, arrow: int)
    requires GameOk(s) && p in s.players
    ensures RolesKept(s, CreateArrow(s, p, from, id, end).0) && RolesKept(s, DeleteArrow(s, p, arrow).0)
  {
    hide Inv; hide Seats; hide Tidy; hide CreateArrow;
    CommandRules.ArrowGoesWhereAsked(s, p, from, id, end);
    CommandRules.DeleteArrowDeletes(s, p, arrow);
    var r := CreateArrow(s, p, from, id, end);
    if r.1 == RespOk {
      var i :| CommandRules.ArrowDrawn(s, r.0, p, from, id, end, i);
    }
  }

  lemma MoveCommandRoles(s: State, cmd: GameRuns.Command)
    requires GameOk(s) && GameRuns.Allowed(s, cmd) && !GameRuns.AboutSeats(cmd) && !GameRuns.AboutLinks(cmd)
    ensures RolesKept(s, GameRuns.ExecMoves(s, cmd))
  {
    hide Inv; hide Seats; hide Tidy; hide MoveBetween; hide Conserved; hide SamePopulation; hide HandUnderDeck; hide RolesKept;
    hide DrawCards; hide DrawCryptCards; hide Commands.UndoDraw; hide Mulligan; hide Reorder;
    match cmd
    case DoDraw(p, n) => DrawRoles(s, p, n);
    case DoDrawCrypt(p, n) => DrawRoles(s, p, n);
    case DoUndo(p, grid) => UndoRoles(s, p, grid);
    case DoMulligan(p, n, order, grid) => MulliganRoles(s, p, n, order, grid);
    case DoShuffle(p, order) =>
      NotRefused(s, p);
      ReorderRoles(s, Place(p, Deck), order);
    case DoMove(p, start, target, reqs, x, y, _, grid) => MoveRoles(s, p, start, target, reqs, x, y, true, false, grid);
  }

  lemma LinkCommandRoles(s: State, cmd: GameRuns.Command)
    requires GameOk(s) && GameRuns.Allowed(s, cmd) && GameRuns.AboutLinks(cmd)
    ensures RolesKept(s, GameRuns.ExecLinks(s, cmd))
  {
    hide Inv; hide Seats; hide Tidy; hide SamePopulation; hide PlanAttach; hide TokenPlanOk; hide PlanOk; hide RolesKept;
    hide Attach; hide CreateToken; hide GameRuns.Flip; hide SameSetting; hide CreateArrow; hide DeleteArrow;
    match cmd
    case DoFlip(p, c, faceDown) => FlipRoles(s, c, faceDown);
    case DoAttach(p, zone, id, goal, grid) => AttachRoles(s, p, zone, id, goal, grid);
    case DoToken(p, zone, name, x, y, token, ref, replaced, grid) =>
      TokenRoles(s, p, zone, name, x, y, token, ref, replaced, grid);
    case DoArrow(p, from, id, end) => ArrowRoles(s, p, from, id, end, 0);
    case DoDeleteArrow(p, arrow) => ArrowRoles(s, p, Place(p, Table), 0, AtPlayer(p), arrow);
  }

  lemma FlipRoles(s: State, c: CardRef, faceDown: bool)
    requires c in s.heap
    ensures RolesKept(s, GameRuns.Flip(s, c, faceDown))
  {
  }

  /** No command about cards changes who takes part, in which role, or whether the game runs. */
  lemma CardCommandRoles(s: State, cmd: GameRuns.Command)
    requires GameOk(s) && GameRuns.Allowed(s, cmd) && !GameRuns.AboutSeats(cmd)
    ensures RolesKept(s, GameRuns.Exec(s, cmd))
  {
    hide GameOk; hide GameRuns.Allowed; hide GameRuns.ExecMoves; hide GameRuns.ExecLinks; hide RolesKept;
    if GameRuns.AboutLinks(cmd) {
      LinkCommandRoles(s, cmd);
    } else {
      MoveCommandRoles(s, cmd);
    }
  }

  // ------------------------------------------------------------------ cards: players coming and going

  lemma ClearedRoles(s: State, t: State, p: int)
    requires Cleared(s, t, p)
    ensures RolesKept(s, t)
  {
    assert forall q :: q in s.players ==> SameSeat(s.players[q], t.players[q]);
  }

  lemma LeaveRoles(s: State, p: int, grid: Grid)
    requires GameOk(s) && p in s.players
    ensures var t := GameRuns.Leave(s, p, grid);
            && t.started == s.started && t.players.Keys == s.players.Keys - {p}
            && forall q :: q in t.players ==> SameRole(s.players[q], t.players[q])
  {
    hide GameOk; hide Cleared; hide GameRuns.TakeLeave; hide GameRuns.Departed;
    ClearedRoles(s, GameRuns.TakeLeave(s, p, grid), p);
  }

  lemma ConcedeRoles(s: State, p: int, grid: Grid)
    requires GameOk(s) && Active(s, p)
    ensures p in s.players
    ensures var t := GameRuns.Concede(s, p, grid);
            && t.started == s.started && t.players.Keys == s.players.Keys
            && forall q :: q in t.players ==>
                 SameRole(if q == p then s.players[q].(conceded := true) else s.players[q], t.players[q])
  {
    hide Inv; hide Seats; hide Tidy; hide Cleared; hide ClearPlayer; hide GameRuns.Departed; hide AllThere;
    GameRuns.AllZonesThere(s, p);
    ClearedRoles(s, ClearPlayer(s, p, grid), p);
  }

  lemma UnconcedeRoles(s: State, p: int, deck: DeckPlan)
    requires GameOk(s) && p in s.players && s.players[p].conceded && !s.players[p].spectator && s.started
    requires GameRuns.DeckFits(GameRuns.SetConceded(s, p, false), p, deck)
    ensures var t := GameRuns.Unconcede(s, p, deck);
            && t.started == s.started && t.players.Keys == s.players.Keys
            && forall q :: q in t.players ==>
                 SameRole(if q == p then s.players[q].(conceded := false) else s.players[q], t.players[q])
  {
    hide GameOk; hide SetUp; hide Unshuffled; hide PlanFits; hide Tidy; hide Inv; hide OpenZones; hide Filling; hide NoZones;
    hide RolesKept;
    var s1 := GameRuns.SetConceded(s, p, false);
    var t := GameRuns.Unconcede(s, p, deck);
    OpenRoles(s1, p);
    FillingRoles(OpenZones(s1, p), SetUp(s1, p, deck), p);
    RolesThen(s1, OpenZones(s1, p), t);
    BackInPlay(s, t, p);
  }

  lemma OpenRoles(s: State, p: int)
    requires p in s.players
    ensures RolesKept(s, OpenZones(s, p))
  {
  }

  lemma BackInPlay(s: State, t: State, p: int)
    requires p in s.players && RolesKept(GameRuns.SetConceded(s, p, false), t)
    ensures t.started == s.started && t.players.Keys == s.players.Keys
    ensures forall q :: q in t.players ==>
              SameRole(if q == p then s.players[q].(conceded := false) else s.players[q], t.players[q])
  {
  }

  lemma FillingRoles(s: State, t: State, p: int)
    requires Filling(s, t, p)
    ensures RolesKept(s, t)
  {
    forall q | q in s.players
      ensures SameRole(s.players[q], t.players[q])
    {
      assert t.players[q].(nextCardId := s.players[q].nextCardId) == s.players[q];
    }
  }

  lemma FilledRoles(s: State, t: State, ps: set<int>)
    requires GameRuns.SeatsFilled(s, t, ps)
    ensures RolesKept(s, t)
  {
    forall q | q in s.players
      ensures SameRole(s.players[q], t.players[q])
    {
      assert t.players[q].(nextCardId := s.players[q].nextCardId) == s.players[q];
    }
  }

  lemma StartRoles(s: State, decks: seq<(int, DeckPlan)>)
    requires GameOk(s) && !s.started && GameRuns.AllFit(s, decks)
    requires GameRuns.Owners(decks) == set p | p in s.players && !s.players[p].spectator
    ensures var t := GameRuns.StartGame(s, decks);
            && t.started && t.players.Keys == s.players.Keys
            && forall q :: q in t.players ==> SameRole(s.players[q].(conceded := false), t.players[q])
  {
    hide Inv; hide Seats; hide Tidy; hide GameRuns.AllFit; hide GameRuns.SeatsFilled; hide GameRuns.Owners; hide GameRuns.SetUpAll;
    FilledRoles(s, GameRuns.SetUpAll(s, decks), GameRuns.Owners(decks));
  }

  // ------------------------------------------------------------------ both sides

  /** The seats and the cards of a game. */
  datatype Game = Game(table: TurnGame.Table, cards: State)

  predicate RoleOf(seat: TurnGame.Seat, player: Player)
  {
    player.spectator == seat.spectator && player.judge == seat.judge && player.conceded == seat.conceded
  }

  ghost predicate Agree(v: TurnGame.Table, s: State)
  {
    && s.started == v.started && s.players.Keys == v.seats.Keys
    && forall p :: p in v.seats ==> RoleOf(v.seats[p], s.players[p])
  }

  lemma RolesAgree(v: TurnGame.Table, s: State, t: State)
    requires Agree(v, s) && RolesKept(s, t)
    ensures Agree(v, t)
  {
  }

  /** What a command about seats may need for the cards: columns for cards taken off, and decks to be set up. */
  datatype Supplies = Supplies(grid: Grid, decks: seq<(int, DeckPlan)>, deck: DeckPlan)

  /** After p has gone or conceded: a game that is over loses all cards, a turn that moves on all arrows. */
  function Aftermath(v: TurnGame.Table, t: TurnGame.Table, p: int): seq<GameRuns.Command>
  {
    if t.closed then []
    else if v.started && !t.started then [GameRuns.DoStop]
    else if t.started && v.active == p then [GameRuns.DoPhase]
    else []
  }

  predicate MayTurn(v: TurnGame.Table, p: int)
  {
    v.started && p in v.seats && TurnRules.NoTurnFor(v, p) == TurnGame.RespOk
  }

  /** What a command about seats does to the cards, the table being v before and t after it. */
  function CardSide(v: TurnGame.Table, t: TurnGame.Table, cmd: TurnGame.Command, x: Supplies): seq<GameRuns.Command>
  {
    match cmd
    case Join(visitor) => if v.nextId in t.seats then [GameRuns.DoJoin(v.nextId, visitor.spectator, visitor.asJudge)] else []
    case Leave(p) => [GameRuns.DoLeave(p, x.grid)] + Aftermath(v, t, p)
    case Kick(_, _, p) => if p in v.seats && p !in t.seats then [GameRuns.DoLeave(p, x.grid)] + Aftermath(v, t, p) else []
    case Disconnect(p, _) => if p !in t.seats then [GameRuns.DoLeave(p, x.grid)] + Aftermath(v, t, p) else []
    case StartSignal => if t.started && !v.started then [GameRuns.DoStart(x.decks), GameRuns.DoPhase] else []
    case Concede(p) => if v.started && p in v.seats && TurnGame.Playing(v.seats[p]) then [GameRuns.DoConcede(p, x.grid)] + Aftermath(v, t, p) else []
    case Unconcede(p) => if t != v then [GameRuns.DoUnconcede(p, x.deck)] else []
    case EndTurn(p) => if MayTurn(v, p) then [GameRuns.DoPhase] else []
    case SetPhase(p, _) => if MayTurn(v, p) && (v.seats[p].judge || v.active == p) then [GameRuns.DoPhase] else []
    case _ => []
  }

  // ------------------------------------------------------------------ one command about seats

  /** The card commands can be given one after the other, and lead from s to t. */
  ghost predicate Leads(s: State, cmds: seq<GameRuns.Command>, t: State)
  {
    GameOk(s) && GameRuns.AllowedRun(s, cmds) && GameRuns.Run(s, cmds) == t && GameOk(t)
  }

  lemma NoCommand(s: State)
    requires GameOk(s)
    ensures Leads(s, [], s)
  {
    hide GameOk;
  }

  lemma OneCommand(s: State, cmd: GameRuns.Command)
    requires GameOk(s) && GameRuns.Allowed(s, cmd)
    ensures Leads(s, [cmd], GameRuns.Exec(s, cmd))
  {
    hide GameOk; hide GameRuns.Allowed; hide GameRuns.Exec;
    var t := GameRuns.Exec(s, cmd);
    assert [cmd][1..] == [] && [cmd][0] == cmd;
    assert GameRuns.AllowedRun(t, []) && GameRuns.Run(t, []) == t;
    assert GameRuns.AllowedRun(s, [cmd]);
    assert GameRuns.Run(s, [cmd]) == GameRuns.Run(t, [cmd][1..]);
  }

  lemma {:induction false} CommandsThen(s: State, a: seq<GameRuns.Command>, t: State, b: seq<GameRuns.Command>, u: State)
    requires Leads(s, a, t) && Leads(t, b, u)
    ensures Leads(s, a + b, u)
    decreases |a|
  {
    hide GameOk; hide GameRuns.Allowed; hide GameRuns.Exec;
    if a == [] {
      assert a + b == b;
    } else {
      assert (a + b)[1..] == a[1..] + b;
      CommandsThen(GameRuns.Exec(s, a[0]), a[1..], t, b, u);
    }
  }

  /** Nobody but p, if at all, has conceded since; a game that has stopped forgets all concessions. */
  ghost predicate SeatsSince(v: TurnGame.Table, t: TurnGame.Table, p: int)
  {
    && t.seats.Keys <= v.seats.Keys && (t.started ==> v.started)
    && forall q :: q in t.seats ==>
         && t.seats[q].spectator == v.seats[q].spectator && t.seats[q].judge == v.seats[q].judge
         && t.seats[q].conceded == (t.started && (v.seats[q].conceded || q == p))
  }

  /** The cards have followed as far as p is concerned. */
  ghost predicate CardsSince(v: TurnGame.Table, s: State, p: int)
  {
    && s.started == v.started && s.players.Keys <= v.seats.Keys
    && forall q :: q in s.players ==>
         && s.players[q].spectator == v.seats[q].spectator && s.players[q].judge == v.seats[q].judge
         && s.players[q].conceded == (v.started && (v.seats[q].conceded || q == p))
  }

  ghost predicate Half(v: TurnGame.Table, t: TurnGame.Table, s: State, p: int)
  {
    SeatsSince(v, t, p) && CardsSince(v, s, p) && s.players.Keys == t.seats.Keys && (t.closed ==> t.started == v.started)
  }

  lemma NoConcessions(v: TurnGame.Table, settings: TurnGame.Settings)
    requires TurnGame.Sound(v, settings)
    ensures forall q :: q in v.seats && v.seats[q].conceded ==> v.started
  {
  }

  lemma AftermathAgrees(v: TurnGame.Table, t: TurnGame.Table, s: State, p: int) returns (u: State)
    requires GameOk(s) && Half(v, t, s, p)
    ensures Leads(s, Aftermath(v, t, p), u) && Agree(t, u)
  {
    hide Inv; hide Seats; hide Tidy; hide Leads;
    NoCommand(s);
    if !t.closed && v.started && !t.started {
      OneCommand(s, GameRuns.DoStop);
      u := GameRuns.Exec(s, GameRuns.DoStop);
      assert u == GameRuns.StopGame(s);
    } else if !t.closed && t.started && v.active == p {
      OneCommand(s, GameRuns.DoPhase);
      u := GameRuns.Exec(s, GameRuns.DoPhase);
      assert u == ClearArrows(s);
    } else {
      u := s;
    }
  }

  lemma LeavingHalves(v: TurnGame.Table, settings: TurnGame.Settings, s: State, p: int)
    requires settings.maxPlayers >= 1 && TurnGame.Sound(v, settings) && !v.closed && p in v.seats
    requires s.started == v.started && s.players.Keys == v.seats.Keys - {p}
    requires forall q :: q in s.players ==> RoleOf(v.seats[q], s.players[q])
    ensures Half(v, TurnGame.Left(v, p), s, p)
  {
    NoConcessions(v, settings);
    LeftSeats(v, p);
    ClosedAsItWas(v, p);
    hide TurnGame.Left; hide TurnGame.Sound; hide SeatsSince;
  }

  lemma LeftSeats(v: TurnGame.Table, p: int)
    requires p in v.seats && !v.closed && forall q :: q in v.seats && v.seats[q].conceded ==> v.started
    ensures SeatsSince(v, TurnGame.Left(v, p), p) && TurnGame.Left(v, p).seats.Keys == v.seats.Keys - {p}
  {
    TurnRules.LeavingTakesASeat(v, p);
    TurnRules.LeavingStopsIff(v, p);
    hide TurnGame.Left; hide TurnRules.StillPlaying;
  }

  lemma ClosedAsItWas(v: TurnGame.Table, p: int)
    requires p in v.seats && !v.closed
    ensures var t := TurnGame.Left(v, p); t.closed ==> t == v.(seats := v.seats - {p}, closed := true)
  {
    TurnRules.LeavingHandsOver(v, p);
    hide TurnGame.CarriedOn;
    hide TurnGame.Participants;
    var gone := v.(seats := v.seats - {p});
    var hosted := if v.host == p && TurnGame.Participants(gone) != {} then gone.(host := TurnOrder.Least(TurnGame.Participants(gone))) else gone;
    TurnRules.GoingOn(hosted, p);
  }

  /** Leaving, on both sides. */
  lemma DepartureAgrees(v: TurnGame.Table, settings: TurnGame.Settings, s: State, p: int, grid: Grid) returns (u: State)
    requires settings.maxPlayers >= 1 && TurnGame.Sound(v, settings) && !v.closed && p in v.seats && GameOk(s) && Agree(v, s)
    ensures Leads(s, [GameRuns.DoLeave(p, grid)] + Aftermath(v, TurnGame.Left(v, p), p), u) && Agree(TurnGame.Left(v, p), u)
  {
    hide Inv; hide Seats; hide Tidy; hide Leads; hide TurnGame.Left; hide Aftermath; hide TurnGame.Sound; hide Half;
    hide GameRuns.Departed; hide GameRuns.Leave;
    OneCommand(s, GameRuns.DoLeave(p, grid));
    var t := GameRuns.Exec(s, GameRuns.DoLeave(p, grid));
    assert t == GameRuns.Leave(s, p, grid);
    LeaveRoles(s, p, grid);
    LeavingHalves(v, settings, t, p);
    u := AftermathAgrees(v, TurnGame.Left(v, p), t, p);
    CommandsThen(s, [GameRuns.DoLeave(p, grid)], t, Aftermath(v, TurnGame.Left(v, p), p), u);
  }

  lemma ConcedingHalves(v: TurnGame.Table, settings: TurnGame.Settings, s: State, p: int)
    requires settings.maxPlayers >= 1 && TurnGame.Sound(v, settings) && !v.closed && v.started
    requires p in v.seats && TurnGame.Playing(v.seats[p])
    requires s.started == v.started && s.players.Keys == v.seats.Keys
    requires forall q :: q in s.players ==>
               RoleOf(if q == p then v.seats[q].(conceded := true) else v.seats[q], s.players[q])
    ensures Half(v, TurnGame.Conceded(v, p).0, s, p)
  {
    TurnRules.ConcedeAnswer(v, p);
    hide TurnGame.Conceded; hide TurnGame.Sound; hide TurnRules.Conceding; hide SeatsSince; hide CardsSince;
    ConcededSeats(v, TurnGame.Conceded(v, p).0, p);
    ConcededCards(v, s, p);
  }

  lemma ConcededSeats(v: TurnGame.Table, t: TurnGame.Table, p: int)
    requires p in v.seats && v.started && TurnRules.Conceding(v, t, p)
    ensures SeatsSince(v, t, p) && t.seats.Keys == v.seats.Keys && t.closed == v.closed
  {
    hide TurnRules.StillPlaying; hide TurnOrder.NextActive;
  }

  lemma ConcededCards(v: TurnGame.Table, s: State, p: int)
    requires v.started && p in v.seats && s.started == v.started && s.players.Keys == v.seats.Keys
    requires forall q :: q in s.players ==>
               RoleOf(if q == p then v.seats[q].(conceded := true) else v.seats[q], s.players[q])
    ensures CardsSince(v, s, p)
  {
  }

  /** Conceding, on both sides. */
  lemma ConcessionAgrees(v: TurnGame.Table, settings: TurnGame.Settings, s: State, p: int, grid: Grid) returns (u: State)
    requires settings.maxPlayers >= 1 && TurnGame.Sound(v, settings) && !v.closed && v.started
    requires p in v.seats && TurnGame.Playing(v.seats[p]) && GameOk(s) && Agree(v, s)
    ensures var t := TurnGame.Conceded(v, p).0; Leads(s, [GameRuns.DoConcede(p, grid)] + Aftermath(v, t, p), u) && Agree(t, u)
  {
    hide Inv; hide Seats; hide Tidy; hide Leads; hide TurnGame.Conceded; hide Aftermath; hide TurnGame.Sound; hide Half;
    hide GameRuns.Departed; hide GameRuns.Concede;
    assert RoleOf(v.seats[p], s.players[p]);
    OneCommand(s, GameRuns.DoConcede(p, grid));
    var t := GameRuns.Exec(s, GameRuns.DoConcede(p, grid));
    assert t == GameRuns.Concede(s, p, grid);
    ConcedeRoles(s, p, grid);
    assert forall q :: q in v.seats ==> RoleOf(v.seats[q], s.players[q]);
    ConcedingHalves(v, settings, t, p);
    u := AftermathAgrees(v, TurnGame.Conceded(v, p).0, t, p);
    CommandsThen(s, [GameRuns.DoConcede(p, grid)], t, Aftermath(v, TurnGame.Conceded(v, p).0, p), u);
  }

  /** What the environment has to bring: decks for those who begin or come back. */
  ghost predicate Supplied(v: TurnGame.Table, t: TurnGame.Table, s: State, cmd: TurnGame.Command, x: Supplies)
  {
    match cmd
    case StartSignal =>
      t.started && !v.started ==>
        && Inv(s, NoCard) && GameRuns.AllFit(s, x.decks)
        && GameRuns.Owners(x.decks) == set p | p in s.players && !s.players[p].spectator
    case Unconcede(p) =>
      t != v ==> p in s.players && GameRuns.DeckFits(GameRuns.SetConceded(s, p, false), p, x.deck)
    case _ => true
  }

  lemma JoinAgrees(v: TurnGame.Table, settings: TurnGame.Settings, s: State, visitor: TurnGame.Visitor, x: Supplies)
    returns (u: State)
    requires settings.maxPlayers >= 1 && TurnGame.Sound(v, settings) && !v.closed && GameOk(s) && Agree(v, s)
    ensures var t := TurnGame.Joined(v, settings, visitor).0; Leads(s, CardSide(v, t, TurnGame.Join(visitor), x), u) && Agree(t, u)
  {
    hide Inv; hide Seats; hide Tidy; hide Leads; hide TurnGame.CheckJoin;
    NoCommand(s);
    Admission.AdmittedIff(v, settings, visitor);
    assert v.nextId !in v.seats;
    var t := TurnGame.Joined(v, settings, visitor).0;
    if TurnGame.Joined(v, settings, visitor).1 == TurnGame.RespOk {
      TurnRules.JoinedSeat(v, settings, visitor);
      var join := GameRuns.DoJoin(v.nextId, visitor.spectator, visitor.asJudge);
      OneCommand(s, join);
      u := GameRuns.Exec(s, join);
      assert u == GameRuns.Join(s, v.nextId, visitor.spectator, visitor.asJudge);
    } else {
      assert t == v;
      u := s;
    }
  }

  lemma StartIsCommand(s: State, decks: seq<(int, DeckPlan)>)
    requires GameOk(s) && !s.started && GameRuns.AllFit(s, decks)
    requires GameRuns.Owners(decks) == set p | p in s.players && !s.players[p].spectator
    ensures GameRuns.Allowed(s, GameRuns.DoStart(decks))
    ensures GameRuns.Exec(s, GameRuns.DoStart(decks)) == GameRuns.StartGame(s, decks)
  {
    hide Inv; hide Seats; hide Tidy; hide GameRuns.AllFit; hide GameRuns.Owners; hide GameRuns.StartGame;
  }

  lemma UnconcedeIsCommand(s: State, p: int, deck: DeckPlan)
    requires GameOk(s) && p in s.players && s.players[p].conceded && !s.players[p].spectator && s.started
    requires GameRuns.DeckFits(GameRuns.SetConceded(s, p, false), p, deck)
    ensures GameRuns.Allowed(s, GameRuns.DoUnconcede(p, deck))
    ensures GameRuns.Exec(s, GameRuns.DoUnconcede(p, deck)) == GameRuns.Unconcede(s, p, deck)
  {
    hide Inv; hide Seats; hide Tidy; hide GameRuns.DeckFits; hide GameRuns.Unconcede; hide GameRuns.SetConceded; hide Refs;
    hide GameRuns.ExecMoves; hide GameRuns.ExecLinks; hide GameRuns.ExecLeaving; hide Active; hide GameRuns.AllFit;
  }

  lemma PhaseIsCommand(s: State)
    requires GameOk(s)
    ensures GameRuns.Allowed(s, GameRuns.DoPhase) && GameRuns.Exec(s, GameRuns.DoPhase) == ClearArrows(s)
    ensures RolesKept(s, ClearArrows(s))
  {
    hide Inv; hide Seats; hide Tidy;
  }

  lemma StartAgrees(v: TurnGame.Table, settings: TurnGame.Settings, s: State, x: Supplies) returns (u: State)
    requires settings.maxPlayers >= 1 && TurnGame.Sound(v, settings) && !v.closed && GameOk(s) && Agree(v, s)
    requires Supplied(v, TurnGame.StartedIfReady(v, settings), s, TurnGame.StartSignal, x)
    ensures var t := TurnGame.StartedIfReady(v, settings); Leads(s, CardSide(v, t, TurnGame.StartSignal, x), u) && Agree(t, u)
  {
    hide GameOk; hide Inv; hide Leads; hide TurnGame.StartedIfReady; hide GameRuns.AllFit; hide GameRuns.Owners;
    hide GameRuns.StartGame; hide GameRuns.Exec; hide GameRuns.Allowed; hide ClearArrows; hide RolesKept; hide TurnGame.Sound;
    NoCommand(s);
    var t := TurnGame.StartedIfReady(v, settings);
    StartsOnce(v, settings);
    if t.started && !v.started {
      var start := GameRuns.DoStart(x.decks);
      StartIsCommand(s, x.decks);
      OneCommand(s, start);
      var s1 := GameRuns.Exec(s, start);
      StartRoles(s, x.decks);
      StartedAgree(v, t, settings, s, s1);
      PhaseIsCommand(s1);
      OneCommand(s1, GameRuns.DoPhase);
      u := GameRuns.Exec(s1, GameRuns.DoPhase);
      RolesAgree(t, s1, u);
      CommandsThen(s, [start], s1, [GameRuns.DoPhase], u);
      assert [start] + [GameRuns.DoPhase] == [start, GameRuns.DoPhase];
    } else {
      u := s;
    }
  }

  lemma StartedAgree(v: TurnGame.Table, t: TurnGame.Table, settings: TurnGame.Settings, s: State, s1: State)
    requires settings.maxPlayers >= 1 && TurnGame.Sound(v, settings) && t == TurnGame.StartedIfReady(v, settings)
    requires t.started && !v.started && Agree(v, s) && s1.started && s1.players.Keys == s.players.Keys
    requires forall q :: q in s1.players ==> SameRole(s.players[q].(conceded := false), s1.players[q])
    ensures Agree(t, s1)
  {
    hide TurnGame.StartedIfReady; hide TurnGame.Sound;
    StartedSeats(v, settings);
  }

  lemma StartedSeats(v: TurnGame.Table, settings: TurnGame.Settings)
    requires settings.maxPlayers >= 1 && TurnGame.Sound(v, settings)
    ensures var t := TurnGame.StartedIfReady(v, settings);
            t.started && !v.started ==>
              t.seats.Keys == v.seats.Keys && forall p :: p in v.seats ==> t.seats[p] == v.seats[p].(conceded := false, ready := false)
  {
    SeatIdsKnown(v, settings);
    TurnRules.StartsIff(v, settings);
    hide TurnGame.StartedIfReady; hide TurnRules.Players; hide TurnGame.Sound;
  }

  lemma SeatIdsKnown(v: TurnGame.Table, settings: TurnGame.Settings)
    requires TurnGame.Sound(v, settings)
    ensures forall p :: p in v.seats ==> p >= 0
  {
  }

  lemma StartsOnce(v: TurnGame.Table, settings: TurnGame.Settings)
    requires settings.maxPlayers >= 1 && TurnGame.Sound(v, settings) && !v.closed
    ensures v.started || !TurnGame.StartedIfReady(v, settings).started ==> TurnGame.StartedIfReady(v, settings) == v
  {
    TurnRules.StartsIff(v, settings);
    if v.started {
      TurnGame.NoRestart(v, settings);
    }
  }

  lemma UnconcessionAgrees(v: TurnGame.Table, s: State, p: int, x: Supplies) returns (u: State)
    requires p in v.seats && GameOk(s) && Agree(v, s) && Supplied(v, TurnGame.Unconceded(v, p).0, s, TurnGame.Unconcede(p), x)
    ensures var t := TurnGame.Unconceded(v, p).0; Leads(s, CardSide(v, t, TurnGame.Unconcede(p), x), u) && Agree(t, u)
  {
    hide GameOk; hide Inv; hide Leads; hide GameRuns.DeckFits; hide GameRuns.Unconcede; hide GameRuns.Exec; hide GameRuns.Allowed;
    NoCommand(s);
    assert RoleOf(v.seats[p], s.players[p]);
    var t := TurnGame.Unconceded(v, p).0;
    if t != v {
      UnconcedeIsCommand(s, p, x.deck);
      OneCommand(s, GameRuns.DoUnconcede(p, x.deck));
      u := GameRuns.Exec(s, GameRuns.DoUnconcede(p, x.deck));
      UnconcedeRoles(s, p, x.deck);
      BackAgrees(v, t, s, u, p);
    } else {
      u := s;
    }
  }

  lemma BackAgrees(v: TurnGame.Table, t: TurnGame.Table, s: State, u: State, p: int)
    requires p in v.seats && Agree(v, s) && t == v.(seats := v.seats[p := v.seats[p].(conceded := false)])
    requires u.started == s.started && u.players.Keys == s.players.Keys
    requires forall q :: q in u.players ==>
               SameRole(if q == p then s.players[q].(conceded := false) else s.players[q], u.players[q])
    ensures Agree(t, u)
  {
  }

  lemma TurnAgrees(v: TurnGame.Table, t: TurnGame.Table, s: State, moves: bool) returns (u: State)
    requires GameOk(s) && Agree(v, s) && t.started == v.started && t.seats.Keys == v.seats.Keys
    requires forall p :: p in v.seats ==> Admission.SameHolder(v.seats[p], t.seats[p]) && t.seats[p].conceded == v.seats[p].conceded
    ensures Leads(s, if moves then [GameRuns.DoPhase] else [], u) && Agree(t, u)
  {
    hide Inv; hide Seats; hide Tidy; hide Leads;
    NoCommand(s);
    if moves {
      OneCommand(s, GameRuns.DoPhase);
      u := GameRuns.Exec(s, GameRuns.DoPhase);
      assert u == ClearArrows(s);
    } else {
      u := s;
    }
  }

  /** Every command about seats can be followed by the cards, and both sides agree again. */
  lemma SeatsLeadCards(v: TurnGame.Table, settings: TurnGame.Settings, s: State, cmd: TurnGame.Command, x: Supplies)
    returns (u: State)
    requires settings.maxPlayers >= 1 && TurnGame.Sound(v, settings) && TurnGame.Allowed(v, cmd) && GameOk(s) && Agree(v, s)
    requires Supplied(v, TurnGame.Exec(v, settings, cmd), s, cmd, x)
    ensures var t := TurnGame.Exec(v, settings, cmd); Leads(s, CardSide(v, t, cmd, x), u) && Agree(t, u)
  {
    hide GameOk; hide Leads; hide TurnGame.Joined; hide TurnGame.Left; hide TurnGame.StartedIfReady; hide Agree; hide Aftermath;
    hide TurnGame.Sound; hide Supplied; hide TurnGame.Conceded;
    var t := TurnGame.Exec(v, settings, cmd);
    match cmd {
      case Join(visitor) => u := JoinAgrees(v, settings, s, visitor, x);
      case Leave(p) => u := DepartureAgrees(v, settings, s, p, x.grid);
      case Kick(_, _, p) => u := GoneAgrees(v, t, settings, s, p, x.grid);
      case Disconnect(p, _) => u := GoneAgrees(v, t, settings, s, p, x.grid);
      case StartSignal => u := StartAgrees(v, settings, s, x);
      case Concede(p) =>
        if v.started && TurnGame.Playing(v.seats[p]) {
          u := ConcessionAgrees(v, settings, s, p, x.grid);
        } else {
          TurnRules.ConcedeAnswer(v, p);
          NoCommand(s);
          u := s;
        }
      case Unconcede(p) => u := UnconcessionAgrees(v, s, p, x);
      case EndTurn(p) =>
        TurnRules.EndTurnAnswer(v, settings, p);
        u := TurnAgrees(v, t, s, MayTurn(v, p));
      case SetPhase(p, phase) =>
        TurnRules.PhaseAnswer(v, p, phase);
        u := TurnAgrees(v, t, s, MayTurn(v, p) && (v.seats[p].judge || v.active == p));
      case ChooseDeck(_) => u := TurnAgrees(v, t, s, false);
      case SetReady(_, _) => u := TurnAgrees(v, t, s, false);
      case ReverseOrder(_) => u := TurnAgrees(v, t, s, false);
    }
  }

  lemma GoneAgrees(v: TurnGame.Table, t: TurnGame.Table, settings: TurnGame.Settings, s: State, p: int, grid: Grid)
    returns (u: State)
    requires settings.maxPlayers >= 1 && TurnGame.Sound(v, settings) && !v.closed && GameOk(s) && Agree(v, s)
    requires t == v || (p in v.seats && t == TurnGame.Left(v, p))
    ensures Agree(t, u)
    ensures Leads(s, if p in v.seats && p !in t.seats then [GameRuns.DoLeave(p, grid)] + Aftermath(v, t, p) else [], u)
  {
    hide GameOk; hide Leads; hide TurnGame.Left; hide Agree; hide Aftermath; hide TurnGame.Sound;
    if p in v.seats && t == TurnGame.Left(v, p) {
      TurnRules.LeavingTakesASeat(v, p);
      u := DepartureAgrees(v, settings, s, p, grid);
    } else {
      NoCommand(s);
      u := s;
    }
  }

  // ------------------------------------------------------------------ whole games

  /** A command about seats with what it needs, or a command about cards. */
  datatype Happening = AtTable(cmd: TurnGame.Command, supplies: Supplies) | WithCards(play: GameRuns.Command)

  ghost predicate Fine(g: Game, settings: TurnGame.Settings)
  {
    settings.maxPlayers >= 1 && TurnGame.Sound(g.table, settings) && GameOk(g.cards) && Agree(g.table, g.cards)
  }

  ghost predicate Possible(g: Game, settings: TurnGame.Settings, h: Happening)
    requires Fine(g, settings)
  {
    match h
    case AtTable(cmd, x) =>
      && TurnGame.Allowed(g.table, cmd)
      && Supplied(g.table, TurnGame.Exec(g.table, settings, cmd), g.cards, cmd, x)
    case WithCards(cmd) => !g.table.closed && !GameRuns.AboutSeats(cmd) && GameRuns.Allowed(g.cards, cmd)
  }

  lemma CardsFollow(g: Game, settings: TurnGame.Settings, cmd: TurnGame.Command, x: Supplies)
    requires Fine(g, settings) && Possible(g, settings, AtTable(cmd, x))
    ensures var t := TurnGame.Exec(g.table, settings, cmd);
            var cmds := CardSide(g.table, t, cmd, x);
            GameRuns.AllowedRun(g.cards, cmds) && Fine(Game(t, GameRuns.Run(g.cards, cmds)), settings)
  {
    hide TurnGame.Exec; hide TurnGame.Sound; hide Inv; hide Seats; hide Tidy; hide Agree; hide CardSide; hide Supplied;
    TurnGame.ExecSound(g.table, settings, cmd);
    var u := SeatsLeadCards(g.table, settings, g.cards, cmd, x);
  }

  ghost function After(g: Game, settings: TurnGame.Settings, h: Happening): (t: Game)
    requires Fine(g, settings) && Possible(g, settings, h)
    ensures Fine(t, settings)
  {
    hide TurnGame.Sound; hide Inv; hide Seats; hide Tidy; hide Agree; hide CardSide; hide Supplied; hide TurnGame.Exec;
    hide GameRuns.Allowed; hide GameRuns.Exec; hide RolesKept;
    match h
    case AtTable(cmd, x) =>
      CardsFollow(g, settings, cmd, x);
      var t := TurnGame.Exec(g.table, settings, cmd);
      Game(t, GameRuns.Run(g.cards, CardSide(g.table, t, cmd, x)))
    case WithCards(cmd) =>
      CardCommandRoles(g.cards, cmd);
      RolesAgree(g.table, g.cards, GameRuns.Exec(g.cards, cmd));
      Game(g.table, GameRuns.Exec(g.cards, cmd))
  }

  /** t is what the game has come to after all that. */
  ghost predicate Comes(g: Game, settings: TurnGame.Settings, hs: seq<Happening>, t: Game)
    requires Fine(g, settings)
    decreases |hs|
  {
    if hs == [] then t == g
    else Possible(g, settings, hs[0]) && Comes(After(g, settings, hs[0]), settings, hs[1..], t)
  }

  /** A game just created: its creator is seated and has no cards. */
  function Created(creator: TurnGame.Visitor, asJudge: bool): Game
  {
    Game(TurnGame.Created(creator, asJudge), GameRuns.Join(GameRuns.NEW_GAME, 0, creator.spectator, asJudge))
  }

  lemma CreatedFine(settings: TurnGame.Settings, creator: TurnGame.Visitor, asJudge: bool)
    requires settings.maxPlayers >= 1
    ensures Fine(Created(creator, asJudge), settings)
  {
    hide Inv; hide Seats; hide Tidy; hide TurnGame.Sound;
    TurnGame.CreatedSound(settings, creator, asJudge);
    GameRuns.NewGameOk();
    GameRuns.JoinKeeps(GameRuns.NEW_GAME, 0, creator.spectator, asJudge);
  }

  lemma {:induction false} StaysFine(g: Game, settings: TurnGame.Settings, hs: seq<Happening>, t: Game)
    requires Fine(g, settings) && Comes(g, settings, hs, t)
    ensures Fine(t, settings)
    decreases |hs|
  {
    hide Fine; hide Possible; hide After;
    if hs != [] {
      StaysFine(After(g, settings, hs[0]), settings, hs[1..], t);
    }
  }

  /** Seats and cards tell the same story. */
  ghost predicate OneStory(v: TurnGame.Table, s: State)
  {
    && Agree(v, s)
    && (v.started && !v.closed ==> v.active in TurnRules.StillPlaying(v) && forall z :: Place(v.active, z) in s.zones)
    && (forall q :: q in s.zones <==> v.started && q.owner in TurnRules.StillPlaying(v))
    && (forall c :: c in s.heap ==>
          v.started && s.heap[c].zone.Some? && s.heap[c].zone.value.owner in TurnRules.StillPlaying(v))
    && (forall p :: p in s.players && s.players[p].arrows != map[] ==> v.started && p in TurnRules.StillPlaying(v))
  }

  lemma FineIsOneStory(g: Game, settings: TurnGame.Settings)
    requires Fine(g, settings)
    ensures OneStory(g.table, g.cards)
  {
    var v, s := g.table, g.cards;
    hide Ids; hide Forest; hide Arrows; hide Tidy;
    TurnRules.SameSets(v);
    ActiveMeans(v, s);
    hide TurnGame.Eligible; hide Active; hide TurnRules.StillPlaying;
    forall c | c in s.heap
      ensures v.started && s.heap[c].zone.Some? && s.heap[c].zone.value.owner in TurnRules.StillPlaying(v)
    {
      InItsZone(s, c, NoCard);
    }
    forall q
      ensures q in s.zones <==> v.started && q.owner in TurnRules.StillPlaying(v)
    {
      assert q == Place(q.owner, q.zone);
    }
  }

  lemma ActiveMeans(v: TurnGame.Table, s: State)
    requires Agree(v, s)
    ensures forall p :: Active(s, p) <==> v.started && p in TurnRules.StillPlaying(v)
  {
  }

  /**
   In every game, however its commands about seats and about cards are mixed: both sides agree on who takes part,
   in which role, and whether the game runs; the player whose turn it is has all zones; exactly those still playing
   a running game have zones, cards and arrows, so that a game that has not begun or has stopped holds no card.
   */
  lemma WholeGamesAgree(settings: TurnGame.Settings, creator: TurnGame.Visitor, asJudge: bool, hs: seq<Happening>, t: Game)
    requires settings.maxPlayers >= 1
    requires (CreatedFine(settings, creator, asJudge); Comes(Created(creator, asJudge), settings, hs, t))
    ensures OneStory(t.table, t.cards)
    ensures Placed(t.cards, NoCard) && Ids(t.cards, NoCard) && Forest(t.cards, NoCard) && Arrows(t.cards, NoCard)
  {
    CreatedFine(settings, creator, asJudge);
    StaysFine(Created(creator, asJudge), settings, hs, t);
    FineIsOneStory(t, settings);
    hide OneStory; hide Placed; hide Ids; hide Forest; hide Arrows; hide Seats; hide Tidy; hide TurnGame.Sound; hide Agree; hide Comes;
  }
}

/** The game as a table of seats: who may act, who hosts, whose turn it is. */
module TurnGame {
  import opened Wrappers
  import opened Collections
  import opened TurnOrder

  datatype Response =
    | RespOk
    | RespContextError
    | RespUserLevelTooLow
    | RespWrongPassword
    | RespOnlyBuddies
    | RespInIgnoreList
    | RespSpectatorsNotAllowed
    | RespGameFull
    | RespFunctionNotAllowed
    | RespGameNotStarted
    | RespNameNotFound

  datatype Seat = Seat(name: string, spectator: bool, judge: bool, hasDeck: bool, ready: bool, conceded: bool)

  datatype Table = Table(seats: map<int, Seat>, nextId: int, host: int, active: int, phase: int,
                         started: bool, closed: bool, reversed: bool)

  /** What a game is created with and never changes. */
  datatype Settings = Settings(creator: string, maxPlayers: int, password: string, onlyBuddies: bool,
                               onlyRegistered: bool, spectatorsAllowed: bool, spectatorsNeedPassword: bool)

  /** Somebody asking to be let in; `buddy` and `ignored` are the database's answers about the creator's lists. */
  datatype Visitor = Visitor(name: string, password: string, spectator: bool, override: bool, asJudge: bool,
                             isJudge: bool, isModerator: bool, isRegistered: bool, buddy: bool, ignored: bool)

  function Playing(seat: Seat): bool
  {
    !seat.spectator && !seat.conceded
  }

  /** Those nextTurn may stop at. */
  function Eligible(v: Table): set<int>
  {
    set p | p in v.seats && Playing(v.seats[p])
  }

  function Participants(v: Table): set<int>
  {
    set p | p in v.seats && !v.seats[p].spectator
  }

  /** What every reachable table satisfies. */
  predicate Sound(v: Table, settings: Settings)
  {
    && (forall p :: p in v.seats ==> 0 <= p < v.nextId)
    && (!v.closed ==> v.host in v.seats)
    && |Participants(v)| <= settings.maxPlayers
    && (forall p, q :: p in v.seats && q in v.seats && p != q ==> v.seats[p].name != v.seats[q].name)
    && (forall p :: p in v.seats && v.seats[p].ready ==> v.seats[p].hasDeck && !v.seats[p].spectator && !v.started)
    && (forall p :: p in v.seats && v.seats[p].conceded ==> v.started && !v.seats[p].spectator)
    && (v.started && !v.closed ==> v.active in Eligible(v))
  }

  // ------------------------------------------------------------------ what the operations mean

  function Created(creator: Visitor, asJudge: bool): Table
  {
    Table(map[0 := Seat(creator.name, creator.spectator, asJudge, false, false, false)], 1, 0, -1, -1, false, false, false)
  }

  /** The player the next turn is counted from; one who has left counts as nobody. */
  function TurnFrom(v: Table): int
  {
    if v.active in v.seats then v.active else -1
  }

  function Turned(v: Table): (t: Table)
    requires Eligible(v) != {}
    ensures t.active in Eligible(t) && Eligible(t) == Eligible(v)
  {
    v.(active := NextActive(Eligible(v), TurnFrom(v), v.reversed), phase := 0)
  }

  function Stopped(v: Table): Table
  {
    v.(started := false, seats := map p | p in v.seats :: v.seats[p].(conceded := false))
  }

  function StoppedIfFinished(v: Table): (t: Table)
    ensures t.started ==> t == v && |Eligible(v)| > 1
  {
    if |Eligible(v)| > 1 then v else Stopped(v)
  }

  /** The game stops when fewer than two are left playing; otherwise the turn moves on if it was p's. */
  function CarriedOn(v: Table, p: int): Table
  {
    var t := StoppedIfFinished(v);
    if t.started && t.active == p then
      SomeEligible(v);
      Turned(t)
    else t
  }

  lemma SomeEligible(v: Table)
    ensures |Eligible(v)| > 1 ==> Eligible(v) != {}
  {
  }

  function CheckJoin(v: Table, settings: Settings, visitor: Visitor): Response
  {
    if exists p :: p in v.seats && v.seats[p].name == visitor.name then RespContextError
    else if visitor.asJudge && !visitor.isJudge then RespUserLevelTooLow
    else if Unwelcome(settings, visitor).Some? && !(visitor.override && visitor.isModerator) then
      Unwelcome(settings, visitor).value
    else if !visitor.spectator && (v.started || |Participants(v)| >= settings.maxPlayers) then RespGameFull
    else RespOk
  }

  /** The restrictions a moderator may override. */
  function Unwelcome(settings: Settings, visitor: Visitor): Option<Response>
  {
    if visitor.password != settings.password && !(visitor.spectator && !settings.spectatorsNeedPassword) then
      Some(RespWrongPassword)
    else if !visitor.isRegistered && settings.onlyRegistered then Some(RespUserLevelTooLow)
    else if settings.onlyBuddies && visitor.name != settings.creator && !visitor.buddy then Some(RespOnlyBuddies)
    else if visitor.ignored then Some(RespInIgnoreList)
    else if visitor.spectator && !settings.spectatorsAllowed then Some(RespSpectatorsNotAllowed)
    else None
  }

  function Seated(v: Table, settings: Settings, name: string, spectator: bool, judge: bool): Table
  {
    v.(seats := v.seats[v.nextId := Seat(name, spectator, judge, false, false, false)],
       nextId := v.nextId + 1,
       host := if !spectator && name == settings.creator then v.nextId else v.host)
  }

  function Joined(v: Table, settings: Settings, visitor: Visitor): (Table, Response)
  {
    var response := CheckJoin(v, settings, visitor);
    if response != RespOk then (v, response)
    else (Seated(v, settings, visitor.name, visitor.spectator, visitor.asJudge), RespOk)
  }

  /** removePlayer: a host hands over to the first participant, or the game closes. */
  function Left(v: Table, p: int): Table
    requires p in v.seats
  {
    var gone := v.(seats := v.seats - {p});
    if v.host == p && Participants(gone) == {} then gone.(closed := true)
    else
      var hosted := if v.host == p then gone.(host := Least(Participants(gone))) else gone;
      if v.seats[p].spectator then hosted else CarriedOn(hosted, p)
  }

  function Kicked(v: Table, kicker: int, isModerator: bool, p: int): (Table, Response)
    requires kicker in v.seats
  {
    if v.host != kicker && !isModerator then (v, RespFunctionNotAllowed)
    else if p !in v.seats then (v, RespNameNotFound)
    else (Left(v, p), RespOk)
  }

  /** disconnectClient: registered participants keep their seat. */
  function Disconnected(v: Table, p: int, isRegistered: bool): Table
    requires p in v.seats
  {
    if !isRegistered || v.seats[p].spectator then Left(v, p) else v
  }

  function DeckChosen(v: Table, p: int): (Table, Response)
    requires p in v.seats
  {
    if v.seats[p].spectator then (v, RespFunctionNotAllowed)
    else (v.(seats := v.seats[p := v.seats[p].(hasDeck := true)]), RespOk)
  }

  function ReadySet(v: Table, p: int, ready: bool): (Table, Response)
    requires p in v.seats
  {
    var seat := v.seats[p];
    if seat.spectator then (v, RespFunctionNotAllowed)
    else if !seat.hasDeck || v.started || seat.ready == ready then (v, RespContextError)
    else (v.(seats := v.seats[p := seat.(ready := ready)]), RespOk)
  }

  predicate AllReady(v: Table, settings: Settings)
  {
    |Participants(v)| >= settings.maxPlayers && forall p :: p in Participants(v) ==> v.seats[p].ready
  }

  function Begun(v: Table): Table
  {
    v.(started := true, active := -1, seats := map p | p in v.seats :: v.seats[p].(conceded := false, ready := false))
  }

  function StartedIfReady(v: Table, settings: Settings): Table
    requires settings.maxPlayers >= 1
  {
    if AllReady(v, settings) then
      AllBegin(v);
      Turned(Begun(v))
    else v
  }

  lemma AllBegin(v: Table)
    ensures Eligible(Begun(v)) == Participants(v) == Participants(Begun(v))
    ensures |Participants(v)| >= 1 ==> Participants(v) != {}
  {
    var t := Begun(v);
    forall p
      ensures p in Eligible(t) <==> p in Participants(v)
    {
    }
    assert Participants(v) == Participants(t);
  }

  function Conceded(v: Table, p: int): (Table, Response)
    requires p in v.seats
  {
    if v.seats[p].spectator then (v, RespFunctionNotAllowed)
    else if !v.started then (v, RespGameNotStarted)
    else if v.seats[p].conceded then (v, RespContextError)
    else (CarriedOn(v.(seats := v.seats[p := v.seats[p].(conceded := true)]), p), RespOk)
  }

  function Unconceded(v: Table, p: int): (Table, Response)
    requires p in v.seats
  {
    if v.seats[p].spectator then (v, RespFunctionNotAllowed)
    else if !v.started then (v, RespGameNotStarted)
    else if !v.seats[p].conceded then (v, RespContextError)
    else (v.(seats := v.seats[p := v.seats[p].(conceded := false)]), RespOk)
  }

  /** May p end turns and set phases? */
  function Barred(v: Table, p: int): Response
    requires p in v.seats
  {
    if !v.started then RespGameNotStarted
    else if v.seats[p].judge then RespOk
    else if v.seats[p].spectator then RespFunctionNotAllowed
    else if v.seats[p].conceded then RespContextError
    else RespOk
  }

  function TurnEnded(v: Table, p: int): (Table, Response)
    requires p in v.seats && (v.started ==> Eligible(v) != {})
  {
    if Barred(v, p) != RespOk then (v, Barred(v, p)) else (Turned(v), RespOk)
  }

  function PhaseSet(v: Table, p: int, phase: int): (Table, Response)
    requires p in v.seats
  {
    if Barred(v, p) != RespOk then (v, Barred(v, p))
    else if !v.seats[p].judge && v.active != p then (v, RespContextError)
    else (v.(phase := phase), RespOk)
  }

  function OrderReversed(v: Table, p: int): (Table, Response)
    requires p in v.seats
  {
    if v.seats[p].spectator then (v, RespFunctionNotAllowed)
    else if !v.started then (v, RespGameNotStarted)
    else if v.seats[p].conceded then (v, RespContextError)
    else (v.(reversed := !v.reversed), RespOk)
  }

  // ------------------------------------------------------------------ every run is sound

  datatype Command =
    | Join(visitor: Visitor)
    | Leave(player: int)
    | Kick(kicker: int, isModerator: bool, player: int)
    | Disconnect(player: int, isRegistered: bool)
    | ChooseDeck(player: int)
    | SetReady(player: int, ready: bool)
    | StartSignal
    | Concede(player: int)
    | Unconcede(player: int)
    | EndTurn(player: int)
    | SetPhase(player: int, phase: int)
    | ReverseOrder(player: int)

  /** The game still lives, and the command comes from somebody seated in it. */
  predicate Allowed(v: Table, cmd: Command)
  {
    && !v.closed
    && match cmd
       case Join(_) => true
       case Leave(p) => p in v.seats
       case Kick(kicker, _, _) => kicker in v.seats
       case Disconnect(p, _) => p in v.seats
       case ChooseDeck(p) => p in v.seats
       case SetReady(p, _) => p in v.seats
       case StartSignal => true
       case Concede(p) => p in v.seats
       case Unconcede(p) => p in v.seats
       case EndTurn(p) => p in v.seats
       case SetPhase(p, _) => p in v.seats
       case ReverseOrder(p) => p in v.seats
  }

  function Exec(v: Table, settings: Settings, cmd: Command): Table
    requires settings.maxPlayers >= 1 && Sound(v, settings) && Allowed(v, cmd)
  {
    match cmd
    case Join(visitor) => Joined(v, settings, visitor).0
    case Leave(p) => Left(v, p)
    case Kick(kicker, isModerator, p) => Kicked(v, kicker, isModerator, p).0
    case Disconnect(p, isRegistered) => Disconnected(v, p, isRegistered)
    case ChooseDeck(p) => DeckChosen(v, p).0
    case SetReady(p, ready) => ReadySet(v, p, ready).0
    case StartSignal => StartedIfReady(v, settings)
    case Concede(p) => Conceded(v, p).0
    case Unconcede(p) => Unconceded(v, p).0
    case EndTurn(p) => TurnEnded(v, p).0
    case SetPhase(p, phase) => PhaseSet(v, p, phase).0
    case ReverseOrder(p) => OrderReversed(v, p).0
  }

  lemma SeatedSound(v: Table, settings: Settings, name: string, spectator: bool, judge: bool)
    requires Sound(v, settings) && !v.closed
    requires !spectator ==> !v.started && |Participants(v)| < settings.maxPlayers
    requires forall p :: p in v.seats ==> v.seats[p].name != name
    ensures Sound(Seated(v, settings, name, spectator, judge), settings)
  {
    SeatedParticipants(v, settings, name, spectator, judge);
    hide Participants; hide Eligible;
  }

  lemma SeatedParticipants(v: Table, settings: Settings, name: string, spectator: bool, judge: bool)
    requires forall p :: p in v.seats ==> p < v.nextId
    ensures var t := Seated(v, settings, name, spectator, judge);
            && Participants(t) == Participants(v) + (if spectator then {} else {v.nextId})
            && v.nextId !in Participants(v)
            && (spectator ==> Eligible(t) == Eligible(v))
  {
    var t := Seated(v, settings, name, spectator, judge);
    forall p
      ensures p in Participants(t) <==> p in Participants(v) || (p == v.nextId && !spectator)
      ensures spectator ==> (p in Eligible(t) <==> p in Eligible(v))
    {
    }
  }

  /** All of Sound but the claim about the active player. */
  predicate NearlySound(v: Table, settings: Settings)
  {
    Sound(v.(started := v.started, closed := true), settings) && (!v.closed ==> v.host in v.seats)
  }

  lemma CarriedOnSound(v: Table, settings: Settings, p: int)
    requires NearlySound(v, settings)
    requires v.started && v.active != p && !v.closed ==> v.active in Eligible(v)
    ensures Sound(CarriedOn(v, p), settings)
  {
    SomeEligible(v);
    if |Eligible(v)| <= 1 {
      assert Participants(Stopped(v)) == Participants(v);
    } else if v.active == p && v.started {
      assert Participants(Turned(v)) == Participants(v);
    } else {
      assert Participants(v.(closed := true)) == Participants(v);
    }
  }

  lemma LeftSound(v: Table, settings: Settings, p: int)
    requires Sound(v, settings) && !v.closed && p in v.seats
    ensures Sound(Left(v, p), settings)
  {
    var gone := v.(seats := v.seats - {p});
    FewerParticipants(v, gone);
    assert v.seats[p].spectator ==> Eligible(gone) == Eligible(v);
    assert v.started && v.active != p ==> v.active in Eligible(gone);
    if v.host == p && Participants(gone) == {} {
      assert Participants(gone.(closed := true)) == {};
    } else {
      var hosted := if v.host == p then gone.(host := Least(Participants(gone))) else gone;
      assert Participants(hosted.(closed := true)) == Participants(gone);
      assert Participants(hosted) == Participants(gone);
      assert Eligible(hosted) == Eligible(gone);
      if !v.seats[p].spectator {
        CarriedOnSound(hosted, settings, p);
      }
    }
  }

  lemma FewerParticipants(v: Table, t: Table)
    requires Participants(t) <= Participants(v)
    ensures |Participants(t)| <= |Participants(v)|
  {
    SubsetSize(Participants(t), Participants(v));
  }

  lemma ConcededSound(v: Table, settings: Settings, p: int)
    requires Sound(v, settings) && !v.closed && p in v.seats
    ensures Sound(Conceded(v, p).0, settings)
  {
    hide CarriedOn;
    if Conceded(v, p).1 == RespOk {
      var t := v.(seats := v.seats[p := v.seats[p].(conceded := true)]);
      assert Participants(t.(closed := true)) == Participants(v);
      CarriedOnSound(t, settings, p);
    }
  }

  lemma UnconcededSound(v: Table, settings: Settings, p: int)
    requires Sound(v, settings) && !v.closed && p in v.seats
    ensures Sound(Unconceded(v, p).0, settings)
  {
    assert Participants(Unconceded(v, p).0) == Participants(v);
  }

  lemma StartSound(v: Table, settings: Settings)
    requires settings.maxPlayers >= 1 && Sound(v, settings) && !v.closed
    ensures Sound(StartedIfReady(v, settings), settings)
  {
    AllBegin(v);
    if AllReady(v, settings) {
      assert Participants(Turned(Begun(v))) == Participants(v);
    }
  }

  lemma PreparationSound(v: Table, settings: Settings, p: int, ready: bool)
    requires Sound(v, settings) && !v.closed && p in v.seats
    ensures Sound(DeckChosen(v, p).0, settings) && Sound(ReadySet(v, p, ready).0, settings)
  {
    hide Sound;
    if !v.seats[p].spectator {
      SeatPrepared(v, settings, p, v.seats[p].(hasDeck := true));
      if v.seats[p].hasDeck && !v.started {
        SeatPrepared(v, settings, p, v.seats[p].(ready := ready));
      }
    }
  }

  lemma SeatPrepared(v: Table, settings: Settings, p: int, seat: Seat)
    requires Sound(v, settings) && p in v.seats && seat == v.seats[p].(hasDeck := true, ready := seat.ready)
    requires seat.ready ==> v.seats[p].ready || (seat.hasDeck && !seat.spectator && !v.started)
    ensures Sound(v.(seats := v.seats[p := seat]), settings)
  {
    var t := v.(seats := v.seats[p := seat]);
    assert Participants(t) == Participants(v) && Eligible(t) == Eligible(v) by {
      forall q
        ensures q in Participants(t) <==> q in Participants(v)
        ensures q in Eligible(t) <==> q in Eligible(v)
      {
      }
    }
    hide Participants; hide Eligible;
  }

  lemma TurnSound(v: Table, settings: Settings, p: int, phase: int)
    requires Sound(v, settings) && !v.closed && p in v.seats
    ensures Sound(TurnEnded(v, p).0, settings) && Sound(PhaseSet(v, p, phase).0, settings)
    ensures Sound(OrderReversed(v, p).0, settings)
  {
    assert Participants(TurnEnded(v, p).0) == Participants(v);
    assert Participants(PhaseSet(v, p, phase).0) == Participants(v);
    assert Participants(OrderReversed(v, p).0) == Participants(v);
    assert Eligible(PhaseSet(v, p, phase).0) == Eligible(v) == Eligible(OrderReversed(v, p).0);
  }

  lemma ExecSound(v: Table, settings: Settings, cmd: Command)
    requires settings.maxPlayers >= 1 && Sound(v, settings) && Allowed(v, cmd)
    ensures Sound(Exec(v, settings, cmd), settings)
  {
    hide Sound; hide Left; hide Conceded; hide Unconceded; hide TurnEnded; hide PhaseSet; hide OrderReversed;
    hide DeckChosen; hide ReadySet; hide StartedIfReady; hide Seated;
    match cmd
    case Join(visitor) =>
      if CheckJoin(v, settings, visitor) == RespOk {
        SeatedSound(v, settings, visitor.name, visitor.spectator, visitor.asJudge);
      }
    case Leave(p) => LeftSound(v, settings, p);
    case Kick(kicker, isModerator, p) => if p in v.seats { LeftSound(v, settings, p); }
    case Disconnect(p, isRegistered) => LeftSound(v, settings, p);
    case ChooseDeck(p) => PreparationSound(v, settings, p, true);
    case SetReady(p, ready) => PreparationSound(v, settings, p, ready);
    case StartSignal => StartSound(v, settings);
    case Concede(p) => ConcededSound(v, settings, p);
    case Unconcede(p) => UnconcededSound(v, settings, p);
    case EndTurn(p) => TurnSound(v, settings, p, 0);
    case SetPhase(p, phase) => TurnSound(v, settings, p, phase);
    case ReverseOrder(p) => TurnSound(v, settings, p, 0);
  }

  ghost predicate Reachable(v: Table, settings: Settings, cmds: seq<Command>, t: Table)
    requires settings.maxPlayers >= 1 && Sound(v, settings)
    decreases |cmds|
  {
    if cmds == [] then t == v
    else
      && Allowed(v, cmds[0])
      && (ExecSound(v, settings, cmds[0]); Reachable(Exec(v, settings, cmds[0]), settings, cmds[1..], t))
  }

  lemma CreatedSound(settings: Settings, creator: Visitor, asJudge: bool)
    requires settings.maxPlayers >= 1
    ensures Sound(Created(creator, asJudge), settings)
  {
    var t := Created(creator, asJudge);
    assert Participants(t) == if creator.spectator then {} else {0};
  }

  /** A game created by `creator` and played through `cmds` ends up as `t`. */
  ghost predicate PlayedOut(settings: Settings, creator: Visitor, asJudge: bool, cmds: seq<Command>, t: Table)
    requires settings.maxPlayers >= 1
  {
    CreatedSound(settings, creator, asJudge);
    Reachable(Created(creator, asJudge), settings, cmds, t)
  }

  /**
   Turn safety over every run: in a running game that has not closed the active player is seated,
   plays and has not conceded, so the loop in nextTurn always finds somebody; the host is seated; no
   more than maxPlayers participate; and nobody is ready while a game runs, so it cannot restart.
   */
  lemma {:induction false} TurnSafety(settings: Settings, creator: Visitor, asJudge: bool, cmds: seq<Command>, t: Table)
    requires settings.maxPlayers >= 1
    requires PlayedOut(settings, creator, asJudge, cmds, t)
    ensures t.started && !t.closed ==> t.active in t.seats && Playing(t.seats[t.active])
    ensures !t.closed ==> t.host in t.seats
    ensures |Participants(t)| <= settings.maxPlayers
    ensures t.started ==> StartedIfReady(t, settings) == t
  {
    CreatedSound(settings, creator, asJudge);
    RunSound(Created(creator, asJudge), settings, cmds, t);
    NoRestart(t, settings);
  }

  lemma NoRestart(v: Table, settings: Settings)
    requires settings.maxPlayers >= 1 && Sound(v, settings)
    ensures v.started ==> !AllReady(v, settings)
  {
    if v.started && |Participants(v)| >= settings.maxPlayers {
      assert Participants(v) != {};
      var p := Least(Participants(v));
      assert !v.seats[p].ready;
    }
  }

  lemma {:induction false} RunSound(v: Table, settings: Settings, cmds: seq<Command>, t: Table)
    requires settings.maxPlayers >= 1 && Sound(v, settings) && Reachable(v, settings, cmds, t)
    ensures Sound(t, settings)
    decreases |cmds|
  {
    hide Sound; hide Exec; hide Allowed;
    if cmds != [] {
      ExecSound(v, settings, cmds[0]);
      RunSound(Exec(v, settings, cmds[0]), settings, cmds[1..], t);
    }
  }

  lemma OneStep(v: Table, settings: Settings, cmds: seq<Command>, cmd: Command, rest: seq<Command>, t: Table)
    requires settings.maxPlayers >= 1 && Sound(v, settings) && Allowed(v, cmd) && cmds == [cmd] + rest
    requires Sound(Exec(v, settings, cmd), settings) && Reachable(Exec(v, settings, cmd), settings, rest, t)
    ensures Reachable(v, settings, cmds, t)
  {
    hide Sound; hide Exec; hide Allowed;
    assert cmds[1..] == rest;
  }

  lemma AlreadyThere(v: Table, settings: Settings)
    requires settings.maxPlayers >= 1 && Sound(v, settings)
    ensures Reachable(v, settings, [], v)
  {
  }

  /** A game of one: the creator chooses a deck, gets ready, starts and leaves. */
  lemma ShortGame(settings: Settings, creator: Visitor) returns (t: Table)
    requires settings == Settings("a", 1, "", false, false, true, false)
    requires creator == Visitor("a", "", false, false, false, false, false, false, false, false)
    ensures PlayedOut(settings, creator, false, [ChooseDeck(0), SetReady(0, true), StartSignal, Leave(0)], t)
    ensures t.started && t.closed && Eligible(t) == {}
  {
    hide Sound; hide Reachable; hide Participants; hide Eligible; hide NextActive;
    var seat := Seat("a", false, false, true, false, false);
    var v0 := Created(creator, false);
    CreatedSound(settings, creator, false);
    var v1 := Table(map[0 := seat], 1, 0, -1, -1, false, false, false);
    ExecSound(v0, settings, ChooseDeck(0));
    assert v1 == Exec(v0, settings, ChooseDeck(0));
    var v2 := Table(map[0 := seat.(ready := true)], 1, 0, -1, -1, false, false, false);
    ExecSound(v1, settings, SetReady(0, true));
    assert v2 == Exec(v1, settings, SetReady(0, true));
    var v3 := Table(map[0 := seat], 1, 0, 0, 0, true, false, false);
    ExecSound(v2, settings, StartSignal);
    OnePlays(v2, settings);
    assert v3 == Exec(v2, settings, StartSignal);
    t := Table(map[], 1, 0, 0, 0, true, true, false);
    ExecSound(v3, settings, Leave(0));
    NobodyPlays(v3.(seats := map[]));
    assert v3.seats - {0} == map[];
    assert t == Exec(v3, settings, Leave(0));
    NobodyPlays(t);
    AlreadyThere(t, settings);
    OneStep(v3, settings, [Leave(0)], Leave(0), [], t);
    OneStep(v2, settings, [StartSignal, Leave(0)], StartSignal, [Leave(0)], t);
    OneStep(v1, settings, [SetReady(0, true), StartSignal, Leave(0)], SetReady(0, true), [StartSignal, Leave(0)], t);
    OneStep(v0, settings, [ChooseDeck(0), SetReady(0, true), StartSignal, Leave(0)], ChooseDeck(0),
            [SetReady(0, true), StartSignal, Leave(0)], t);
  }

  lemma OnePlays(v: Table, settings: Settings)
    requires v.seats.Keys == {0} && !v.seats[0].spectator && v.seats[0].ready && settings.maxPlayers == 1
    ensures AllReady(v, settings) && StartedIfReady(v, settings).active == 0
  {
    assert Participants(v) == {0};
    AllBegin(v);
  }

  lemma NobodyPlays(v: Table)
    requires v.seats == map[]
    ensures Participants(v) == {} && Eligible(v) == {}
  {
  }

  /**
   "Not closed" is needed: when the only participant of a running game leaves, the game closes with
   `started` still set, and nobody is left whom the loop in nextTurn could stop at.
   */
  lemma ClosingStrandsTheTurn()
    ensures exists settings: Settings, creator: Visitor, cmds: seq<Command>, t: Table ::
              && settings.maxPlayers >= 1 && PlayedOut(settings, creator, false, cmds, t)
              && t.started && t.closed && Eligible(t) == {}
  {
    hide PlayedOut; hide Eligible;
    var t := ShortGame(Settings("a", 1, "", false, false, true, false),
                       Visitor("a", "", false, false, false, false, false, false, false, false));
  }

  // ------------------------------------------------------------------ rotation at the table

  /** While nobody comes, goes or concedes, turns rotate through the eligible players. */
  function TurnsEnded(v: Table, n: nat): (t: Table)
    requires Eligible(v) != {}
    ensures Eligible(t) == Eligible(v) && t.seats == v.seats && t.reversed == v.reversed
  {
    if n == 0 then v else Turned(TurnsEnded(v, n - 1))
  }

  lemma {:induction false} TurnsFollowOrder(v: Table, n: nat)
    requires v.active in Eligible(v)
    ensures TurnsEnded(v, n).active == AfterTurns(Eligible(v), v.active, v.reversed, n)
  {
    if n > 0 {
      TurnsFollowOrder(v, n - 1);
    }
  }

  lemma TableRotation(v: Table, e: int) returns (n: nat)
    requires v.active in Eligible(v) && e in Eligible(v)
    ensures TurnsEnded(v, |Eligible(v)|).active == v.active
    ensures n < |Eligible(v)| && TurnsEnded(v, n).active == e
    ensures forall m: nat :: m < |Eligible(v)| && TurnsEnded(v, m).active == e ==> m == n
  {
    hide AfterTurns; hide TurnsEnded; hide NextActive; hide Eligible;
    n := RotationVisitsEachOnce(Eligible(v), v.active, e, v.reversed);
    TurnsFollowOrder(v, |Eligible(v)|);
    TurnsFollowOrder(v, n);
    forall m: nat | m < |Eligible(v)| && TurnsEnded(v, m).active == e
      ensures m == n
    {
      TurnsFollowOrder(v, m);
    }
  }

  /** nextTurn, reverseTurnOrder, nextTurn: the same player is active again. */
  lemma TurnReverseTurn(v: Table, p: int)
    requires v.started && v.active in Eligible(v) && p in v.seats && Playing(v.seats[p])
    ensures var turned := TurnEnded(v, p).0;
            var reversed := OrderReversed(turned, p).0;
            && Eligible(reversed) != {}
            && TurnEnded(reversed, p).0 == reversed.(active := v.active)
  {
    ReverseUndoesTurn(Eligible(v), v.active);
    var turned := TurnEnded(v, p).0;
    assert Eligible(OrderReversed(turned, p).0) == Eligible(v);
  }

  /**
   When the active player leaves a game that goes on, the turn restarts at the lowest eligible id, or at
   the highest in reversed order, wherever the leaver sat.
   */
  lemma LeavingRestartsTheRound(v: Table, settings: Settings, p: int)
    requires Sound(v, settings) && v.started && !v.closed && v.active == p
    ensures var t := Left(v, p);
            !t.closed && t.started ==>
              Eligible(t) != {} && t.active == if v.reversed then Greatest(Eligible(t)) else Least(Eligible(t))
  {
    var gone := v.(seats := v.seats - {p});
    var t := Left(v, p);
    if !t.closed && t.started {
      assert Eligible(t) == Eligible(gone) == Eligible(gone.(host := t.host));
      assert Below(Eligible(gone), -1) == {};
      assert Above(Eligible(gone), -1) == Eligible(gone);
    }
  }

  /**
   So the turn goes on to the next in order exactly if the leaver was the first or the last of those
   who could have the turn, whatever the direction of play.
   */
  lemma LeavingPassesOnIff(v: Table, settings: Settings, p: int)
    requires Sound(v, settings) && v.started && !v.closed && v.active == p
    ensures var t := Left(v, p);
            !t.closed && t.started ==>
              && Eligible(t) == Eligible(v) - {p} && Eligible(t) != {}
              && (t.active == NextActive(Eligible(t), p, v.reversed)
                  <==> Below(Eligible(v), p) == {} || Above(Eligible(v), p) == {})
  {
    var t := Left(v, p);
    if !t.closed && t.started {
      LeavingRestartsTheRound(v, settings, p);
      EligibleWithout(v, t, p);
      var e := Eligible(t);
      assert Below(Eligible(v), p) == Below(e, p) && Above(Eligible(v), p) == Above(e, p);
      EndsOfOrder(e, p);
    }
  }

  lemma EligibleWithout(v: Table, t: Table, p: int)
    requires p in v.seats && t == Left(v, p) && t.started && !t.closed
    ensures Eligible(t) == Eligible(v) - {p}
  {
    var gone := v.(seats := v.seats - {p});
    assert t.seats == gone.seats;
    assert forall q :: q in Eligible(t) <==> q in Eligible(v) - {p};
  }

  /** The lowest id is the next one above p just if nobody is on one of p's sides; likewise the highest below p. */
  lemma EndsOfOrder(e: set<int>, p: int)
    requires e != {} && p !in e
    ensures Least(e) == NextActive(e, p, false) <==> Below(e, p) == {} || Above(e, p) == {}
    ensures Greatest(e) == NextActive(e, p, true) <==> Below(e, p) == {} || Above(e, p) == {}
  {
    assert Least(e) < p ==> Least(e) in Below(e, p);
    assert Least(e) > p ==> Below(e, p) == {} && Least(e) in Above(e, p);
    assert Greatest(e) > p ==> Greatest(e) in Above(e, p);
    assert Greatest(e) < p ==> Above(e, p) == {} && Greatest(e) in Below(e, p);
    if Above(e, p) != {} {
      var a := Least(Above(e, p));
      assert a in e;
    }
    if Below(e, p) != {} {
      var b := Greatest(Below(e, p));
      assert b in e;
    }
  }

  function SeatOf(name: string): Seat
  {
    Seat(name, false, false, true, false, false)
  }

  /** Three players, the middle one leaves during his or her turn: it goes back to the first instead of on to the third. */
  lemma MiddlePlayerLeaves(settings: Settings)
    requires settings.maxPlayers >= 3
    ensures var v := Table(map[0 := SeatOf("a"), 1 := SeatOf("b"), 2 := SeatOf("c")], 3, 0, 1, 0, true, false, false);
            && Sound(v, settings)
            && var t := Left(v, 1);
               && t.started && !t.closed && t.active == 0
               && Eligible(t) != {} && NextActive(Eligible(t), 1, t.reversed) == 2
  {
    var v := Table(map[0 := SeatOf("a"), 1 := SeatOf("b"), 2 := SeatOf("c")], 3, 0, 1, 0, true, false, false);
    var t := Left(v, 1);
    ThreePlay(v, settings);
    hide Sound;
    var gone := v.(seats := v.seats - {1});
    assert Eligible(gone) == {0, 2};
    LeavingRestartsTheRound(v, settings, 1);
    EligibleWithout(v, t, 1);
    assert Eligible(t) == {0, 2} && Above({0, 2}, 1) == {2};
  }

  lemma ThreePlay(v: Table, settings: Settings)
    requires settings.maxPlayers >= 3
    requires v == Table(map[0 := SeatOf("a"), 1 := SeatOf("b"), 2 := SeatOf("c")], 3, 0, 1, 0, true, false, false)
    ensures Sound(v, settings) && Eligible(v) == {0, 1, 2}
  {
    assert Participants(v) == {0, 1, 2} && Eligible(v) == {0, 1, 2};
  }
}

/** Who is let into a game, condition by condition, and what every seat says about its holder. */
module Admission {
  import opened TurnOrder
  import opened TurnGame

  // ------------------------------------------------------------------ the conditions

  /** What the creator's settings and the database demand of a visitor; a moderator may override it. */
  predicate Entitled(settings: Settings, visitor: Visitor)
  {
    (visitor.override && visitor.isModerator) ||
    (&& (visitor.password == settings.password || (visitor.spectator && !settings.spectatorsNeedPassword))
     && (settings.onlyRegistered ==> visitor.isRegistered)
     && (settings.onlyBuddies ==> visitor.buddy || visitor.name == settings.creator)
     && !visitor.ignored
     && (visitor.spectator ==> settings.spectatorsAllowed))
  }

  /** Nobody of that name is seated. */
  predicate NewName(v: Table, name: string)
  {
    forall p :: p in v.seats ==> v.seats[p].name != name
  }

  /** The game has not begun, and a place to play at is free. */
  predicate HasRoom(v: Table, settings: Settings)
  {
    !v.started && |set p | p in v.seats && !v.seats[p].spectator| < settings.maxPlayers
  }

  /**
   A visitor is admitted exactly if the name is new, a judge's seat is asked for by judges only, the
   restrictions are met or overridden, and there is room for those who want to play.
   */
  lemma AdmittedIff(v: Table, settings: Settings, visitor: Visitor)
    ensures Joined(v, settings, visitor).1 == RespOk
            <==> && NewName(v, visitor.name)
                 && (visitor.asJudge ==> visitor.isJudge)
                 && Entitled(settings, visitor)
                 && (visitor.spectator || HasRoom(v, settings))
  {
    SamePlayers(v);
    hide Participants;
  }

  lemma SamePlayers(v: Table)
    ensures Participants(v) == set p | p in v.seats && !v.seats[p].spectator
  {
  }

  /** An obstacle and how it is answered. */
  datatype Obstacle = Obstacle(met: bool, answer: Response)

  /** In the order in which they are reported. */
  function Obstacles(v: Table, settings: Settings, visitor: Visitor): seq<Obstacle>
  {
    var bound := !(visitor.override && visitor.isModerator);
    [ Obstacle(!NewName(v, visitor.name), RespContextError),
      Obstacle(visitor.asJudge && !visitor.isJudge, RespUserLevelTooLow),
      Obstacle(bound && visitor.password != settings.password && (!visitor.spectator || settings.spectatorsNeedPassword),
               RespWrongPassword),
      Obstacle(bound && settings.onlyRegistered && !visitor.isRegistered, RespUserLevelTooLow),
      Obstacle(bound && settings.onlyBuddies && !visitor.buddy && visitor.name != settings.creator, RespOnlyBuddies),
      Obstacle(bound && visitor.ignored, RespInIgnoreList),
      Obstacle(bound && visitor.spectator && !settings.spectatorsAllowed, RespSpectatorsNotAllowed),
      Obstacle(!visitor.spectator && !HasRoom(v, settings), RespGameFull) ]
  }

  /** The i-th obstacle is the first one met. */
  predicate FirstMet(obstacles: seq<Obstacle>, i: nat)
  {
    i < |obstacles| && obstacles[i].met && forall j :: 0 <= j < i ==> !obstacles[j].met
  }

  /** A refused visitor is told the first obstacle, and takes no seat. */
  lemma FirstObstacleIsTold(v: Table, settings: Settings, visitor: Visitor, i: nat)
    requires FirstMet(Obstacles(v, settings, visitor), i)
    ensures Joined(v, settings, visitor) == (v, Obstacles(v, settings, visitor)[i].answer)
  {
    SamePlayers(v);
    hide Participants;
    var o := Obstacles(v, settings, visitor);
    assert forall j :: 0 <= j < i ==> !o[j].met;
    assert i > 0 ==> !o[0].met;
    assert i > 1 ==> !o[1].met;
    assert i > 2 ==> !o[2].met;
    assert i > 3 ==> !o[3].met;
    assert i > 4 ==> !o[4].met;
    assert i > 5 ==> !o[5].met;
    assert i > 6 ==> !o[6].met;
  }

  /** One of the obstacles is met unless the visitor is admitted. */
  lemma RefusedForAReason(v: Table, settings: Settings, visitor: Visitor)
    ensures Joined(v, settings, visitor).1 != RespOk
            <==> exists i: nat :: i < 8 && Obstacles(v, settings, visitor)[i].met
  {
    AdmittedIff(v, settings, visitor);
    var o := Obstacles(v, settings, visitor);
    assert |o| == 8;
    if Joined(v, settings, visitor).1 != RespOk {
      assert o[0].met || o[1].met || o[2].met || o[3].met || o[4].met || o[5].met || o[6].met || o[7].met;
    }
  }

  // ------------------------------------------------------------------ what a seat says about its holder

  /** The seat is as its holder took it. */
  predicate SameHolder(a: Seat, b: Seat)
  {
    b.name == a.name && b.spectator == a.spectator && b.judge == a.judge
  }

  predicate NobodyNew(v: Table, t: Table)
  {
    forall p :: p in t.seats ==> p in v.seats && SameHolder(v.seats[p], t.seats[p])
  }

  lemma GoingOnSeatsNobody(v: Table, p: int)
    ensures NobodyNew(v, CarriedOn(v, p))
  {
    hide Eligible;
  }

  lemma LeavingSeatsNobody(v: Table, p: int)
    requires p in v.seats
    ensures NobodyNew(v, Left(v, p))
  {
    hide CarriedOn; hide Participants;
    var gone := v.(seats := v.seats - {p});
    if !(v.host == p && Participants(gone) == {}) {
      GoingOnSeatsNobody(if v.host == p then gone.(host := Least(Participants(gone))) else gone, p);
    }
  }

  lemma ConcedingSeatsNobody(v: Table, p: int)
    requires p in v.seats
    ensures NobodyNew(v, Conceded(v, p).0)
  {
    hide CarriedOn;
    GoingOnSeatsNobody(v.(seats := v.seats[p := v.seats[p].(conceded := true)]), p);
  }

  lemma OthersSeatNobody(v: Table, settings: Settings, cmd: Command)
    requires settings.maxPlayers >= 1 && Sound(v, settings) && Allowed(v, cmd) && !cmd.Join?
    ensures NobodyNew(v, Exec(v, settings, cmd))
  {
    hide Eligible; hide Participants; hide Sound; hide Left; hide Conceded; hide NobodyNew;
    SameTable(v);
    SomebodyPlays(v, settings);
    match cmd
    case Leave(p) => LeavingSeatsNobody(v, p);
    case Kick(_, _, p) => if p in v.seats { LeavingSeatsNobody(v, p); }
    case Disconnect(p, _) => LeavingSeatsNobody(v, p);
    case ChooseDeck(p) => OwnSeat(v, DeckChosen(v, p).0);
    case SetReady(p, ready) => OwnSeat(v, ReadySet(v, p, ready).0);
    case StartSignal => OwnSeat(v, StartedIfReady(v, settings));
    case Concede(p) => ConcedingSeatsNobody(v, p);
    case Unconcede(p) => OwnSeat(v, Unconceded(v, p).0);
    case EndTurn(p) => OwnSeat(v, TurnEnded(v, p).0);
    case SetPhase(p, phase) => OwnSeat(v, PhaseSet(v, p, phase).0);
    case ReverseOrder(p) => OwnSeat(v, OrderReversed(v, p).0);
  }

  lemma SomebodyPlays(v: Table, settings: Settings)
    requires Sound(v, settings) && !v.closed
    ensures v.started ==> Eligible(v) != {}
  {
    assert v.started ==> v.active in Eligible(v);
  }

  lemma SameTable(v: Table)
    ensures NobodyNew(v, v)
  {
  }

  lemma OwnSeat(v: Table, t: Table)
    requires t.seats.Keys == v.seats.Keys && forall p :: p in t.seats ==> SameHolder(v.seats[p], t.seats[p])
    ensures NobodyNew(v, t)
  {
  }

  /** No command but joining seats anybody, and none makes somebody seated into somebody else. */
  lemma SeatsAreKept(v: Table, settings: Settings, cmd: Command)
    requires settings.maxPlayers >= 1 && Sound(v, settings) && Allowed(v, cmd)
    ensures var t := Exec(v, settings, cmd);
            forall p :: p in t.seats ==>
              if p in v.seats then SameHolder(v.seats[p], t.seats[p])
              else cmd.Join? && p == v.nextId && TookSeat(t.seats[p], cmd.visitor)
                   && Joined(v, settings, cmd.visitor).1 == RespOk
  {
    if cmd.Join? {
      hide CheckJoin;
    } else {
      hide Exec; hide Sound; hide Allowed;
      OthersSeatNobody(v, settings, cmd);
    }
  }

  /** The seat of a visitor who was let in. */
  predicate TookSeat(seat: Seat, visitor: Visitor)
  {
    seat.name == visitor.name && seat.spectator == visitor.spectator && seat.judge == visitor.asJudge
  }

  /** The i-th command of the run seated its visitor there, who was entitled to it. */
  predicate EarnedAt(settings: Settings, cmds: seq<Command>, i: nat, seat: Seat)
  {
    && i < |cmds| && cmds[i].Join? && TookSeat(seat, cmds[i].visitor)
    && Entitled(settings, cmds[i].visitor) && (seat.judge ==> cmds[i].visitor.isJudge)
  }

  ghost predicate Earned(settings: Settings, cmds: seq<Command>, seat: Seat)
  {
    exists i: nat :: EarnedAt(settings, cmds, i, seat)
  }

  /** Everybody seated at the end sat there at the beginning, or earned the seat in between. */
  ghost predicate AllEarned(v: Table, settings: Settings, cmds: seq<Command>, t: Table)
  {
    forall p :: p in t.seats ==> (p in v.seats && SameHolder(v.seats[p], t.seats[p])) || Earned(settings, cmds, t.seats[p])
  }

  lemma {:induction false} RunsAreEarned(v: Table, settings: Settings, cmds: seq<Command>, t: Table)
    requires settings.maxPlayers >= 1 && Sound(v, settings) && Reachable(v, settings, cmds, t)
    ensures AllEarned(v, settings, cmds, t)
    decreases |cmds|
  {
    hide Sound; hide Exec; hide Allowed; hide Entitled; hide Joined;
    if cmds != [] {
      ExecSound(v, settings, cmds[0]);
      var u := Exec(v, settings, cmds[0]);
      RunsAreEarned(u, settings, cmds[1..], t);
      SeatsAreKept(v, settings, cmds[0]);
      forall p | p in t.seats
        ensures (p in v.seats && SameHolder(v.seats[p], t.seats[p])) || Earned(settings, cmds, t.seats[p])
      {
        if Earned(settings, cmds[1..], t.seats[p]) {
          var i: nat :| EarnedAt(settings, cmds[1..], i, t.seats[p]);
          assert EarnedAt(settings, cmds, i + 1, t.seats[p]);
        } else if p !in v.seats {
          AdmittedIff(v, settings, cmds[0].visitor);
          assert EarnedAt(settings, cmds, 0, t.seats[p]);
        }
      }
    }
  }

  /**
   In every game: whoever is seated is its creator, under id 0, or came in by a command of the run and knew
   the password - or was a spectator exempt from it -, was registered, a buddy of the creator and not
   ignored where that is asked for, and allowed to watch if watching; or was a moderator overriding
   all that.  Judges' seats are held by judges, but for the creator's.
   */
  lemma SeatsAreEarned(settings: Settings, creator: Visitor, asJudge: bool, cmds: seq<Command>, t: Table)
    requires settings.maxPlayers >= 1 && PlayedOut(settings, creator, asJudge, cmds, t)
    ensures forall p :: p in t.seats ==>
              || (p == 0 && TookSeat(t.seats[p], creator.(asJudge := asJudge)))
              || Earned(settings, cmds, t.seats[p])
  {
    hide Sound; hide Reachable;
    CreatedSound(settings, creator, asJudge);
    RunsAreEarned(Created(creator, asJudge), settings, cmds, t);
  }
}

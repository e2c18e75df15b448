/** The game object: its fields are updated in place and agree with the table they stand for. */
module Game {
  import opened Wrappers
  import opened TurnOrder
  import opened TurnGame

  class Player {
    const id: int
    const name: string
    const spectator: bool
    const judge: bool
    var hasDeck: bool
    var ready: bool
    var conceded: bool

    constructor (id: int, name: string, spectator: bool, judge: bool)
      ensures this.id == id && TakenSeat() == Seat(name, spectator, judge, false, false, false)
    {
      this.id, this.name, this.spectator, this.judge := id, name, spectator, judge;
      hasDeck, ready, conceded := false, false, false;
    }

    function TakenSeat(): Seat
      reads this
    {
      Seat(name, spectator, judge, hasDeck, ready, conceded)
    }

    /** setConceded and setReadyStart, when a game begins. */
    method BeginAfresh()
      modifies this
      ensures TakenSeat() == Afresh(old(TakenSeat()))
    {
      conceded := false;
      ready := false;
    }
  }

  class ServerGame {
    const settings: Settings
    var players: map<int, Player>
    var nextPlayerId: int
    var hostId: int
    var activePlayer: int
    var activePhase: int
    var gameStarted: bool
    var gameClosed: bool
    var turnOrderReversed: bool

    predicate Valid()
      reads this, players.Values
    {
      forall p :: p in players ==> players[p].id == p
    }

    function View(): Table
      reads this, players.Values
    {
      Table(map p | p in players :: players[p].TakenSeat(), nextPlayerId, hostId, activePlayer, activePhase,
            gameStarted, gameClosed, turnOrderReversed)
    }

    /** cmdCreateGame: a new game that its creator has joined. */
    constructor (settings: Settings, creator: Visitor, asJudge: bool)
      requires creator.name == settings.creator
      ensures Valid() && View() == Created(creator, asJudge) && this.settings == settings
      ensures fresh(players.Values)
    {
      this.settings := settings;
      players, nextPlayerId, hostId, activePlayer, activePhase := map[], 0, 0, -1, -1;
      gameStarted, gameClosed, turnOrderReversed := false, false, false;
      new;
      var response := AddPlayer(creator.name, creator.spectator, asJudge);
    }

    method AddPlayer(name: string, spectator: bool, judge: bool) returns (newPlayer: Player)
      requires Valid()
      modifies this
      ensures Valid() && View() == Seated(old(View()), settings, name, spectator, judge)
      ensures fresh(newPlayer) && players.Values <= old(players.Values) + {newPlayer}
    {
      newPlayer := new Player(nextPlayerId, name, spectator, judge);
      TakeSeat(newPlayer);
      nextPlayerId := nextPlayerId + 1;
      if !spectator && name == settings.creator {
        hostId := newPlayer.id;
      }
    }

    method TakeSeat(player: Player)
      requires Valid()
      modifies this`players
      ensures Valid() && View() == old(View()).(seats := old(View()).seats[player.id := player.TakenSeat()])
      ensures players.Values <= old(players.Values) + {player}
    {
      hide View;
      ghost var before := View();
      ViewFacts();
      players := players[player.id := player];
      ShowsSeats(before.seats[player.id := player.TakenSeat()]);
      ViewFacts();
    }

    /** The view, field by field. */
    lemma ViewFacts()
      ensures View().seats.Keys == players.Keys && forall p :: p in players ==> View().seats[p] == players[p].TakenSeat()
      ensures View().active == activePlayer && View().host == hostId && View().phase == activePhase
      ensures View().nextId == nextPlayerId && View().reversed == turnOrderReversed
      ensures View().started == gameStarted && View().closed == gameClosed
    {
    }

    lemma ShowsSeats(seats: map<int, Seat>)
      requires seats.Keys == players.Keys && forall p :: p in players ==> players[p].TakenSeat() == seats[p]
      ensures View().seats == seats
    {
      assert View().seats.Keys == seats.Keys;
      assert forall p :: p in seats ==> p in View().seats && View().seats[p] == seats[p];
    }

    method GetPlayerCount() returns (result: int)
      requires Valid()
      ensures result == |Participants(View())|
    {
      hide Listed; hide View; hide Participants; hide Ascending;
      var keys := Listed(players.Keys);
      result := 0;
      ghost var seen: set<int> := {};
      for i := 0 to |keys|
        invariant forall p :: p in seen <==> p in keys[..i] && !players[p].spectator
        invariant result == |seen|
      {
        NewKey(keys, i);
        if !players[keys[i]].spectator {
          result := result + 1;
          seen := seen + {keys[i]};
        }
      }
      assert keys[..|keys|] == keys;
      ParticipantsAre(seen);
    }

    lemma ParticipantsAre(seen: set<int>)
      requires forall p :: p in seen <==> p in players && !players[p].spectator
      ensures seen == Participants(View())
    {
      ViewFacts();
      hide View;
      forall p
        ensures p in seen <==> p in Participants(View())
      {
      }
    }

    lemma EligibleAre(seen: set<int>)
      requires forall p :: p in seen <==> p in players && Playing(players[p].TakenSeat())
      ensures seen == Eligible(View())
    {
      ViewFacts();
      hide View;
      forall p
        ensures p in seen <==> p in Eligible(View())
      {
      }
    }

    lemma EligibleHere()
      ensures forall p :: p in Eligible(View()) <==> p in players && !players[p].spectator && !players[p].conceded
    {
      ViewFacts();
      hide View;
    }

    method NameTaken(name: string) returns (taken: bool)
      requires Valid()
      ensures taken <==> exists p :: p in View().seats && View().seats[p].name == name
    {
      hide Listed;
      var keys := Listed(players.Keys);
      for i := 0 to |keys|
        invariant forall j :: 0 <= j < i ==> players[keys[j]].name != name
      {
        if players[keys[i]].name == name {
          var p := keys[i];
          assert p in players.Keys && p in View().seats && View().seats[p].name == name;
          return true;
        }
      }
      return false;
    }

    method CheckJoin(visitor: Visitor) returns (response: Response)
      requires Valid()
      ensures response == TurnGame.CheckJoin(View(), settings, visitor)
    {
      hide Listed; hide Participants;
      var taken := NameTaken(visitor.name);
      if taken {
        return RespContextError;
      }
      if visitor.asJudge && !visitor.isJudge {
        return RespUserLevelTooLow;
      }
      if !(visitor.override && visitor.isModerator) {
        var objection := Objection(visitor);
        if objection.Some? {
          return objection.value;
        }
      }
      var count := GetPlayerCount();
      if !visitor.spectator && (gameStarted || count >= settings.maxPlayers) {
        return RespGameFull;
      }
      return RespOk;
    }

    method Objection(visitor: Visitor) returns (objection: Option<Response>)
      ensures objection == Unwelcome(settings, visitor)
    {
      if visitor.password != settings.password && !(visitor.spectator && !settings.spectatorsNeedPassword) {
        return Some(RespWrongPassword);
      }
      if !visitor.isRegistered && settings.onlyRegistered {
        return Some(RespUserLevelTooLow);
      }
      if settings.onlyBuddies && visitor.name != settings.creator {
        if !visitor.buddy {
          return Some(RespOnlyBuddies);
        }
      }
      if visitor.ignored {
        return Some(RespInIgnoreList);
      }
      if visitor.spectator {
        if !settings.spectatorsAllowed {
          return Some(RespSpectatorsNotAllowed);
        }
      }
      return None;
    }

    method Join(visitor: Visitor) returns (response: Response)
      requires Valid()
      modifies this
      ensures Valid() && (View(), response) == Joined(old(View()), settings, visitor)
    {
      response := CheckJoin(visitor);
      if response == RespOk {
        var newPlayer := AddPlayer(visitor.name, visitor.spectator, visitor.asJudge);
      }
    }

    method Advance(pos: int, size: int) returns (next: int)
      ensures next == NextSlot(pos, size, turnOrderReversed)
    {
      next := pos;
      if turnOrderReversed {
        next := next - 1;
        if next < 0 {
          next := size - 1;
        }
      } else {
        next := next + 1;
        if next == size {
          next := 0;
        }
      }
    }

    method NextTurn()
      requires Valid() && Eligible(View()) != {} && forall p :: p in players ==> p >= 0
      modifies this
      ensures Valid() && View() == Turned(old(View()))
    {
      var next := SearchNext();
      SetActivePlayer(next);
    }

    method SearchNext() returns (next: int)
      requires Valid() && Eligible(View()) != {} && forall p :: p in players ==> p >= 0
      ensures next == Turned(View()).active
    {
      ViewFacts();
      EligibleHere();
      hide Listed; hide NextActive; hide Skipped; hide View; hide Eligible;
      var keys := Listed(players.Keys);
      var listPos := -1;
      if activePlayer != -1 {
        listPos := IndexOf(keys, activePlayer);
      }
      ghost var start, eligible := listPos, Eligible(View());
      assert forall p :: p in eligible ==> p in keys;
      listPos := SearchFrom(keys, listPos, eligible);
      FoundIsNext(keys, eligible, start, listPos, TurnFrom(View()), turnOrderReversed);
      next := keys[listPos];
    }

    /** The loop ends because somebody is eligible, and it ends at the next of them in the direction of play. */
    method SearchFrom(keys: seq<int>, start: int, ghost eligible: set<int>) returns (listPos: int)
      requires -1 <= start < |keys| && eligible != {} && forall i :: 0 <= i < |keys| ==> keys[i] in players
      requires forall p :: p in eligible ==> p in keys
      requires forall p :: p in players ==> (p in eligible <==> !players[p].spectator && !players[p].conceded)
      ensures 0 <= listPos < |keys| && keys[listPos] in eligible
      ensures Skipped(keys, eligible, start, listPos, turnOrderReversed)
    {
      hide Skipped; hide SlotsLeft; hide NextSlot;
      assert keys != [] by {
        var p := Member(eligible);
        assert p in keys;
      }
      FirstLook(keys, eligible, start, turnOrderReversed);
      listPos := Advance(start, |keys|);
      while players[keys[listPos]].spectator || players[keys[listPos]].conceded
        invariant 0 <= listPos < |keys|
        invariant Skipped(keys, eligible, start, listPos, turnOrderReversed)
        invariant forall p :: p in players ==> (p in eligible <==> !players[p].spectator && !players[p].conceded)
        decreases SlotsLeft(start, listPos, |keys|, turnOrderReversed)
      {
        StillLooking(keys, eligible, start, listPos, turnOrderReversed);
        listPos := Advance(listPos, |keys|);
      }
    }

    method SetActivePlayer(active: int)
      requires Valid()
      modifies this`activePlayer, this`activePhase
      ensures Valid() && View() == old(View()).(active := active, phase := 0)
    {
      activePlayer := active;
      SetActivePhase(0);
    }

    /** The arrows this deletes are the subject of another module. */
    method SetActivePhase(phase: int)
      requires Valid()
      modifies this`activePhase
      ensures Valid() && View() == old(View()).(phase := phase)
    {
      activePhase := phase;
    }

    method StopGameIfFinished()
      requires Valid()
      modifies this, players.Values
      ensures Valid() && players == old(players) && View() == StoppedIfFinished(old(View()))
    {
      hide Listed; hide Eligible; hide View;
      var keys := Listed(players.Keys);
      var playing := CountPlaying(keys);
      if playing > 1 {
        return;
      }
      Stop(keys);
    }

    method Stop(keys: seq<int>)
      requires Valid() && Lists(keys, players.Keys)
      modifies this, players.Values
      ensures Valid() && players == old(players) && View() == Stopped(old(View()))
    {
      ghost var before := View();
      gameStarted := false;
      ClearConceded(keys);
      assert players == old(players);
      forall p | p in players
        ensures players[p].TakenSeat() == Stopped(before).seats[p]
      {
        assert before.seats[p] == old(players[p].TakenSeat());
      }
      ShowsSeats(Stopped(before).seats);
    }

    method ClearConceded(keys: seq<int>)
      requires Valid() && Lists(keys, players.Keys)
      modifies players.Values
      ensures forall p :: p in players ==> players[p].TakenSeat() == old(players[p].TakenSeat()).(conceded := false)
    {
      for i := 0 to |keys|
        invariant forall p :: p in players ==>
                    players[p].TakenSeat() == old(players[p].TakenSeat()).(conceded := players[p].conceded)
        invariant forall p :: p in players && p in keys[..i] ==> !players[p].conceded
      {
        assert keys[..i + 1] == keys[..i] + [keys[i]];
        players[keys[i]].conceded := false;
      }
      assert keys[..|keys|] == keys;
    }

    method CountPlaying(keys: seq<int>) returns (playing: int)
      requires Valid() && Lists(keys, players.Keys)
      ensures playing == |Eligible(View())|
    {
      hide View; hide Eligible; hide Ascending;
      playing := 0;
      ghost var seen: set<int> := {};
      for i := 0 to |keys|
        invariant forall p :: p in seen <==> p in keys[..i] && Playing(players[p].TakenSeat())
        invariant playing == |seen|
      {
        NewKey(keys, i);
        if !players[keys[i]].conceded && !players[keys[i]].spectator {
          playing := playing + 1;
          seen := seen + {keys[i]};
        }
      }
      assert keys[..|keys|] == keys;
      EligibleAre(seen);
    }

    /** The end of removePlayer and of cmdConcede. */
    method CarryOn(p: int)
      requires Valid() && forall q :: q in players ==> q >= 0
      modifies this, players.Values
      ensures Valid() && View() == CarriedOn(old(View()), p)
    {
      SomeEligible(View());
      StopGameIfFinished();
      if gameStarted && activePlayer == p {
        NextTurn();
      }
    }

    method FindNewHost() returns (newHost: int)
      requires Valid() && forall q :: q in players ==> q >= 0
      ensures newHost == if Participants(View()) == {} then -1 else Least(Participants(View()))
      ensures newHost == -1 <==> Participants(View()) == {}
    {
      hide Listed; hide Least;
      var keys := Listed(players.Keys);
      ghost var participants := Participants(View());
      assert forall p :: p in participants <==> p in players && !players[p].spectator;
      for i := 0 to |keys|
        invariant forall j :: 0 <= j < i ==> keys[j] !in participants
      {
        if !players[keys[i]].spectator {
          FirstIsLeast(keys, players.Keys, participants, i);
          return keys[i];
        }
      }
      forall p
        ensures p !in participants
      {
        assert p in players ==> p in keys;
      }
      newHost := -1;
    }

    method RemovePlayer(player: Player)
      requires Valid() && player.id in players && players[player.id] == player && forall q :: q in players ==> q >= 0
      modifies this, players.Values
      ensures Valid() && View() == Left(old(View()), player.id)
    {
      hide CarriedOn; hide Participants; hide Least; hide View;
      ViewFacts();
      var playerHost := hostId == player.id;
      var spectator := player.spectator;
      DropSeat(player.id);
      if playerHost {
        var newHostId := FindNewHost();
        if newHostId != -1 {
          SetHost(newHostId);
        } else {
          CloseGame();
          return;
        }
      }
      if !spectator {
        CarryOn(player.id);
      }
    }

    method DropSeat(p: int)
      requires Valid() && p in players
      modifies this`players
      ensures Valid() && View() == old(View()).(seats := old(View()).seats - {p}) && players == old(players) - {p}
    {
      ghost var seats := View().seats - {p};
      players := players - {p};
      ShowsSeats(seats);
    }

    method SetHost(host: int)
      requires Valid()
      modifies this`hostId
      ensures Valid() && View() == old(View()).(host := host)
    {
      hostId := host;
    }

    method CloseGame()
      requires Valid()
      modifies this`gameClosed
      ensures Valid() && View() == old(View()).(closed := true)
    {
      gameClosed := true;
    }

    method KickPlayer(playerId: int) returns (found: bool)
      requires Valid() && forall q :: q in players ==> q >= 0
      modifies this, players.Values
      ensures Valid() && found == (playerId in old(players))
      ensures View() == if found then Left(old(View()), playerId) else old(View())
    {
      if playerId !in players {
        return false;
      }
      RemovePlayer(players[playerId]);
      return true;
    }

    method StartGameIfReady()
      requires Valid() && settings.maxPlayers >= 1 && forall q :: q in players ==> q >= 0
      modifies this, players.Values
      ensures Valid() && View() == StartedIfReady(old(View()), settings)
    {
      hide View; hide Listed; hide Participants; hide Begun;
      var count := GetPlayerCount();
      if count < settings.maxPlayers {
        return;
      }
      var keys := Listed(players.Keys);
      var ready := EverybodyReady(keys);
      if !ready {
        return;
      }
      AllBegin(View());
      Begin(keys);
      NextTurn();
    }

    method EverybodyReady(keys: seq<int>) returns (ready: bool)
      requires Valid() && Lists(keys, players.Keys)
      ensures ready <==> forall p :: p in Participants(View()) ==> View().seats[p].ready
    {
      ViewFacts();
      assert forall p :: p in Participants(View()) <==> p in players && !players[p].spectator;
      hide View; hide Participants;
      for i := 0 to |keys|
        invariant forall j :: 0 <= j < i ==> players[keys[j]].ready || players[keys[j]].spectator
      {
        if !players[keys[i]].ready && !players[keys[i]].spectator {
          var p := keys[i];
          assert p in Participants(View()) && !View().seats[p].ready;
          return false;
        }
      }
      return true;
    }

    method Begin(keys: seq<int>)
      requires Valid() && Lists(keys, players.Keys)
      modifies this, players.Values
      ensures Valid() && players == old(players) && View() == Begun(old(View()))
    {
      ghost var before := View();
      gameStarted, activePlayer := true, -1;
      ClearConcededAndReady(keys);
      assert players == old(players);
      forall p | p in players
        ensures players[p].TakenSeat() == Begun(before).seats[p]
      {
        assert before.seats[p] == old(players[p].TakenSeat());
      }
      ShowsSeats(Begun(before).seats);
    }

    method ClearConcededAndReady(keys: seq<int>)
      requires Valid() && Lists(keys, players.Keys)
      modifies players.Values
      ensures forall p :: p in players ==> players[p].TakenSeat() == Afresh(old(players[p].TakenSeat()))
    {
      hide Ascending;
      assert forall p :: p in players ==> players[p].id == p;
      ghost var done: set<int> := {};
      for i := 0 to |keys|
        invariant forall j :: 0 <= j < i ==> keys[j] in done
        invariant forall p :: p in players ==>
                    players[p].TakenSeat() == if p in done then Afresh(old(players[p].TakenSeat())) else old(players[p].TakenSeat())
      {
        var player := players[keys[i]];
        assert forall p :: p in players && players[p] == player ==> p == keys[i];
        player.BeginAfresh();
        done := done + {keys[i]};
      }
    }

    method ReadyStart(player: Player, ready: bool) returns (response: Response)
      requires Valid() && player.id in players && players[player.id] == player
      modifies player
      ensures Valid() && (View(), response) == ReadySet(old(View()), player.id, ready)
    {
      if player.spectator {
        return RespFunctionNotAllowed;
      }
      if !player.hasDeck || gameStarted {
        return RespContextError;
      }
      if player.ready == ready {
        return RespContextError;
      }
      ghost var before := View();
      player.ready := ready;
      SeatChanged(before, player);
      return RespOk;
    }

    method Concede(player: Player) returns (response: Response)
      requires Valid() && player.id in players && players[player.id] == player && forall q :: q in players ==> q >= 0
      modifies this, players.Values
      ensures Valid() && (View(), response) == Conceded(old(View()), player.id)
    {
      if player.spectator {
        return RespFunctionNotAllowed;
      }
      if !gameStarted {
        return RespGameNotStarted;
      }
      if player.conceded {
        return RespContextError;
      }
      ghost var before := View();
      player.conceded := true;
      SeatChanged(before, player);
      CarryOn(player.id);
      return RespOk;
    }

    method Unconcede(player: Player) returns (response: Response)
      requires Valid() && player.id in players && players[player.id] == player
      modifies player
      ensures Valid() && (View(), response) == Unconceded(old(View()), player.id)
    {
      if player.spectator {
        return RespFunctionNotAllowed;
      }
      if !gameStarted {
        return RespGameNotStarted;
      }
      if !player.conceded {
        return RespContextError;
      }
      ghost var before := View();
      player.conceded := false;
      SeatChanged(before, player);
      return RespOk;
    }

    /** Only one seat differs from what it was, and it is now as the player object says. */
    lemma SeatChanged(before: Table, player: Player)
      requires Valid() && player.id in players && players[player.id] == player && before.seats.Keys == players.Keys
      requires forall p :: p in players && p != player.id ==> players[p].TakenSeat() == before.seats[p]
      requires View().(seats := before.seats) == before
      ensures View() == before.(seats := before.seats[player.id := player.TakenSeat()])
    {
      var seats := before.seats[player.id := player.TakenSeat()];
      assert seats.Keys == View().seats.Keys;
      assert forall p :: p in seats ==> seats[p] == View().seats[p];
    }

    method EndTurn(player: Player) returns (response: Response)
      requires Valid() && player.id in players && players[player.id] == player && forall q :: q in players ==> q >= 0
      requires gameStarted ==> Eligible(View()) != {}
      modifies this
      ensures Valid() && (View(), response) == TurnEnded(old(View()), player.id)
    {
      if !gameStarted {
        return RespGameNotStarted;
      }
      if !player.judge {
        if player.spectator {
          return RespFunctionNotAllowed;
        }
        if player.conceded {
          return RespContextError;
        }
      }
      NextTurn();
      return RespOk;
    }

    method ReverseTurnOrder() returns (turned: bool)
      requires Valid()
      modifies this`turnOrderReversed
      ensures Valid() && View() == old(View()).(reversed := turned) && turned != old(turnOrderReversed)
    {
      turnOrderReversed := !turnOrderReversed;
      return turnOrderReversed;
    }
  }

  lemma NewKey(keys: seq<int>, i: nat)
    requires Ascending(keys) && i < |keys|
    ensures keys[i] !in keys[..i] && forall p :: p in keys[..i + 1] <==> p in keys[..i] || p == keys[i]
  {
    assert keys[..i + 1] == keys[..i] + [keys[i]];
  }

  function Afresh(seat: Seat): Seat
  {
    seat.(conceded := false, ready := false)
  }

  method IndexOf(keys: seq<int>, key: int) returns (pos: int)
    ensures -1 <= pos < |keys|
    ensures pos == -1 <==> key !in keys
    ensures pos >= 0 ==> keys[pos] == key
  {
    for i := 0 to |keys|
      invariant key !in keys[..i]
    {
      if keys[i] == key {
        return i;
      }
    }
    return -1;
  }
}

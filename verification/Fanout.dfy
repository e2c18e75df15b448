/** One command's log of events, split into what each player and the replay get to see. */
module Fanout {
  import opened Wrappers
  import TurnOrder

  datatype GameEvent = GameEvent(kind: string, playerId: int)

  datatype Item = Item(event: GameEvent, toPrivate: bool, toOthers: bool)

  /** An event as a command handed it in; `named` is -1 when the command named nobody. */
  datatype Request = Request(item: Item, named: int)

  datatype Container = Container(events: seq<GameEvent>, context: Option<string>, forcedByJudge: int)

  datatype Seat = Seat(spectator: bool, inbox: seq<Container>)

  // ------------------------------------------------------------------ what a log means

  /** The events of a log that pass, in order. */
  function Passing(items: seq<Item>, privately: bool): seq<GameEvent>
  {
    if items == [] then []
    else
      var rest := Passing(items[..|items| - 1], privately);
      var last := items[|items| - 1];
      if (if privately then last.toPrivate else last.toOthers) then rest + [last.event] else rest
  }

  function Items(requests: seq<Request>): (items: seq<Item>)
    ensures |items| == |requests|
  {
    seq(|requests|, i requires 0 <= i < |requests| => requests[i].item)
  }

  /** The player named last by a request that named anybody; 0 when none did. */
  function LastNamed(requests: seq<Request>): int
  {
    if requests == [] then 0
    else if requests[|requests| - 1].named != -1 then requests[|requests| - 1].named
    else LastNamed(requests[..|requests| - 1])
  }

  /** Whom the split is made for: a judge who forced the command stands in for the named player. */
  function SplitFor(requests: seq<Request>, forcedByJudge: int): int
  {
    if forcedByJudge != -1 then forcedByJudge else LastNamed(requests)
  }

  function IsPrivate(p: int, spectator: bool, omniscient: bool, id: int): bool
  {
    p == id || (spectator && omniscient)
  }

  /** A private event is for the player it names alone. */
  predicate PrivateOnly(r: Request)
  {
    r.item.toPrivate && !r.item.toOthers
  }

  predicate OthersOnly(r: Request)
  {
    !r.item.toPrivate && r.item.toOthers
  }

  /** Some private event of the log names p. */
  predicate Named(requests: seq<Request>, p: int)
  {
    exists r :: r in requests && PrivateOnly(r) && r.named == p
  }

  /**
   Whom an event of a log is meant for, by its class: an event for both sides for everybody, a
   private one for the player it names and for spectators who see everything, one for the others for
   everybody but those.  It does not depend on how the log is split.
   */
  predicate MeantFor(requests: seq<Request>, r: Request, p: int, seesAll: bool)
  {
    if r.item.toPrivate && r.item.toOthers then true
    else if r.item.toPrivate then p == r.named || seesAll
    else r.item.toOthers && !Named(requests, p) && !seesAll
  }

  /** The events of the first n requests of a log that are meant for p, in order. */
  function Meant(requests: seq<Request>, n: nat, p: int, seesAll: bool): seq<GameEvent>
    requires n <= |requests|
  {
    if n == 0 then []
    else
      Meant(requests, n - 1, p, seesAll)
      + if MeantFor(requests, requests[n - 1], p, seesAll) then [requests[n - 1].item.event] else []
  }

  predicate GoesTo(r: Request, p: int, seesAll: bool, id: int)
  {
    if p == id || seesAll then r.item.toPrivate else r.item.toOthers
  }

  /** Nobody at the table whose view depends on being named. */
  predicate Oversees(p: int, players: map<int, Seat>, omniscient: bool)
  {
    p !in players || (players[p].spectator && omniscient)
  }

  /** A private event names the player of the split, or neither name matters to anybody. */
  predicate NamesRightly(r: Request, id: int, players: map<int, Seat>, omniscient: bool)
  {
    PrivateOnly(r) ==>
      r.named == id || (Oversees(r.named, players, omniscient) && Oversees(id, players, omniscient))
  }

  /** What the split relies on: private events name its player, and what is for the others has a private side. */
  ghost predicate RightlySplit(requests: seq<Request>, id: int, players: map<int, Seat>, omniscient: bool)
  {
    && (forall r :: r in requests ==> NamesRightly(r, id, players, omniscient))
    && ((exists r :: r in requests && OthersOnly(r)) ==> Oversees(id, players, omniscient) || Named(requests, id))
  }

  // ------------------------------------------------------------------ the objects

  class Game {
    const spectatorsSeeEverything: bool
    var players: map<int, Seat>
    var replay: seq<Container>

    /** The container goes to the sides of the table asked for, and to the replay when the private one is. */
    method SendGameEventContainer(cont: Container, toPrivate: bool, toOthers: bool, privatePlayerId: int)
      modifies this
      ensures players.Keys == old(players.Keys)
      ensures forall p :: p in players ==>
                players[p] == Delivered(old(players)[p], p, cont, toPrivate, toOthers, privatePlayerId)
      ensures replay == if toPrivate then old(replay) + [cont] else old(replay)
    {
      hide TurnOrder.Listed;
      ghost var before := players;
      var keys := TurnOrder.Listed(players.Keys);
      for i := 0 to |keys|
        invariant players.Keys == before.Keys && replay == old(replay)
        invariant forall p :: p in players ==>
                    players[p] == if p in keys[..i] then Delivered(before[p], p, cont, toPrivate, toOthers, privatePlayerId)
                                  else before[p]
      {
        assert keys[..i + 1] == keys[..i] + [keys[i]];
        var p := keys[i];
        var playerPrivate := p == privatePlayerId || (players[p].spectator && spectatorsSeeEverything);
        if (toPrivate && playerPrivate) || (toOthers && !playerPrivate) {
          players := players[p := players[p].(inbox := players[p].inbox + [cont])];
        }
      }
      assert keys[..|keys|] == keys;
      if toPrivate {
        replay := replay + [cont];
      }
    }

    function Delivered(seat: Seat, p: int, cont: Container, toPrivate: bool, toOthers: bool, id: int): Seat
    {
      if if IsPrivate(p, seat.spectator, spectatorsSeeEverything, id) then toPrivate else toOthers then
        seat.(inbox := seat.inbox + [cont])
      else seat
    }
  }

  class GameEventStorage {
    var gameEventList: seq<Item>
    var gameEventContext: Option<string>
    var privatePlayerId: int
    var forcedByJudge: int
    ghost var requests: seq<Request>

    ghost predicate Valid()
      reads this
    {
      gameEventList == Items(requests) && privatePlayerId == LastNamed(requests)
    }

    constructor ()
      ensures Valid() && requests == [] && gameEventContext == None && forcedByJudge == -1
    {
      gameEventList, gameEventContext, privatePlayerId, forcedByJudge, requests := [], None, 0, -1, [];
    }

    method SetGameEventContext(context: string)
      requires Valid()
      modifies this`gameEventContext
      ensures Valid() && gameEventContext == Some(context)
    {
      gameEventContext := Some(context);
    }

    method SetForcedByJudge(playerId: int)
      requires Valid()
      modifies this`forcedByJudge
      ensures Valid() && forcedByJudge == playerId
    {
      forcedByJudge := playerId;
    }

    method EnqueueGameEvent(kind: string, playerId: int, toPrivate: bool, toOthers: bool, named: int)
      requires Valid()
      modifies this`gameEventList, this`privatePlayerId, this`requests
      ensures Valid()
      ensures requests == old(requests) + [Request(Item(GameEvent(kind, playerId), toPrivate, toOthers), named)]
    {
      var item := Item(GameEvent(kind, playerId), toPrivate, toOthers);
      gameEventList := gameEventList + [item];
      if named != -1 {
        privatePlayerId := named;
      }
      requests := requests + [Request(item, named)];
      assert requests[..|requests| - 1] == old(requests);
    }

    /**
     Every player gets exactly one container, holding in order the events that pass on that player's
     side; the replay gets the private side. Nothing is sent when nothing was enqueued.
     */
    method SendToGame(game: Game)
      requires Valid()
      modifies game
      ensures game.players.Keys == old(game.players.Keys)
      ensures requests == [] ==> game.players == old(game.players) && game.replay == old(game.replay)
      ensures requests != [] ==>
                var id := SplitFor(requests, forcedByJudge);
                && (forall p :: p in game.players ==>
                      var seat := old(game.players)[p];
                      var privately := IsPrivate(p, seat.spectator, game.spectatorsSeeEverything, id);
                      game.players[p] == seat.(inbox := seat.inbox + [Packed(privately)]))
                && game.replay == old(game.replay) + [Packed(true)]
    {
      if gameEventList == [] {
        return;
      }
      var contPrivate, contOthers: seq<GameEvent> := [], [];
      var id := privatePlayerId;
      if forcedByJudge != -1 {
        id := forcedByJudge;
      }
      for i := 0 to |gameEventList|
        invariant contPrivate == Passing(gameEventList[..i], true)
        invariant contOthers == Passing(gameEventList[..i], false)
      {
        assert gameEventList[..i + 1][..i] == gameEventList[..i];
        if gameEventList[i].toPrivate {
          contPrivate := contPrivate + [gameEventList[i].event];
        }
        if gameEventList[i].toOthers {
          contOthers := contOthers + [gameEventList[i].event];
        }
      }
      assert gameEventList[..|gameEventList|] == gameEventList;
      game.SendGameEventContainer(Container(contPrivate, gameEventContext, forcedByJudge), true, false, id);
      game.SendGameEventContainer(Container(contOthers, gameEventContext, forcedByJudge), false, true, id);
    }

    ghost function Packed(privately: bool): Container
      reads this
    {
      Container(Passing(Items(requests), privately), gameEventContext, forcedByJudge)
    }
  }

  // ------------------------------------------------------------------ who sees what

  /** What passes on p's side is what was meant for p, if every request goes where it is meant to. */
  lemma {:induction false} PassingIsMeant(requests: seq<Request>, n: nat, p: int, seesAll: bool, id: int)
    requires n <= |requests|
    requires forall r :: r in requests ==> (GoesTo(r, p, seesAll, id) <==> MeantFor(requests, r, p, seesAll))
    ensures Passing(Items(requests)[..n], p == id || seesAll) == Meant(requests, n, p, seesAll)
  {
    if n > 0 {
      PassingIsMeant(requests, n - 1, p, seesAll, id);
      assert requests[n - 1] in requests;
      assert Items(requests)[..n][..n - 1] == Items(requests)[..n - 1];
    }
  }

  /** The request goes to p just if it is meant for p, whichever player at the table p is. */
  ghost predicate ToldAsMeant(requests: seq<Request>, id: int, players: map<int, Seat>, omniscient: bool)
  {
    forall p, r :: p in players && r in requests ==>
      (GoesTo(r, p, players[p].spectator && omniscient, id) <==> MeantFor(requests, r, p, players[p].spectator && omniscient))
  }

  /** Every event reaches exactly the players it is meant for if and only if the log is rightly split. */
  lemma ToldAsMeantIff(requests: seq<Request>, id: int, players: map<int, Seat>, omniscient: bool)
    ensures ToldAsMeant(requests, id, players, omniscient) <==> RightlySplit(requests, id, players, omniscient)
  {
    if RightlySplit(requests, id, players, omniscient) {
      RightIsTold(requests, id, players, omniscient);
    } else if exists r :: r in requests && !NamesRightly(r, id, players, omniscient) {
      var r :| r in requests && !NamesRightly(r, id, players, omniscient);
      var p := if Oversees(id, players, omniscient) then r.named else id;
      assert p in players && !(players[p].spectator && omniscient);
      assert GoesTo(r, p, false, id) != MeantFor(requests, r, p, false);
    } else {
      var r :| r in requests && OthersOnly(r);
      assert id in players && !(players[id].spectator && omniscient);
      assert GoesTo(r, id, false, id) != MeantFor(requests, r, id, false);
    }
  }

  lemma RightIsTold(requests: seq<Request>, id: int, players: map<int, Seat>, omniscient: bool)
    requires RightlySplit(requests, id, players, omniscient)
    ensures ToldAsMeant(requests, id, players, omniscient)
  {
    forall p, r | p in players && r in requests
      ensures GoesTo(r, p, players[p].spectator && omniscient, id) <==> MeantFor(requests, r, p, players[p].spectator && omniscient)
    {
      assert NamesRightly(r, id, players, omniscient);
      if OthersOnly(r) && !(players[p].spectator && omniscient) {
        if Named(requests, p) {
          var s :| s in requests && PrivateOnly(s) && s.named == p;
          assert NamesRightly(s, id, players, omniscient);
        }
      }
    }
  }

  /**
   Fan-out: when the log is rightly split, each player at the table is sent exactly the events meant
   for that player, in order; the replay records what is meant for a spectator who sees everything.
   */
  lemma FanoutIsFaithful(requests: seq<Request>, forcedByJudge: int, players: map<int, Seat>, omniscient: bool)
    requires RightlySplit(requests, SplitFor(requests, forcedByJudge), players, omniscient)
    ensures forall p :: p in players ==>
              var seesAll := players[p].spectator && omniscient;
              Passing(Items(requests), IsPrivate(p, players[p].spectator, omniscient, SplitFor(requests, forcedByJudge)))
              == Meant(requests, |requests|, p, seesAll)
    ensures forall p :: Passing(Items(requests), true) == Meant(requests, |requests|, p, true)
  {
    var id := SplitFor(requests, forcedByJudge);
    assert Items(requests)[..|requests|] == Items(requests);
    ToldAsMeantIff(requests, id, players, omniscient);
    forall p | p in players
      ensures var seesAll := players[p].spectator && omniscient;
              Passing(Items(requests), IsPrivate(p, players[p].spectator, omniscient, id)) == Meant(requests, |requests|, p, seesAll)
    {
      PassingIsMeant(requests, |requests|, p, players[p].spectator && omniscient, id);
    }
    forall p
      ensures Passing(Items(requests), true) == Meant(requests, |requests|, p, true)
    {
      PassingIsMeant(requests, |requests|, p, true, id);
    }
  }

  /**
   The log of a command, or of several, that moves no other player's cards: private events name one
   player, nothing else names anybody, and what is told to the others has a private side.  Unless a
   judge forced the command, such a log is rightly split.
   */
  lemma OneNameIsRight(requests: seq<Request>, named: int, players: map<int, Seat>, omniscient: bool)
    requires named != -1
    requires forall r :: r in requests ==> r.named == if PrivateOnly(r) then named else -1
    requires (exists r :: r in requests && OthersOnly(r)) ==> exists r :: r in requests && PrivateOnly(r)
    ensures RightlySplit(requests, SplitFor(requests, -1), players, omniscient)
  {
    if exists r :: r in requests && PrivateOnly(r) {
      LastNamedIs(requests, named);
      assert Named(requests, named);
    }
  }

  lemma {:induction false} LastNamedIs(requests: seq<Request>, named: int)
    requires named != -1 && exists r :: r in requests && r.named == named
    requires forall r :: r in requests ==> r.named == named || r.named == -1
    ensures LastNamed(requests) == named
  {
    var n := |requests| - 1;
    assert requests[n] in requests;
    if requests[n].named == -1 {
      var r :| r in requests && r.named == named;
      assert requests == requests[..n] + [requests[n]];
      assert r in requests[..n];
      LastNamedIs(requests[..n], named);
    }
  }

  /** When a judge forces such a command, it is told as meant exactly if it has no one-sided events that matter. */
  lemma JudgeMisleadsIff(requests: seq<Request>, named: int, judge: int, players: map<int, Seat>, omniscient: bool)
    requires judge != -1 && judge != named && named in players && !(players[named].spectator && omniscient)
    requires forall r :: r in requests && PrivateOnly(r) ==> r.named == named
    requires (exists r :: r in requests && OthersOnly(r)) ==> exists r :: r in requests && PrivateOnly(r)
    ensures ToldAsMeant(requests, SplitFor(requests, judge), players, omniscient)
            <==> forall r :: r in requests ==> !PrivateOnly(r)
  {
    ToldAsMeantIff(requests, judge, players, omniscient);
  }

  /**
   A command that moves cards of two players - say it takes another player's card off the one it moves -
   has private events that name both: however such a log is split, it is not told as meant.
   */
  lemma TwoNamesMislead(requests: seq<Request>, p: int, q: int, id: int, players: map<int, Seat>, omniscient: bool)
    requires p != q && Named(requests, p) && Named(requests, q)
    requires !Oversees(p, players, omniscient) && !Oversees(q, players, omniscient)
    ensures !ToldAsMeant(requests, id, players, omniscient)
  {
    var a :| a in requests && PrivateOnly(a) && a.named == p;
    var b :| b in requests && PrivateOnly(b) && b.named == q;
    assert !(NamesRightly(a, id, players, omniscient) && NamesRightly(b, id, players, omniscient));
    ToldAsMeantIff(requests, id, players, omniscient);
  }

  lemma PassingOneMore(items: seq<Item>, item: Item, privately: bool)
    ensures Passing(items + [item], privately)
         == Passing(items, privately) + if (if privately then item.toPrivate else item.toOthers) then [item.event] else []
  {
    assert (items + [item])[..|items|] == items;
  }

  /** The log of p moving a card under which a card of q hangs, that card being moved first. */
  function FreeingLog(
    freed: GameEvent, freedOthers: GameEvent, moved: GameEvent, movedOthers: GameEvent, p: int, q: int): seq<Request>
  {
    [Request(Item(freed, true, false), q), Request(Item(freedOthers, false, true), -1),
     Request(Item(moved, true, false), p), Request(Item(movedOthers, false, true), -1)]
  }

  lemma FreeingPasses(
    freed: GameEvent, freedOthers: GameEvent, moved: GameEvent, movedOthers: GameEvent, p: int, q: int)
    ensures var items := Items(FreeingLog(freed, freedOthers, moved, movedOthers, p, q));
            Passing(items, true) == [freed, moved] && Passing(items, false) == [freedOthers, movedOthers]
  {
    var a, b, c, d := Item(freed, true, false), Item(freedOthers, false, true), Item(moved, true, false), Item(movedOthers, false, true);
    assert Items(FreeingLog(freed, freedOthers, moved, movedOthers, p, q)) == [] + [a] + [b] + [c] + [d];
    forall privately: bool
      ensures Passing([] + [a] + [b] + [c] + [d], privately) == if privately then [freed, moved] else [freedOthers, movedOthers]
    {
      PassingOneMore([], a, privately);
      PassingOneMore([] + [a], b, privately);
      PassingOneMore([] + [a] + [b], c, privately);
      PassingOneMore([] + [a] + [b] + [c], d, privately);
    }
  }

  lemma FreeingMeans(
    freed: GameEvent, freedOthers: GameEvent, moved: GameEvent, movedOthers: GameEvent, p: int, q: int)
    requires p != q
    ensures var requests := FreeingLog(freed, freedOthers, moved, movedOthers, p, q);
            && Named(requests, p) && Named(requests, q)
            && Meant(requests, 4, p, false) == [moved] && Meant(requests, 4, q, false) == [freed]
  {
    var requests := FreeingLog(freed, freedOthers, moved, movedOthers, p, q);
    assert requests[0] in requests && requests[2] in requests;
    assert Named(requests, p) && Named(requests, q);
    hide FreeingLog; hide Named;
    assert Meant(requests, 1, p, false) == [] && Meant(requests, 1, q, false) == [freed];
    assert Meant(requests, 2, p, false) == [] && Meant(requests, 2, q, false) == [freed];
    assert Meant(requests, 3, p, false) == [moved] && Meant(requests, 3, q, false) == [freed];
  }

  lemma FreeingSplit(
    freed: GameEvent, freedOthers: GameEvent, moved: GameEvent, movedOthers: GameEvent, p: int, q: int)
    requires p != -1
    ensures SplitFor(FreeingLog(freed, freedOthers, moved, movedOthers, p, q), -1) == p
  {
    var requests := FreeingLog(freed, freedOthers, moved, movedOthers, p, q);
    assert LastNamed(requests) == LastNamed(requests[..3]) == p;
  }

  /**
   When p moves a card under which a card of q hangs, p is sent both private forms, the one of q's card
   included, and q is sent neither.
   */
  lemma MoveFreesAnothersCard(
    freed: GameEvent, freedOthers: GameEvent, moved: GameEvent, movedOthers: GameEvent, p: int, q: int)
    requires p >= 0 && q >= 0 && p != q
    ensures var requests := FreeingLog(freed, freedOthers, moved, movedOthers, p, q);
            && SplitFor(requests, -1) == p
            && Meant(requests, |requests|, p, false) == [moved] && Meant(requests, |requests|, q, false) == [freed]
            && Passing(Items(requests), IsPrivate(p, false, false, p)) == [freed, moved]
            && Passing(Items(requests), IsPrivate(q, false, false, p)) == [freedOthers, movedOthers]
            && forall players: map<int, Seat>, omniscient ::
                 p in players && q in players && !players[p].spectator && !players[q].spectator ==>
                   !ToldAsMeant(requests, SplitFor(requests, -1), players, omniscient)
  {
    hide Passing; hide Meant; hide LastNamed; hide Named; hide ToldAsMeant;
    FreeingPasses(freed, freedOthers, moved, movedOthers, p, q);
    FreeingMeans(freed, freedOthers, moved, movedOthers, p, q);
    FreeingSplit(freed, freedOthers, moved, movedOthers, p, q);
    var requests := FreeingLog(freed, freedOthers, moved, movedOthers, p, q);
    forall players: map<int, Seat>, omniscient
      | p in players && q in players && !players[p].spectator && !players[q].spectator
      ensures !ToldAsMeant(requests, SplitFor(requests, -1), players, omniscient)
    {
      TwoNamesMislead(requests, p, q, SplitFor(requests, -1), players, omniscient);
    }
  }

  // ------------------------------------------------------------------ both sides

  /** The events for both sides, and those for just one of them, in order. */
  function ForBoth(items: seq<Item>): seq<GameEvent>
  {
    if items == [] then []
    else
      var last := items[|items| - 1];
      ForBoth(items[..|items| - 1]) + if last.toPrivate && last.toOthers then [last.event] else []
  }

  function JustFor(items: seq<Item>, privately: bool): seq<GameEvent>
  {
    if items == [] then []
    else
      var last := items[|items| - 1];
      JustFor(items[..|items| - 1], privately)
      + if (if privately then last.toPrivate && !last.toOthers else last.toOthers && !last.toPrivate) then [last.event] else []
  }

  /**
   Whichever side a player is on, what the player is sent are the events for both sides, each exactly
   as often as it was enqueued, and those for just that side.
   */
  lemma {:induction false} TwoSidedReachAll(items: seq<Item>, privately: bool)
    ensures multiset(Passing(items, privately)) == multiset(ForBoth(items)) + multiset(JustFor(items, privately))
  {
    if items != [] {
      TwoSidedReachAll(items[..|items| - 1], privately);
    }
  }

  // ------------------------------------------------------------------ logs that mislead

  /**
   Two private events naming different players: the split is made for the second, so the first
   player is not sent the event meant for them and the second is sent both.
   */
  lemma LaterNameWins(a: GameEvent, b: GameEvent)
    ensures var requests := [Request(Item(a, true, false), 1), Request(Item(b, true, false), 2)];
            && Meant(requests, 2, 1, false) == [a] && Meant(requests, 2, 2, false) == [b]
            && Passing(Items(requests), IsPrivate(1, false, false, SplitFor(requests, -1))) == []
            && Passing(Items(requests), IsPrivate(2, false, false, SplitFor(requests, -1))) == [a, b]
  {
    var requests := [Request(Item(a, true, false), 1), Request(Item(b, true, false), 2)];
    var items := Items(requests);
    assert items == [Item(a, true, false), Item(b, true, false)];
    assert requests[..1] == [requests[0]] && items[..1] == [items[0]];
    assert requests[..1][..0] == [] && items[..1][..0] == [];
    assert Passing(items[..1], true) == [a] && Passing(items[..1], false) == [];
    assert Meant(requests, 1, 1, false) == [a] && Meant(requests, 1, 2, false) == [];
  }

  /** A log that tells the others something and names nobody would keep it from player 0, whoever gave the command. */
  lemma NobodyNamed(a: GameEvent)
    ensures var requests := [Request(Item(a, false, true), -1)];
            && SplitFor(requests, -1) == 0
            && Meant(requests, 1, 0, false) == [a]
            && Passing(Items(requests), IsPrivate(0, false, false, 0)) == []
            && Passing(Items(requests), IsPrivate(1, false, false, 0)) == [a]
  {
    var requests := [Request(Item(a, false, true), -1)];
    var items := Items(requests);
    assert items == [Item(a, false, true)];
    assert requests[..0] == [] && items[..0] == [];
    assert Meant(requests, 0, 0, false) == [];
    assert MeantFor(requests, requests[0], 0, false);
    assert Passing(items[..0], true) == [] && Passing(items[..0], false) == [];
    assert requests[0].named == -1 && LastNamed([]) == 0;
    assert LastNamed(requests) == LastNamed(requests[..0]);
  }
}

/** Players coming and going, and the invariants over every run of commands. */
module GameRuns {
  import opened Wrappers
  import opened Cards
  import opened Shuffling
  import opened ZoneLists
  import opened GameState
  import opened Movement
  import opened Commands
  import opened Attachments
  import opened Tokens
  import opened Lifecycle
  import opened Setup

  // ------------------------------------------------------------------ conceding

  /** cmdConcede, as far as cards are concerned. */
  ghost function Concede(s: State, p: int, grid: Grid): (t: State)
    requires GameOk(s) && Active(s, p)
    ensures GameOk(t) && Departed(s, t, p)
  {
    hide Inv; hide Seats; hide Tidy; hide ClearPlayer; hide Cleared; hide Departed;
    AllZonesThere(s, p);
    var s1 := ClearPlayer(s, p, grid);
    ClearedPlayers(s, s1, p);
    ConcedeKeeps(s, s1, p);
    SetConceded(s1, p, true)
  }

  function SetConceded(s: State, p: int, conceded: bool): State
    requires p in s.players
  {
    s.(players := s.players[p := s.players[p].(conceded := conceded)])
  }

  lemma SetConcededKeepsInv(s: State, p: int, conceded: bool)
    requires Inv(s, NoCard) && p in s.players
    ensures Inv(SetConceded(s, p, conceded), NoCard)
  {
    hide Placed; hide Ids; hide Forest; hide Arrows;
    var t := SetConceded(s, p, conceded);
    FewerArrowsPlaced(s, t, NoCard);
    NothingDangles(s, NoCard);
    SurvivesKeepsInv(s, NoCard, t, NoCard);
  }

  lemma AllZonesThere(s: State, p: int)
    requires Seats(s) && Active(s, p)
    ensures AllThere(s, p, ZONE_ORDER)
  {
  }

  lemma ClearedPlayers(s: State, t: State, p: int)
    requires Cleared(s, t, p)
    ensures t.players.Keys == s.players.Keys
  {
  }

  /** Exactly p's cards are gone; every other card is where it was, under its id and name. */
  ghost predicate Departed(s: State, t: State, p: int)
  {
    && t.heap.Keys == (set c | c in s.heap && !OwnedBy(s, c, p))
    && (forall c :: c in t.heap ==> SameSpot(s.heap[c], t.heap[c]))
  }

  lemma ClearedTidy(s: State, t: State, p: int)
    requires Tidy(s) && Cleared(s, t, p)
    ensures Tidy(t) && Departed(s, t, p)
  {
    forall c | c in t.heap
      ensures c in s.heap && SameSpot(s.heap[c], t.heap[c])
    {
    }
  }

  lemma ConcedeKeeps(s: State, t: State, p: int)
    requires GameOk(s) && Active(s, p) && Inv(t, NoCard) && Cleared(s, t, p) && p in t.players
    ensures GameOk(SetConceded(t, p, true)) && Departed(s, SetConceded(t, p, true), p)
  {
    hide Inv;
    ClearedTidy(s, t, p);
    SetConcededKeepsInv(t, p, true);
    ClearedSeats(s, t, SetConceded(t, p, true), p);
  }

  lemma ClearedSeats(s: State, t: State, u: State, p: int)
    requires Seats(s) && Cleared(s, t, p) && p in t.players
    requires u == SetConceded(t, p, true)
    ensures Seats(u)
  {
    forall q | q in u.players && q != p
      ensures Active(u, q) <==> Active(s, q)
      ensures !Active(u, q) ==> u.players[q].arrows == map[] && u.players[q].lastDraw == []
    {
      assert SameSeat(s.players[q], t.players[q]);
      assert !Active(u, q) ==> t.players[q].arrows.Keys == {};
    }
    assert !Active(u, p);
  }

  // ------------------------------------------------------------------ leaving

  function DropPlayer(s: State, p: int): State
  {
    s.(players := s.players - {p})
  }

  lemma DropPlayerKeepsInv(s: State, p: int)
    requires Inv(s, NoCard) && NoneRelated(s, p) && forall q :: q in s.zones ==> q.owner != p
    ensures Inv(DropPlayer(s, p), NoCard)
  {
    hide Placed; hide Ids; hide Forest; hide Arrows;
    var t := DropPlayer(s, p);
    NothingDangles(s, NoCard);
    DropPlayerPlaced(s, p);
    forall q, i | q in t.players && i in t.players[q].arrows
      ensures EndsAlive(t, t.players[q].arrows[i])
    {
      assert EndsAlive(s, s.players[q].arrows[i]) && !Related(s, s.players[q].arrows[i], p);
    }
    SurvivesKeepsInv(s, NoCard, t, NoCard);
  }

  lemma DropPlayerPlaced(s: State, p: int)
    requires Placed(s, NoCard) && forall q :: q in s.zones ==> q.owner != p
    ensures Placed(DropPlayer(s, p), NoCard) && OwnersAlive(DropPlayer(s, p), NoCard)
  {
  }

  /** removePlayer, as far as cards are concerned; p may be a spectator or have conceded. */
  ghost function Leave(s: State, p: int, grid: Grid): (t: State)
    requires GameOk(s) && p in s.players
    ensures GameOk(t) && Departed(s, t, p) && t.players.Keys == s.players.Keys - {p}
  {
    hide Inv; hide Seats; hide Tidy; hide ClearPlayer; hide Cleared; hide Departed;
    var s1 := TakeLeave(s, p, grid);
    LeaveKeeps(s, s1, p);
    DropPlayer(s1, p)
  }

  ghost function TakeLeave(s: State, p: int, grid: Grid): (t: State)
    requires GameOk(s) && p in s.players
    ensures Inv(t, NoCard) && Cleared(s, t, p)
  {
    hide Inv; hide Seats; hide Tidy; hide ClearPlayer; hide Cleared;
    if Active(s, p) then
      AllZonesThere(s, p);
      ClearPlayer(s, p, grid)
    else
      RemoveArrowsRelatedKeepsInv(s, p);
      InactiveCleared(s, p);
      RemoveArrowsRelated(s, p)
  }

  lemma InactiveCleared(s: State, p: int)
    requires Inv(s, NoCard) && Seats(s) && p in s.players && !Active(s, p)
    requires NoneRelated(RemoveArrowsRelated(s, p), p)
    ensures Cleared(s, RemoveArrowsRelated(s, p), p)
  {
    hide Inv;
    var t := RemoveArrowsRelated(s, p);
    assert t.zones.Keys == (set q | q in s.zones && q.owner != p);
    assert t.players[p].arrows.Keys == {};
    forall c | c in s.heap
      ensures !OwnedBy(s, c, p)
    {
      InItsZone(s, c, NoCard);
    }
    forall q | q in s.players
      ensures SameSeat(s.players[q], t.players[q])
    {
      assert t.players[q].arrows.Keys <= s.players[q].arrows.Keys;
    }
  }

  lemma LeaveKeeps(s: State, t: State, p: int)
    requires GameOk(s) && Inv(t, NoCard) && Cleared(s, t, p)
    ensures GameOk(DropPlayer(t, p)) && Departed(s, DropPlayer(t, p), p)
    ensures DropPlayer(t, p).players.Keys == s.players.Keys - {p}
  {
    hide Inv;
    ClearedTidy(s, t, p);
    DropPlayerKeepsInv(t, p);
    LeaveSeats(s, t, p);
  }

  lemma LeaveSeats(s: State, t: State, p: int)
    requires Seats(s) && Cleared(s, t, p)
    ensures Seats(DropPlayer(t, p))
  {
    var u := DropPlayer(t, p);
    forall q | q in u.players
      ensures Active(u, q) <==> Active(s, q)
      ensures !Active(u, q) ==> u.players[q].arrows == map[] && u.players[q].lastDraw == []
    {
      assert SameSeat(s.players[q], t.players[q]);
      assert !Active(u, q) ==> t.players[q].arrows.Keys == {};
    }
  }

  // ------------------------------------------------------------------ joining, stopping

  /** addPlayer: no cards, no zones; while a game is running only spectators may come. */
  function Join(s: State, p: int, spectator: bool, judge: bool): State
  {
    s.(players := s.players[p := Player(spectator, judge, false, 0, [], map[])])
  }

  lemma JoinKeeps(s: State, p: int, spectator: bool, judge: bool)
    requires GameOk(s) && p !in s.players && (s.started ==> spectator)
    ensures GameOk(Join(s, p, spectator, judge))
  {
    var t := Join(s, p, spectator, judge);
    JoinKeepsInv(s, p, spectator, judge);
    assert !Active(t, p);
    assert forall q :: q in s.players ==> (Active(t, q) <==> Active(s, q));
  }

  lemma JoinKeepsInv(s: State, p: int, spectator: bool, judge: bool)
    requires Inv(s, NoCard) && p !in s.players
    ensures Inv(Join(s, p, spectator, judge), NoCard)
  {
    hide Placed; hide Ids; hide Forest; hide Arrows;
    JoinKeepsPlaced(s, p, spectator, judge);
    JoinKeepsForest(s, p, spectator, judge);
    JoinKeepsIdsAndArrows(s, p, spectator, judge);
  }

  lemma JoinKeepsPlaced(s: State, p: int, spectator: bool, judge: bool)
    requires Placed(s, NoCard)
    ensures Placed(Join(s, p, spectator, judge), NoCard)
  {
  }

  lemma JoinKeepsForest(s: State, p: int, spectator: bool, judge: bool)
    requires Forest(s, NoCard)
    ensures Forest(Join(s, p, spectator, judge), NoCard)
  {
    var t := Join(s, p, spectator, judge);
    assert forall d :: d in s.heap ==> Where(t, d, NoCard) == Where(s, d, NoCard);
  }

  lemma JoinKeepsIdsAndArrows(s: State, p: int, spectator: bool, judge: bool)
    requires Ids(s, NoCard) && Arrows(s, NoCard) && p !in s.players
    ensures Ids(Join(s, p, spectator, judge), NoCard) && Arrows(Join(s, p, spectator, judge), NoCard)
  {
    var t := Join(s, p, spectator, judge);
    forall d | d in t.heap
      ensures IdBelowCounter(t, NoCard, d)
    {
      assert IdBelowCounter(s, NoCard, d);
    }
    forall d, e | d in t.heap && e in t.heap && d != e
      ensures IdsDiffer(t, NoCard, d, e)
    {
      assert IdsDiffer(s, NoCard, d, e);
    }
    forall q, i | q in t.players && i in t.players[q].arrows
      ensures i >= 1 && EndsOk(t, NoCard, t.players[q].arrows[i])
    {
      assert EndsOk(s, NoCard, s.players[q].arrows[i]);
    }
  }

  /** stopGameIfFinished, when it stops the game: everybody's zones, arrows and concessions go. */
  function StopGame(s: State): State
  {
    State(false, map[], map[],
          map p | p in s.players :: s.players[p].(conceded := false, arrows := map[], lastDraw := []))
  }

  lemma StopGameKeeps(s: State)
    requires GameOk(s)
    ensures GameOk(StopGame(s))
  {
    hide Placed; hide Forest; hide Arrows;
    var t := StopGame(s);
    StopGameInv(s, t);
  }

  lemma StopGameInv(s: State, t: State)
    requires Ids(s, NoCard) && t == StopGame(s)
    ensures Inv(t, NoCard)
  {
  }

  // ------------------------------------------------------------------ starting, unconceding

  ghost predicate DeckFits(s: State, p: int, deck: DeckPlan)
  {
    && Inv(s, NoCard) && p in s.players && NoZones(s, p) && PlanFits(s, deck)
    && multiset(deck.order) == multiset(Unshuffled(s, p, deck).zones[Place(p, Deck)])
  }

  /** cmdUnconcede: back in the game with a freshly set up deck. */
  ghost function Unconcede(s: State, p: int, deck: DeckPlan): (t: State)
    requires GameOk(s) && p in s.players && s.players[p].conceded && !s.players[p].spectator && s.started
    requires DeckFits(SetConceded(s, p, false), p, deck)
    ensures GameOk(t) && Active(t, p)
    ensures t.heap.Keys == s.heap.Keys + Refs(deck.base, |deck.entries|)
  {
    hide Inv; hide Seats; hide Tidy; hide SetUp; hide Filling; hide Unshuffled; hide PlanFits;
    var s1 := SetConceded(s, p, false);
    var t := SetUp(s1, p, deck);
    SetUpSeats(s, s1, t, p);
    t
  }

  lemma SetUpSeats(s: State, s1: State, t: State, p: int)
    requires Seats(s) && Tidy(s) && p in s.players && s.players[p].conceded && !s.players[p].spectator && s.started
    requires s1 == SetConceded(s, p, false) && NoZones(s1, p) && Filling(OpenZones(s1, p), t, p)
    ensures Seats(t) && Tidy(t) && Active(t, p)
  {
    OpenZonesFacts(s1, p);
    OpenZonesRest(s1, p);
    var o := OpenZones(s1, p);
    assert !Active(s, p);
    forall q | q in t.players
      ensures Active(t, q) <==> Active(s, q) || q == p
      ensures !Active(t, q) ==> t.players[q].arrows == map[] && t.players[q].lastDraw == []
    {
      assert t.players[q].(nextCardId := o.players[q].nextCardId) == o.players[q];
    }
    assert Tidy(o);
  }

  function Owners(seats: seq<(int, DeckPlan)>): set<int>
  {
    set i | 0 <= i < |seats| :: seats[i].0
  }

  /** Exactly the players in `ps` have got zones; nothing else about the players changed but card counters. */
  ghost predicate SeatsFilled(s: State, t: State, ps: set<int>)
  {
    && t.started == s.started && t.players.Keys == s.players.Keys
    && (forall p :: p in s.players ==> t.players[p].(nextCardId := s.players[p].nextCardId) == s.players[p])
    && (forall q :: q in t.zones <==> q in s.zones || q.owner in ps)
    && (Tidy(s) ==> Tidy(t))
  }

  lemma SetUpFills(s: State, t: State, p: int)
    requires p in s.players && NoZones(s, p) && Filling(OpenZones(s, p), t, p)
    ensures SeatsFilled(s, t, {p})
  {
    OpenZonesFacts(s, p);
    OpenZonesRest(s, p);
    var o := OpenZones(s, p);
    assert Tidy(s) ==> Tidy(o);
    forall q | q in s.players
      ensures t.players[q].(nextCardId := s.players[q].nextCardId) == s.players[q]
    {
      assert t.players[q].(nextCardId := o.players[q].nextCardId) == o.players[q];
    }
  }

  lemma SeatsFilledThen(s: State, t: State, u: State, seats: seq<(int, DeckPlan)>)
    requires seats != [] && SeatsFilled(s, t, {seats[0].0}) && SeatsFilled(t, u, Owners(seats[1..]))
    ensures SeatsFilled(s, u, Owners(seats))
  {
    forall p | p in Owners(seats)
      ensures p in {seats[0].0} + Owners(seats[1..])
    {
      var i :| 0 <= i < |seats| && seats[i].0 == p;
      if i > 0 {
        assert seats[1..][i - 1].0 == p;
      }
    }
    forall p | p in Owners(seats[1..])
      ensures p in Owners(seats)
    {
      var i :| 0 <= i < |seats[1..]| && seats[1..][i].0 == p;
      assert seats[i + 1].0 == p;
    }
    assert Owners(seats) == {seats[0].0} + Owners(seats[1..]);
  }

  lemma NobodyFilled(s: State)
    ensures SeatsFilled(s, s, Owners([]))
  {
  }

  /** The players in `seats` set up one after the other. */
  ghost function SetUpAll(s: State, seats: seq<(int, DeckPlan)>): (t: State)
    requires Inv(s, NoCard) && AllFit(s, seats)
    ensures Inv(t, NoCard) && SeatsFilled(s, t, Owners(seats))
    decreases |seats|
  {
    hide Inv; hide SetUp; hide DeckFits; hide AllFit; hide Filling; hide SeatsFilled; hide Owners; hide PlanFits; hide Unshuffled;
    if seats == [] then
      NobodyFilled(s);
      s
    else
      FirstFits(s, seats);
      var s1 := SetUp(s, seats[0].0, seats[0].1);
      SetUpFills(s, s1, seats[0].0);
      var t := SetUpAll(s1, seats[1..]);
      SeatsFilledThen(s, s1, t, seats);
      t
  }

  /** Each deck fits the state it is set up in. */
  ghost predicate AllFit(s: State, seats: seq<(int, DeckPlan)>)
    decreases |seats|
  {
    seats != [] ==>
      DeckFits(s, seats[0].0, seats[0].1) && AllFit(SetUp(s, seats[0].0, seats[0].1), seats[1..])
  }

  lemma FirstFits(s: State, seats: seq<(int, DeckPlan)>)
    requires seats != [] && AllFit(s, seats)
    ensures var (p, deck) := seats[0];
            && Inv(s, NoCard) && p in s.players && NoZones(s, p) && PlanFits(s, deck)
            && multiset(deck.order) == multiset(Unshuffled(s, p, deck).zones[Place(p, Deck)])
            && AllFit(SetUp(s, p, deck), seats[1..])
  {
    hide Inv; hide SetUp;
  }

  /** doStartGameIfReady: all who play set up, then the game runs and nobody has conceded. */
  ghost function StartGame(s: State, seats: seq<(int, DeckPlan)>): (t: State)
    requires GameOk(s) && !s.started && AllFit(s, seats)
    requires Owners(seats) == set p | p in s.players && !s.players[p].spectator
    ensures GameOk(t) && t.started && forall p :: p in s.players && !s.players[p].spectator ==> Active(t, p)
  {
    hide Inv; hide Seats; hide Tidy; hide AllFit; hide SeatsFilled; hide Owners;
    var t := SetUpAll(s, seats);
    StartKeeps(s, t, Owners(seats));
    Running(t)
  }

  function Running(s: State): State
  {
    s.(started := true, players := map p | p in s.players :: s.players[p].(conceded := false))
  }

  lemma StartKeeps(s: State, t: State, ps: set<int>)
    requires Seats(s) && Tidy(s) && !s.started && Inv(t, NoCard) && SeatsFilled(s, t, ps)
    requires ps == set p | p in s.players && !s.players[p].spectator
    ensures GameOk(Running(t)) && forall p :: p in s.players && !s.players[p].spectator ==> Active(Running(t), p)
  {
    hide Inv;
    RunningKeepsInv(t);
    RunningSeats(s, t, ps);
  }

  lemma RunningKeepsInv(s: State)
    requires Inv(s, NoCard)
    ensures Inv(Running(s), NoCard)
  {
    hide Placed; hide Ids; hide Forest; hide Arrows;
    RunningPlaced(s);
    NothingDangles(s, NoCard);
    RunningSurvives(s);
    hide Running; hide Survives;
    SurvivesKeepsInv(s, NoCard, Running(s), NoCard);
  }

  lemma RunningSurvives(s: State)
    requires OwnersAlive(s, NoCard) && LinksAlive(s) && ArrowsAlive(s)
    ensures Survives(s, NoCard, Running(s), NoCard)
  {
  }

  lemma RunningPlaced(s: State)
    requires Placed(s, NoCard)
    ensures Placed(Running(s), NoCard)
  {
  }

  lemma RunningSeats(s: State, t: State, ps: set<int>)
    requires Seats(s) && Tidy(s) && !s.started && SeatsFilled(s, t, ps)
    requires ps == set p | p in s.players && !s.players[p].spectator
    ensures var u := Running(t); Seats(u) && Tidy(u) && forall p :: Active(u, p) <==> p in ps
  {
    var u := Running(t);
    forall p | p in u.players
      ensures Active(u, p) <==> p in ps
      ensures u.players[p].arrows == map[] && u.players[p].lastDraw == []
    {
      assert t.players[p].(nextCardId := s.players[p].nextCardId) == s.players[p];
      assert !Active(s, p);
    }
    forall q | q in u.zones
      ensures Active(u, q.owner)
    {
      assert q in s.zones ==> Active(s, q.owner);
    }
  }

  // ------------------------------------------------------------------ runs

  /** cmdFlipCard: a card on a table is turned over in place. */
  function Flip(s: State, c: CardRef, faceDown: bool): State
    requires c in s.heap
  {
    s.(heap := s.heap[c := s.heap[c].(faceDown := faceDown)])
  }

  lemma FlipKeeps(s: State, c: CardRef, faceDown: bool)
    requires GameOk(s) && c in s.heap && OnTable(s, c, NoCard)
    ensures GameOk(Flip(s, c, faceDown)) && SameSetting(s, Flip(s, c, faceDown))
  {
    hide Ids; hide Forest; hide Arrows; hide Placed; hide Seats; hide Tidy;
    var t := Flip(s, c, faceDown);
    FlipKeepsPlaced(s, c, faceDown);
    SameLinksKeepInv(s, NoCard, t, NoCard);
    FlipSetting(s, c, faceDown);
    SettingKeeps(s, t);
  }

  lemma FlipKeepsPlaced(s: State, c: CardRef, faceDown: bool)
    requires Placed(s, NoCard) && c in s.heap
    ensures Placed(Flip(s, c, faceDown), NoCard)
  {
  }

  lemma FlipSetting(s: State, c: CardRef, faceDown: bool)
    requires c in s.heap && OnTable(s, c, NoCard)
    ensures SameSetting(s, Flip(s, c, faceDown))
  {
  }

  datatype Command =
    | DoDraw(player: int, number: int)
    | DoDrawCrypt(player: int, number: int)
    | DoUndo(player: int, grid: Grid)
    | DoMulligan(player: int, number: int, order: seq<CardRef>, grid: Grid)
    | DoShuffle(player: int, order: seq<CardRef>)
    | DoMove(player: int, start: Place, target: Place, reqs: seq<MoveRequest>, x: int, y: int, mayTouch: bool, grid: Grid)
    | DoFlip(player: int, card: CardRef, faceDown: bool)
    | DoAttach(player: int, zone: ZoneName, id: int, goal: AttachTarget, grid: Grid)
    | DoToken(player: int, zone: ZoneName, name: string, x: int, y: int, token: bool, ref: CardRef,
              replaced: Option<(ZoneName, int)>, grid: Grid)
    | DoArrow(player: int, from: Place, id: int, end: EndRequest)
    | DoDeleteArrow(player: int, arrow: int)
    | DoPhase
    | DoConcede(player: int, grid: Grid)
    | DoUnconcede(player: int, deck: DeckPlan)
    | DoJoin(player: int, spectator: bool, judge: bool)
    | DoLeave(player: int, grid: Grid)
    | DoStart(seats: seq<(int, DeckPlan)>)
    | DoStop

  /** The command comes from somebody in the game, and what it brings along is well-formed. */
  ghost predicate Allowed(s: State, cmd: Command)
    requires GameOk(s)
  {
    hide Inv; hide Seats; hide Tidy;
    match cmd
    case DoDraw(p, _) => Active(s, p)
    case DoDrawCrypt(p, _) => Active(s, p)
    case DoUndo(p, _) => Active(s, p)
    case DoMulligan(p, _, order, grid) =>
      Active(s, p) && multiset(order) == multiset(HandUnderDeck(s, p, grid).zones[Place(p, Deck)])
    case DoShuffle(p, order) =>
      Active(s, p) && (NotRefused(s, p); multiset(order) == multiset(s.zones[Place(p, Deck)]))
    case DoMove(p, start, target, _, _, _, mayTouch, _) =>
      Active(s, p) && MoveRefusal(s, p, start, target, mayTouch).None?
    case DoFlip(p, c, _) => Active(s, p) && c in s.heap && s.heap[c].zone == Some(Place(p, Table))
    case DoAttach(p, zone, id, goal, _) => p in s.players && PlanOk(s, PlanAttach(s, p, zone, id, goal))
    case DoToken(p, zone, name, x, y, token, ref, replaced, grid) =>
      p in s.players && ref !in s.heap && TokenPlanOk(s, p, zone, name, x, y, token, ref, replaced, grid)
    case DoArrow(p, _, _, _) => p in s.players
    case DoDeleteArrow(p, _) => p in s.players
    case DoPhase => true
    case DoConcede(p, _) => Active(s, p)
    case DoUnconcede(p, deck) =>
      && p in s.players && s.players[p].conceded && !s.players[p].spectator && s.started
      && DeckFits(SetConceded(s, p, false), p, deck)
    case DoJoin(p, spectator, _) => p !in s.players && (s.started ==> spectator)
    case DoLeave(p, _) => p in s.players
    case DoStart(seats) =>
      !s.started && AllFit(s, seats) && Owners(seats) == set p | p in s.players && !s.players[p].spectator
    case DoStop => s.started
  }

  /** Commands about who takes part. */
  predicate AboutSeats(cmd: Command)
  {
    cmd.DoPhase? || cmd.DoConcede? || cmd.DoUnconcede? || cmd.DoJoin? || cmd.DoLeave? || cmd.DoStart? || cmd.DoStop?
  }

  predicate AboutLinks(cmd: Command)
  {
    cmd.DoFlip? || cmd.DoAttach? || cmd.DoToken? || cmd.DoArrow? || cmd.DoDeleteArrow?
  }

  ghost function Exec(s: State, cmd: Command): (t: State)
    requires GameOk(s) && Allowed(s, cmd)
    ensures GameOk(t)
  {
    hide GameOk; hide Allowed;
    if AboutSeats(cmd) then ExecSeats(s, cmd)
    else if AboutLinks(cmd) then ExecLinks(s, cmd)
    else ExecMoves(s, cmd)
  }

  ghost function ExecMoves(s: State, cmd: Command): (t: State)
    requires GameOk(s) && Allowed(s, cmd) && !AboutSeats(cmd) && !AboutLinks(cmd)
    ensures GameOk(t)
  {
    hide Inv; hide Seats; hide Tidy; hide MoveBetween; hide Conserved; hide SamePopulation; hide HandUnderDeck;
    hide DrawCards; hide DrawCryptCards; hide UndoDraw; hide Mulligan; hide Reorder;
    match cmd
    case DoDraw(p, n) => DrawCards(s, p, n)
    case DoDrawCrypt(p, n) => DrawCryptCards(s, p, n)
    case DoUndo(p, grid) => UndoDraw(s, p, grid).0
    case DoMulligan(p, n, order, grid) => Mulligan(s, p, n, order, grid)
    case DoShuffle(p, order) =>
      NotRefused(s, p);
      ReorderKeeps(s, Place(p, Deck), order);
      Reorder(s, Place(p, Deck), order)
    case DoMove(p, start, target, reqs, x, y, _, grid) =>
      MoveBetween(s, p, start, target, reqs, x, y, true, false, grid).0
  }

  ghost function ExecLinks(s: State, cmd: Command): (t: State)
    requires GameOk(s) && Allowed(s, cmd) && AboutLinks(cmd)
    ensures GameOk(t)
  {
    hide Inv; hide Seats; hide Tidy; hide SamePopulation; hide PlanAttach; hide TokenPlanOk; hide PlanOk;
    hide Attach; hide CreateToken; hide Flip; hide SameSetting; hide ExecArrows;
    match cmd
    case DoFlip(p, c, faceDown) =>
      FlipKeeps(s, c, faceDown);
      Flip(s, c, faceDown)
    case DoAttach(p, zone, id, goal, grid) => Attach(s, p, zone, id, goal, grid).0
    case DoToken(p, zone, name, x, y, token, ref, replaced, grid) =>
      CreateToken(s, p, zone, name, x, y, token, ref, replaced, grid).0
    case _ => ExecArrows(s, cmd)
  }

  ghost function ExecArrows(s: State, cmd: Command): (t: State)
    requires GameOk(s) && Allowed(s, cmd) && (cmd.DoArrow? || cmd.DoDeleteArrow?)
    ensures GameOk(t)
  {
    hide Inv; hide Seats; hide Tidy; hide CreateArrow; hide DeleteArrow; hide AddArrow;
    match cmd
    case DoArrow(p, from, id, end) => CreateArrow(s, p, from, id, end).0
    case DoDeleteArrow(p, arrow) => DeleteArrow(s, p, arrow).0
  }

  predicate AboutEntering(cmd: Command)
  {
    cmd.DoUnconcede? || cmd.DoJoin? || cmd.DoStart?
  }

  ghost function ExecSeats(s: State, cmd: Command): (t: State)
    requires GameOk(s) && Allowed(s, cmd) && AboutSeats(cmd)
    ensures GameOk(t)
  {
    hide GameOk; hide Allowed;
    if AboutEntering(cmd) then ExecEntering(s, cmd) else ExecLeaving(s, cmd)
  }

  ghost function ExecEntering(s: State, cmd: Command): (t: State)
    requires GameOk(s) && Allowed(s, cmd) && AboutEntering(cmd)
    ensures GameOk(t)
  {
    hide Inv; hide Seats; hide Tidy; hide AllFit; hide DeckFits; hide Owners; hide Refs;
    hide Unconcede; hide StartGame; hide Join; hide SetConceded; hide Active;
    match cmd
    case DoUnconcede(p, deck) => Unconcede(s, p, deck)
    case DoJoin(p, spectator, judge) =>
      JoinKeeps(s, p, spectator, judge);
      Join(s, p, spectator, judge)
    case DoStart(seats) => StartGame(s, seats)
  }

  ghost function ExecLeaving(s: State, cmd: Command): (t: State)
    requires GameOk(s) && Allowed(s, cmd) && AboutSeats(cmd) && !AboutEntering(cmd)
    ensures GameOk(t)
  {
    hide Inv; hide Seats; hide Tidy; hide Departed; hide NoArrowsAt;
    hide Concede; hide Leave; hide ExecForAll;
    if cmd.DoConcede? then Concede(s, cmd.player, cmd.grid)
    else if cmd.DoLeave? then Leave(s, cmd.player, cmd.grid)
    else ExecForAll(s, cmd)
  }

  ghost function ExecForAll(s: State, cmd: Command): (t: State)
    requires GameOk(s) && (cmd.DoPhase? || cmd.DoStop?)
    ensures GameOk(t)
  {
    hide GameOk; hide StopGame; hide ClearArrows;
    if cmd.DoPhase? then
      ClearArrowsKeepsGame(s);
      ClearArrows(s)
    else
      StopGameKeeps(s);
      StopGame(s)
  }

  ghost predicate AllowedRun(s: State, cmds: seq<Command>)
    requires GameOk(s)
    decreases |cmds|
  {
    cmds != [] ==> Allowed(s, cmds[0]) && AllowedRun(Exec(s, cmds[0]), cmds[1..])
  }

  ghost function Run(s: State, cmds: seq<Command>): (t: State)
    requires GameOk(s) && AllowedRun(s, cmds)
    decreases |cmds|
  {
    hide Inv; hide Seats; hide Tidy; hide Allowed; hide Exec;
    if cmds == [] then s else Run(Exec(s, cmds[0]), cmds[1..])
  }

  /** A game nobody has joined yet. */
  const NEW_GAME := State(false, map[], map[], map[])

  lemma NewGameOk()
    ensures GameOk(NEW_GAME)
  {
  }

  /**
   Over every run: each live card is in exactly one zone and knows which; ids are distinct among a
   player's cards and below the player's counter; attachments form a forest of depth one whose
   attached cards lie at x = -1 on tables; every arrow joins cards in public view or a card and a
   player, no player owning two with the same ends; and only active players have zones.
   */
  lemma {:induction false} InvariantsHold(s: State, cmds: seq<Command>)
    requires GameOk(s) && AllowedRun(s, cmds)
    ensures var t := Run(s, cmds);
            Placed(t, NoCard) && Ids(t, NoCard) && Forest(t, NoCard) && Arrows(t, NoCard) && Seats(t) && Tidy(t)
    decreases |cmds|
  {
    hide Placed; hide Ids; hide Forest; hide Arrows; hide Seats; hide Tidy; hide Allowed; hide Exec;
    if cmds != [] {
      InvariantsHold(Exec(s, cmds[0]), cmds[1..]);
    }
  }

  /** So the invariants hold in every state a game can come to. */
  lemma EveryGameKeepsInvariants(cmds: seq<Command>)
    requires (NewGameOk(); AllowedRun(NEW_GAME, cmds))
    ensures GameOk(NEW_GAME)
    ensures var t := Run(NEW_GAME, cmds);
            Placed(t, NoCard) && Ids(t, NoCard) && Forest(t, NoCard) && Arrows(t, NoCard) && Seats(t) && Tidy(t)
  {
    hide Placed; hide Ids; hide Forest; hide Arrows; hide Seats; hide Tidy; hide AllowedRun; hide Run;
    NewGameOk();
    InvariantsHold(NEW_GAME, cmds);
  }
}

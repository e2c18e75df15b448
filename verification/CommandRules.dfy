/**
 What the commands about cards answer and do, told by the fields of the request and of the game before
 and after: whom an arrow joins, which face and id a moved card gets, who may move what.
 */
module CommandRules {
  import opened Wrappers
  import opened Cards
  import opened Shuffling
  import opened ZoneLists
  import opened GameState
  import opened Movement
  import opened Commands
  import opened Attachments
  import opened Tokens
  import GameRuns

  /** The zones everybody sees into. */
  predicate InView(z: ZoneName)
  {
    z == Table || z == Stack || z == Grave || z == Rfg
  }

  lemma InViewIsPublic(z: ZoneName)
    ensures InView(z) <==> TypeOf(z) == PublicZone
  {
  }

  /** The card with that id in that zone. */
  ghost predicate CardAt(s: State, zone: Place, id: int, c: CardRef)
  {
    zone in s.zones && c in s.zones[zone] && c in s.heap && s.heap[c].id == id
  }

  /** A zone holds one card of an id at most. */
  lemma OneCardAt(s: State, zone: Place, id: int, c: CardRef, d: CardRef)
    requires Inv(s, NoCard) && CardAt(s, zone, id, c) && CardAt(s, zone, id, d)
    ensures c == d
  {
    hide Forest; hide Arrows;
    ZonesKnown(s, zone, NoCard);
    assert c != d ==> IdsDiffer(s, NoCard, c, d);
  }

  lemma FoundIsCardAt(s: State, zone: Place, id: int)
    requires Inv(s, NoCard) && zone in s.zones && InView(zone.zone)
    ensures ZoneKnown(s, zone)
    ensures var found := FindCard(s.heap, s.zones[zone], Hidden(zone), id);
            if found.Some? then CardAt(s, zone, id, found.value.0) else forall c :: !CardAt(s, zone, id, c)
  {
    ZonesKnown(s, zone, NoCard);
    hide Inv;
  }

  // ------------------------------------------------------------------ arrows

  /** The end an arrow is to have: the player named, or the card named. */
  ghost predicate EndNamed(s: State, target: EndRequest, end: ArrowTarget)
  {
    match target
    case AtPlayer(q) => end == OnPlayer(q)
    case AtCard(zone, id) => end.OnCard? && CardAt(s, zone, id, end.card)
  }

  ghost predicate ArrowNamed(s: State, startZone: Place, startId: int, target: EndRequest, a: Arrow)
  {
    CardAt(s, startZone, startId, a.start) && EndNamed(s, target, a.target)
  }

  /** Nothing but one arrow of p is new, from the card named first to the end named second. */
  ghost predicate ArrowDrawn(s: State, t: State, p: int, startZone: Place, startId: int, target: EndRequest, id: int)
  {
    && p in s.players && p in t.players && id in t.players[p].arrows
    && id >= 1 && (id == 1 || id - 1 in s.players[p].arrows) && (forall i :: i in s.players[p].arrows ==> i < id)
    && ArrowNamed(s, startZone, startId, target, t.players[p].arrows[id])
    && t.players[p].arrows - {id} == s.players[p].arrows
    && t.players[p].(arrows := s.players[p].arrows) == s.players[p]
    && t.players.Keys == s.players.Keys && (forall q :: q in s.players && q != p ==> t.players[q] == s.players[q])
    && t.heap == s.heap && t.zones == s.zones && t.started == s.started
  }

  /** A successful command draws one arrow, from the card and to the card or player that it names. */
  lemma ArrowGoesWhereAsked(s: State, p: int, startZone: Place, startId: int, target: EndRequest)
    requires GameOk(s) && p in s.players
    ensures var r := CreateArrow(s, p, startZone, startId, target);
            r.1 == RespOk ==> exists id :: ArrowDrawn(s, r.0, p, startZone, startId, target, id)
  {
    hide Inv; hide Seats; hide Tidy; hide FindCard;
    var r := CreateArrow(s, p, startZone, startId, target);
    if r.1 == RespOk {
      InViewIsPublic(startZone.zone);
      FoundIsCardAt(s, startZone, startId);
      if target.AtCard? {
        InViewIsPublic(target.zone.zone);
        FoundIsCardAt(s, target.zone, target.id);
      }
      var id := NewArrowId(s.players[p].arrows.Keys);
      var a := Arrow(PublicCard(s, startZone, startId).value, TargetEnd(s, startZone, target).value);
      assert r.0 == AddArrow(s, p, id, a);
      AddedArrow(s, p, id, a);
      assert ArrowDrawn(s, r.0, p, startZone, startId, target, id);
    }
  }

  lemma AddedArrow(s: State, p: int, id: int, a: Arrow)
    requires p in s.players && id !in s.players[p].arrows
    ensures var t := AddArrow(s, p, id, a);
            && p in t.players && id in t.players[p].arrows && t.players[p].arrows[id] == a
            && t.players[p].arrows - {id} == s.players[p].arrows
            && t.players[p].(arrows := s.players[p].arrows) == s.players[p]
            && t.players.Keys == s.players.Keys && (forall q :: q in s.players && q != p ==> t.players[q] == s.players[q])
            && t.heap == s.heap && t.zones == s.zones && t.started == s.started
  {
  }

  /** Players and zones that the command names exist. */
  ghost predicate EndsExist(s: State, startZone: Place, target: EndRequest)
  {
    && startZone.owner in s.players && startZone in s.zones
    && (target.AtPlayer? ==> target.player in s.players)
    && (target.AtCard? ==> target.zone.owner in s.players && target.zone in s.zones)
  }

  /** Each answer of cmdCreateArrow, in the order in which the checks are made. */
  lemma ArrowAnswer(s: State, p: int, startZone: Place, startId: int, target: EndRequest)
    requires GameOk(s) && p in s.players
    ensures CreateArrow(s, p, startZone, startId, target).1
         == if s.players[p].spectator then RespFunctionNotAllowed
            else if !s.started then RespGameNotStarted
            else if s.players[p].conceded then RespContextError
            else if !EndsExist(s, startZone, target) then RespNameNotFound
            else if !InView(startZone.zone) then RespContextError
            else if !exists c :: CardAt(s, startZone, startId, c) then RespNameNotFound
            else if target.AtCard? && !InView(target.zone.zone) then RespContextError
            else if target.AtCard? && !exists c :: CardAt(s, target.zone, target.id, c) then RespNameNotFound
            else if exists a :: a in s.players[p].arrows.Values && ArrowNamed(s, startZone, startId, target, a) then RespContextError
            else RespOk
  {
    hide Inv; hide Seats; hide Tidy; hide FindCard;
    if Refusal(s, p).None? && EndsExist(s, startZone, target) {
      InViewIsPublic(startZone.zone);
      if InView(startZone.zone) {
        FoundIsCardAt(s, startZone, startId);
      }
      if target.AtCard? {
        InViewIsPublic(target.zone.zone);
        if InView(target.zone.zone) {
          FoundIsCardAt(s, target.zone, target.id);
        }
      }
      var start := PublicCard(s, startZone, startId);
      if start.Ok? {
        var end := TargetEnd(s, startZone, target);
        if end.Ok? {
          forall a: Arrow | ArrowNamed(s, startZone, startId, target, a)
            ensures a == Arrow(start.value, end.value)
          {
            OneCardAt(s, startZone, startId, a.start, start.value);
            if target.AtCard? {
              OneCardAt(s, target.zone, target.id, a.target.card, end.value.card);
            }
          }
          assert ArrowNamed(s, startZone, startId, target, Arrow(start.value, end.value));
        }
      }
    }
  }

  /** cmdDeleteArrow: just the arrow of that id goes, when the player has one; the answers in their order. */
  lemma DeleteArrowDeletes(s: State, p: int, id: int)
    requires GameOk(s) && p in s.players
    ensures var r := DeleteArrow(s, p, id);
            && r.1 == (if s.players[p].spectator then RespFunctionNotAllowed
                       else if !s.started then RespGameNotStarted
                       else if s.players[p].conceded then RespContextError
                       else if id !in s.players[p].arrows then RespNameNotFound
                       else RespOk)
            && (r.1 != RespOk ==> r.0 == s)
            && (r.1 == RespOk ==>
                  && r.0.players.Keys == s.players.Keys && (forall q :: q in s.players && q != p ==> r.0.players[q] == s.players[q])
                  && r.0.players[p].arrows.Keys == s.players[p].arrows.Keys - {id}
                  && (forall i :: i in r.0.players[p].arrows ==> r.0.players[p].arrows[i] == s.players[p].arrows[i])
                  && r.0.players[p].(arrows := s.players[p].arrows) == s.players[p]
                  && r.0.heap == s.heap && r.0.zones == s.zones && r.0.started == s.started)
  {
    hide Inv; hide Seats; hide Tidy;
  }

  // ------------------------------------------------------------------ who may move what

  /** A card named in a request: by position where cards are hidden from everybody, by id elsewhere. */
  ghost predicate NamedIn(s: State, zone: Place, id: int, c: CardRef)
  {
    if zone.zone == Deck || zone.zone == Crypt || zone.zone == Sideboard then
      zone in s.zones && 0 <= id < |s.zones[zone]| && s.zones[zone][id] == c
    else CardAt(s, zone, id, c)
  }

  lemma FoundIsNamed(s: State, zone: Place, id: int)
    requires Inv(s, NoCard) && zone in s.zones
    ensures ZoneKnown(s, zone)
    ensures var found := FindCard(s.heap, s.zones[zone], Hidden(zone), id);
            if found.Some? then NamedIn(s, zone, id, found.value.0) else forall c :: !NamedIn(s, zone, id, c)
  {
    ZonesKnown(s, zone, NoCard);
    hide Inv;
  }

  lemma OneNamed(s: State, zone: Place, id: int, c: CardRef, d: CardRef)
    requires Inv(s, NoCard) && NamedIn(s, zone, id, c) && NamedIn(s, zone, id, d)
    ensures c == d
  {
    if CardAt(s, zone, id, c) && CardAt(s, zone, id, d) {
      OneCardAt(s, zone, id, c, d);
    }
  }

  /** The answers of cmdMoveCard before it looks at the cards, in the order of the checks. */
  lemma MoveAnswer(s: State, p: int, start: Place, target: Place, mayTouch: bool)
    requires p in s.players
    ensures var judge := s.players[p].judge;
            MoveRefusal(s, p, start, target, mayTouch)
            == if s.players[p].spectator then Some(RespFunctionNotAllowed)
               else if !s.started then Some(RespGameNotStarted)
               else if s.players[p].conceded then Some(RespContextError)
               else if start.owner !in s.players || start !in s.zones then Some(RespNameNotFound)
               else if start.owner != p && !mayTouch && !judge then Some(RespContextError)
               else if target.owner !in s.players || target !in s.zones then Some(RespNameNotFound)
               else if start.owner != p && target.owner != p && !judge then Some(RespContextError)
               else None
  {
  }

  /** Own cards may go to anybody's zones, others' only to one's own and with permission; judges may do all that. */
  lemma MayMoveIff(s: State, p: int, start: Place, target: Place, mayTouch: bool)
    requires p in s.players && start.owner in s.players && target.owner in s.players && start in s.zones && target in s.zones
    ensures MoveRefusal(s, p, start, target, mayTouch).None?
            <==> && s.started && !s.players[p].spectator && !s.players[p].conceded
                 && (start.owner == p || s.players[p].judge || (mayTouch && target.owner == p))
  {
  }

  // ------------------------------------------------------------------ attaching

  /** What cmdAttachCard decides, check by check. */
  ghost predicate RightPlan(s: State, p: int, zone: ZoneName, id: int, goal: AttachTarget, plan: AttachPlan)
    requires p in s.players
  {
    var start := Place(p, zone);
    if s.players[p].spectator then plan == Refuse(RespFunctionNotAllowed)
    else if !s.started then plan == Refuse(RespGameNotStarted)
    else if s.players[p].conceded then plan == Refuse(RespContextError)
    else if start !in s.zones || !exists c :: NamedIn(s, start, id, c) then plan == Refuse(RespNameNotFound)
    else if goal.Nowhere? then
      if zone == Table && exists c :: NamedIn(s, start, id, c) && c in s.heap && s.heap[c].parent.Some?
      then plan.Free? && NamedIn(s, start, id, plan.card) else plan == Refuse(RespContextError)
    else if goal.zone.owner !in s.players then plan == Refuse(RespNameNotFound)
    else if goal.zone !in s.zones then
      if zone == Table then plan.Free? && NamedIn(s, start, id, plan.card) else plan == Refuse(RespContextError)
    else if goal.zone.zone != Table then plan == Refuse(RespContextError)
    else if goal.card.None? || !exists q :: CardAt(s, goal.zone, goal.card.value, q) then plan == Refuse(RespNameNotFound)
    else if exists q :: CardAt(s, goal.zone, goal.card.value, q) && s.heap[q].parent.Some? then plan == Refuse(RespContextError)
    else if zone != Table then plan == Refuse(RespContextError)
    else plan.Hang? && NamedIn(s, start, id, plan.card) && CardAt(s, goal.zone, goal.card.value, plan.under)
  }

  /** Which card is to be hung under which, or taken off, and each refusal in its turn. */
  lemma AttachPlanIsRight(s: State, p: int, zone: ZoneName, id: int, goal: AttachTarget)
    requires GameOk(s) && p in s.players
    ensures RightPlan(s, p, zone, id, goal, PlanAttach(s, p, zone, id, goal))
  {
    hide Inv; hide Seats; hide Tidy; hide FindCard; hide NamedIn; hide CardAt;
    var start := Place(p, zone);
    if start in s.zones {
      FoundIsNamed(s, start, id);
      var found := FindCard(s.heap, s.zones[start], Hidden(start), id);
      if found.Some? {
        NamedThere(s, start, id, found.value.0);
        forall c | NamedIn(s, start, id, c)
          ensures c == found.value.0
        {
          OneNamed(s, start, id, c, found.value.0);
        }
      }
    }
    if goal.To? && goal.zone in s.zones && goal.zone.zone == Table && goal.card.Some? {
      FoundIsCardAt(s, goal.zone, goal.card.value);
      var found := FindCard(s.heap, s.zones[goal.zone], Hidden(goal.zone), goal.card.value);
      if found.Some? {
        forall q | CardAt(s, goal.zone, goal.card.value, q)
          ensures q == found.value.0
        {
          OneCardAt(s, goal.zone, goal.card.value, q, found.value.0);
        }
      }
    }
  }

  lemma NamedThere(s: State, zone: Place, id: int, c: CardRef)
    requires Inv(s, NoCard) && NamedIn(s, zone, id, c)
    ensures c in s.heap
  {
    ZonesKnown(s, zone, NoCard);
    hide Inv;
  }

  /** The answer is the plan's. */
  lemma AttachAnswer(s: State, p: int, zone: ZoneName, id: int, goal: AttachTarget, grid: Grid)
    requires GameOk(s) && p in s.players && PlanOk(s, PlanAttach(s, p, zone, id, goal))
    ensures var plan, r := PlanAttach(s, p, zone, id, goal), Attach(s, p, zone, id, goal, grid);
            if plan.Refuse? then r == (s, plan.response) else r.1 == RespOk
  {
    hide Inv; hide Seats; hide Tidy; hide PlanAttach; hide AttachCard; hide UnattachCommand; hide SameSetting; hide SamePopulation;
    hide Attachable;
  }

  // ------------------------------------------------------------------ tokens, faces

  /** The token as it was asked for: face up, alone, under the owner's next id. */
  ghost predicate TokenAsAsked(s: State, t: State, place: Place, name: string, token: bool, ref: CardRef)
  {
    && place.owner in s.players && ref in t.heap
    && t.heap[ref].id == s.players[place.owner].nextCardId && t.heap[ref].name == name
    && t.heap[ref].destroyOnZoneChange == token && t.heap[ref].zone == Some(place)
  }

  lemma TokenPlaced(s: State, p: int, zone: ZoneName, name: string, x: int, y: int, token: bool, ref: CardRef, grid: Grid)
    requires p in s.players && Place(p, zone) in s.zones
    ensures var t := PlaceToken(s, p, zone, name, x, y, token, ref, grid);
            var list := s.zones[Place(p, zone)];
            && TokenAsAsked(s, t, Place(p, zone), name, token, ref)
            && t.heap == s.heap[ref := t.heap[ref]]
            && !t.heap[ref].faceDown && t.heap[ref].parent.None? && t.heap[ref].attached == []
            && (zone == Table ==> t.heap[ref].x == grid.column(ref) && t.heap[ref].y == (if y < 0 then 0 else y))
            && (zone != Table ==> t.heap[ref].x == 0 && t.heap[ref].y == 0)
            && t.zones == s.zones[Place(p, zone) :=
                 if zone == Table || x >= |list| then list + [ref]
                 else if x < 0 then (if list == [] then [ref] else [ref] + list)
                 else list[..x] + [ref] + list[x..]]
            && t.players == s.players[p := s.players[p].(nextCardId := s.players[p].nextCardId + 1)] && t.started == s.started
  {
    InsertedWhere(s.zones[Place(p, zone)], x, ref);
    hide InsertAt;
  }

  /** A place beyond the end means the end, one below 0 the front. */
  lemma InsertedWhere(list: seq<CardRef>, x: int, ref: CardRef)
    ensures InsertAt(list, Positive(x), ref)
         == if x >= |list| then list + [ref]
            else if x < 0 then (if list == [] then [ref] else [ref] + list)
            else list[..x] + [ref] + list[x..]
  {
    if x < 0 && list != [] {
      assert list[..0] + [ref] + list[0..] == [ref] + list;
    }
    if list == [] {
      assert list + [ref] == [ref];
    }
  }

  /** cmdCreateToken: the token, whether or not a card is then hung under it; and the card that is. */
  lemma TokenIsAsAsked(
    s: State, p: int, zone: ZoneName, name: string, x: int, y: int, token: bool, ref: CardRef,
    replaced: Option<(ZoneName, int)>, grid: Grid)
    requires GameOk(s) && p in s.players && ref !in s.heap && TokenPlanOk(s, p, zone, name, x, y, token, ref, replaced, grid)
    ensures var r := CreateToken(s, p, zone, name, x, y, token, ref, replaced, grid);
            if s.players[p].spectator then r == (s, RespFunctionNotAllowed)
            else if !s.started then r == (s, RespGameNotStarted)
            else if s.players[p].conceded then r == (s, RespContextError)
            else if Place(p, zone) !in s.zones then r == (s, RespNameNotFound)
            else
              && TokenAsAsked(s, r.0, Place(p, zone), name, token, ref)
              && (replaced.None? ==> r == (PlaceToken(s, p, zone, name, x, y, token, ref, grid), RespOk))
  {
    hide Inv; hide Seats; hide Tidy; hide PlanAttach; hide SamePopulation; hide Attach; hide TokenPlanOk; hide PlaceToken;
    if Refusal(s, p).None? && Place(p, zone) in s.zones {
      AddCardKeepsGame(s, ref, Place(p, zone), Positive(x), grid.column(ref), Positive(y), name, token);
      TokenPlaced(s, p, zone, name, x, y, token, ref, grid);
      if replaced.Some? {
        var t := PlaceToken(s, p, zone, name, x, y, token, ref, grid);
        TokenPlanIs(s, p, zone, name, x, y, token, ref, replaced, grid);
        AttachKeepsSpots(t, p, replaced.value.0, replaced.value.1, To(Place(p, zone), Some(t.heap[ref].id)), grid);
      }
    }
  }

  lemma TokenPlanIs(
    s: State, p: int, zone: ZoneName, name: string, x: int, y: int, token: bool, ref: CardRef,
    replaced: Option<(ZoneName, int)>, grid: Grid)
    requires GameOk(s) && p in s.players && ref !in s.heap && TokenPlanOk(s, p, zone, name, x, y, token, ref, replaced, grid)
    requires Refusal(s, p).None? && Place(p, zone) in s.zones && replaced.Some?
    ensures var t := PlaceToken(s, p, zone, name, x, y, token, ref, grid);
            && GameOk(t) && p in t.players && ref in t.heap
            && PlanOk(t, PlanAttach(t, p, replaced.value.0, replaced.value.1, To(Place(p, zone), Some(t.heap[ref].id))))
            && CreateToken(s, p, zone, name, x, y, token, ref, replaced, grid)
               == Attach(t, p, replaced.value.0, replaced.value.1, To(Place(p, zone), Some(t.heap[ref].id)), grid)
  {
    hide Inv; hide Seats; hide Tidy; hide PlanAttach; hide SamePopulation; hide Attach;
    AddCardKeepsGame(s, ref, Place(p, zone), Positive(x), grid.column(ref), Positive(y), name, token);
  }

  lemma AttachKeepsSpots(s: State, p: int, zone: ZoneName, id: int, goal: AttachTarget, grid: Grid)
    requires GameOk(s) && p in s.players && PlanOk(s, PlanAttach(s, p, zone, id, goal))
    ensures var t := Attach(s, p, zone, id, goal, grid).0;
            forall c :: c in s.heap ==> c in t.heap && SameSpot(s.heap[c], t.heap[c])
  {
    hide Inv; hide Seats; hide Tidy; hide PlanAttach; hide AttachCard; hide UnattachCommand; hide SamePopulation;
    hide Attachable;
    if PlanAttach(s, p, zone, id, goal).Hang? {
      PlanIsAttachable(s, p, zone, id, goal);
    }
  }

  /** cmdFlipCard: a card of one's own table is turned over, if it does not lie so already. */
  ghost function FlipCommand(s: State, p: int, zone: ZoneName, id: int, faceDown: bool): (r: (State, Response))
    requires GameOk(s) && p in s.players
    ensures GameOk(r.0)
  {
    hide Inv; hide Seats; hide Tidy;
    if Refusal(s, p).Some? then (s, Refusal(s, p).value)
    else if Place(p, zone) !in s.zones then (s, RespNameNotFound)
    else if !HasCoords(zone) then (s, RespContextError)
    else
      FoundIsNamed(s, Place(p, zone), id);
      var found := FindCard(s.heap, s.zones[Place(p, zone)], Hidden(Place(p, zone)), id);
      if found.None? then (s, RespNameNotFound)
      else if s.heap[found.value.0].faceDown == faceDown then (s, RespContextError)
      else
        FoundOnTable(s, p, zone, found.value.0);
        GameRuns.FlipKeeps(s, found.value.0, faceDown);
        (GameRuns.Flip(s, found.value.0, faceDown), RespOk)
  }

  lemma FoundOnTable(s: State, p: int, zone: ZoneName, c: CardRef)
    requires Place(p, zone) in s.zones && HasCoords(zone) && ZoneKnown(s, Place(p, zone)) && c in s.zones[Place(p, zone)]
    ensures c in s.heap && s.heap[c].zone == Some(Place(p, Table))
  {
  }

  /** When a card is turned over and by which answer it is not; then that card's face changes and nothing else. */
  lemma FlipAnswer(s: State, p: int, zone: ZoneName, id: int, faceDown: bool)
    requires GameOk(s) && p in s.players
    ensures var r := FlipCommand(s, p, zone, id, faceDown);
            var place := Place(p, zone);
            if s.players[p].spectator then r == (s, RespFunctionNotAllowed)
            else if !s.started then r == (s, RespGameNotStarted)
            else if s.players[p].conceded then r == (s, RespContextError)
            else if place !in s.zones then r == (s, RespNameNotFound)
            else if zone != Table then r == (s, RespContextError)
            else if !exists c :: CardAt(s, place, id, c) then r == (s, RespNameNotFound)
            else if exists c :: CardAt(s, place, id, c) && s.heap[c].faceDown == faceDown then r == (s, RespContextError)
            else
              && r.1 == RespOk
              && exists c :: CardAt(s, place, id, c) && r.0 == s.(heap := s.heap[c := s.heap[c].(faceDown := !s.heap[c].faceDown)])
                             && GameRuns.Allowed(s, GameRuns.DoFlip(p, c, faceDown))
                             && r.0 == GameRuns.Exec(s, GameRuns.DoFlip(p, c, faceDown))
  {
    hide Inv; hide Seats; hide Tidy; hide FindCard;
    var place := Place(p, zone);
    if Refusal(s, p).None? && place in s.zones && zone == Table {
      FoundIsCardAt(s, place, id);
      FoundIsNamed(s, place, id);
      var found := FindCard(s.heap, s.zones[place], Hidden(place), id);
      if found.Some? {
        var c := found.value.0;
        forall d | CardAt(s, place, id, d)
          ensures d == c
        {
          OneCardAt(s, place, id, d, c);
        }
        FoundOnTable(s, p, zone, c);
        NotRefused(s, p);
        if s.heap[c].faceDown != faceDown {
          FlipIsCommand(s, p, c, faceDown);
        }
      }
    }
  }

  lemma FlipIsCommand(s: State, p: int, c: CardRef, faceDown: bool)
    requires GameOk(s) && Active(s, p) && c in s.heap && s.heap[c].zone == Some(Place(p, Table)) && s.heap[c].faceDown != faceDown
    ensures GameRuns.Allowed(s, GameRuns.DoFlip(p, c, faceDown))
    ensures GameRuns.Exec(s, GameRuns.DoFlip(p, c, faceDown)) == GameRuns.Flip(s, c, faceDown)
    ensures GameRuns.Flip(s, c, faceDown) == s.(heap := s.heap[c := s.heap[c].(faceDown := !s.heap[c].faceDown)])
  {
    hide Inv; hide Seats; hide Tidy;
  }
}

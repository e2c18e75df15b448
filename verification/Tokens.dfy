/** Tokens, arrows and turning cards over (common/server_player.cpp:1193-1242, 1361-1535). */
module Tokens {
  import opened Wrappers
  import opened Cards
  import opened Shuffling
  import opened ZoneLists
  import opened GameState
  import opened Movement
  import opened Commands
  import opened Attachments

  // ------------------------------------------------------------------ a new card

  /** A card nobody refers to yet appears in a zone, under the owner's next id. */
  function AddCard(s: State, ref: CardRef, p: Place, index: int, x: int, y: int, name: string, token: bool): State
    requires p in s.zones && p.owner in s.players
  {
    var owner := s.players[p.owner];
    var card := Card(owner.nextCardId, name, token, false, if HasCoords(p.zone) then x else 0,
                     if HasCoords(p.zone) then y else 0, Some(p), None, []);
    State(s.started,
          s.heap[ref := card],
          s.zones[p := if HasCoords(p.zone) then s.zones[p] + [ref] else InsertAt(s.zones[p], index, ref)],
          s.players[p.owner := owner.(nextCardId := owner.nextCardId + 1)])
  }

  ghost predicate Added(s: State, t: State, ref: CardRef, p: Place)
    requires p in s.zones && p.owner in s.players
  {
    && t.heap.Keys == s.heap.Keys + {ref}
    && (forall d :: d in s.heap ==> t.heap[d] == s.heap[d])
    && t.heap[ref].zone == Some(p) && t.heap[ref].id == s.players[p.owner].nextCardId
    && t.heap[ref].parent.None? && t.heap[ref].attached == []
    && (!HasCoords(p.zone) ==> Plain(t.heap[ref]))
    && t.zones.Keys == s.zones.Keys
    && (forall q :: q in s.zones && q != p ==> t.zones[q] == s.zones[q])
    && Distinct(t.zones[p]) && (forall d :: d in t.zones[p] <==> d in s.zones[p] || d == ref)
    && t.started == s.started
    && t.players == s.players[p.owner := s.players[p.owner].(nextCardId := s.players[p.owner].nextCardId + 1)]
  }

  lemma AddCardAdds(s: State, ref: CardRef, p: Place, index: int, x: int, y: int, name: string, token: bool)
    requires p in s.zones && p.owner in s.players && ref !in s.heap
    requires Distinct(s.zones[p]) && ref !in s.zones[p]
    ensures Added(s, AddCard(s, ref, p, index, x, y, name, token), ref, p)
  {
    InsertAtFacts(s.zones[p], index, ref);
    InsertAtFacts(s.zones[p], -1, ref);
  }

  lemma AddedKeepsPlaced(s: State, t: State, ref: CardRef, p: Place)
    requires Placed(s, NoCard) && p in s.zones && p.owner in s.players && ref !in s.heap && Added(s, t, ref, p)
    ensures Placed(t, NoCard)
  {
  }

  lemma AddedKeepsIds(s: State, t: State, ref: CardRef, p: Place)
    requires Ids(s, NoCard) && p in s.zones && p.owner in s.players && ref !in s.heap && Added(s, t, ref, p)
    ensures Ids(t, NoCard)
  {
    forall d | d in t.heap
      ensures IdBelowCounter(t, NoCard, d)
    {
      assert d in s.heap ==> IdBelowCounter(s, NoCard, d);
    }
    forall d, e | d in t.heap && e in t.heap && d != e
      ensures IdsDiffer(t, NoCard, d, e)
    {
      assert d in s.heap ==> IdBelowCounter(s, NoCard, d);
      assert e in s.heap ==> IdBelowCounter(s, NoCard, e);
      assert d in s.heap && e in s.heap ==> IdsDiffer(s, NoCard, d, e);
    }
  }

  lemma AddedKeepsForest(s: State, t: State, ref: CardRef, p: Place)
    requires Forest(s, NoCard)
    requires p in s.zones && p.owner in s.players && ref !in s.heap && Added(s, t, ref, p)
    ensures Forest(t, NoCard)
  {
    AddedRest(s, t, ref, p);
    hide Added;
    assert forall d :: d in s.heap ==> Where(t, d, NoCard) == Where(s, d, NoCard);
  }

  lemma AddedRest(s: State, t: State, ref: CardRef, p: Place)
    requires p in s.zones && p.owner in s.players && Added(s, t, ref, p)
    ensures t.heap.Keys == s.heap.Keys + {ref} && t.heap[ref].parent.None? && t.heap[ref].attached == []
    ensures forall d :: d in s.heap ==> t.heap[d] == s.heap[d]
  {
  }

  lemma AddedKeepsArrows(s: State, t: State, ref: CardRef, p: Place)
    requires Arrows(s, NoCard)
    requires p in s.zones && p.owner in s.players && ref !in s.heap && Added(s, t, ref, p)
    ensures Arrows(t, NoCard)
  {
    assert forall d :: d in s.heap ==> Where(t, d, NoCard) == Where(s, d, NoCard);
    forall q, i | q in t.players && i in t.players[q].arrows
      ensures i >= 1 && EndsOk(t, NoCard, t.players[q].arrows[i])
    {
      assert EndsOk(s, NoCard, s.players[q].arrows[i]);
    }
  }

  lemma AddCardKeepsInv(s: State, ref: CardRef, p: Place, index: int, x: int, y: int, name: string, token: bool)
    requires Inv(s, NoCard) && p in s.zones && ref !in s.heap
    ensures p.owner in s.players
    ensures var t := AddCard(s, ref, p, index, x, y, name, token); Inv(t, NoCard) && Added(s, t, ref, p)
  {
    hide Placed; hide Ids; hide Forest; hide Arrows;
    ZonesKnown(s, p, NoCard);
    ZoneOwner(s, p, NoCard);
    AddCardAdds(s, ref, p, index, x, y, name, token);
    var t := AddCard(s, ref, p, index, x, y, name, token);
    AddedKeepsPlaced(s, t, ref, p);
    AddedKeepsIds(s, t, ref, p);
    AddedKeepsForest(s, t, ref, p);
    AddedKeepsArrows(s, t, ref, p);
  }

  lemma AddCardKeepsGame(s: State, ref: CardRef, p: Place, index: int, x: int, y: int, name: string, token: bool)
    requires GameOk(s) && p in s.zones && ref !in s.heap
    ensures p.owner in s.players
    ensures var t := AddCard(s, ref, p, index, x, y, name, token);
            GameOk(t) && Added(s, t, ref, p) && forall q :: Active(s, q) ==> Active(t, q)
  {
    hide Inv;
    AddCardKeepsInv(s, ref, p, index, x, y, name, token);
    SameSeats(s, AddCard(s, ref, p, index, x, y, name, token));
  }

  // ------------------------------------------------------------------ create token

  /** cmdCreateToken; the new token may stand in for a card, which is then attached to it. */
  ghost function CreateToken(
    s: State, p: int, zone: ZoneName, name: string, x: int, y: int, token: bool, ref: CardRef,
    replaced: Option<(ZoneName, int)>, grid: Grid): (r: (State, Response))
    requires GameOk(s) && p in s.players && ref !in s.heap
    requires TokenPlanOk(s, p, zone, name, x, y, token, ref, replaced, grid)
    ensures GameOk(r.0)
    ensures Refusal(s, p).None? && Place(p, zone) in s.zones ==>
              r.0.heap.Keys == s.heap.Keys + {ref} && forall c :: c in s.heap ==> r.0.heap[c].name == s.heap[c].name
    ensures Refusal(s, p).Some? || Place(p, zone) !in s.zones ==> r.0 == s && r.1 != RespOk
  {
    hide Inv; hide Seats; hide Tidy; hide PlanAttach;
    if Refusal(s, p).Some? then (s, Refusal(s, p).value)
    else if Place(p, zone) !in s.zones then (s, RespNameNotFound)
    else
      AddCardKeepsGame(s, ref, Place(p, zone), Positive(x), grid.column(ref), Positive(y), name, token);
      var t := PlaceToken(s, p, zone, name, x, y, token, ref, grid);
      if replaced.None? then (t, RespOk)
      else Attach(t, p, replaced.value.0, replaced.value.1, To(Place(p, zone), Some(t.heap[ref].id)), grid)
  }

  function Positive(x: int): int
  {
    if x < 0 then 0 else x
  }

  function PlaceToken(s: State, p: int, zone: ZoneName, name: string, x: int, y: int, token: bool, ref: CardRef, grid: Grid): State
    requires Place(p, zone) in s.zones && p in s.players
  {
    AddCard(s, ref, Place(p, zone), Positive(x), grid.column(ref), Positive(y), name, token)
  }

  /** The card to be replaced is not the token itself. */
  ghost predicate TokenPlanOk(
    s: State, p: int, zone: ZoneName, name: string, x: int, y: int, token: bool, ref: CardRef,
    replaced: Option<(ZoneName, int)>, grid: Grid)
    requires GameOk(s) && p in s.players && ref !in s.heap
  {
    Refusal(s, p).None? && Place(p, zone) in s.zones && replaced.Some? ==>
      (AddCardKeepsGame(s, ref, Place(p, zone), Positive(x), grid.column(ref), Positive(y), name, token);
      var t := PlaceToken(s, p, zone, name, x, y, token, ref, grid);
      PlanOk(t, PlanAttach(t, p, replaced.value.0, replaced.value.1, To(Place(p, zone), Some(t.heap[ref].id)))))
  }

  // ------------------------------------------------------------------ arrows

  ghost predicate IsMax(ids: set<int>, m: int)
  {
    m in ids && forall i :: i in ids ==> i <= m
  }

  lemma PickOne<T>(s: set<T>) returns (x: T)
    requires |s| > 0
    ensures x in s
  {
    x :| x in s;
  }

  lemma {:induction false} MaxExists(ids: set<int>)
    requires |ids| > 0
    ensures exists m :: IsMax(ids, m)
  {
    var x := PickOne(ids);
    var rest := ids - {x};
    if |rest| > 0 {
      MaxExists(rest);
      var m :| IsMax(rest, m);
      assert forall i :: i in ids ==> i == x || i in rest;
      assert IsMax(ids, if x < m then m else x);
    } else {
      assert ids == {x};
      assert IsMax(ids, x);
    }
  }

  /** newArrowId: one more than the largest id in use, at least 1. */
  ghost function NewArrowId(ids: set<int>): (id: int)
    ensures id >= 1 && (id == 1 || id - 1 in ids) && forall i :: i in ids ==> i < id
  {
    if |ids| == 0 then 1
    else
      MaxExists(ids);
      var m :| IsMax(ids, m);
      if m < 0 then 1 else m + 1
  }

  function AddArrow(s: State, p: int, id: int, a: Arrow): State
    requires p in s.players
  {
    s.(players := s.players[p := s.players[p].(arrows := s.players[p].arrows[id := a])])
  }

  lemma AddArrowKeepsGame(s: State, p: int, id: int, a: Arrow)
    requires GameOk(s) && Active(s, p) && id >= 1 && id !in s.players[p].arrows
    requires EndsOk(s, NoCard, a) && a !in s.players[p].arrows.Values
    ensures GameOk(AddArrow(s, p, id, a)) && Active(AddArrow(s, p, id, a), p)
  {
    hide Placed; hide Ids; hide Forest; hide Arrows; hide Seats; hide Tidy;
    var t := AddArrow(s, p, id, a);
    FewerArrowsPlaced(s, t, NoCard);
    AddArrowKeepsForest(s, p, id, a);
    AddArrowKeepsArrows(s, p, id, a);
    AddArrowKeepsIds(s, p, id, a);
    AddArrowKeepsSeats(s, p, id, a);
  }

  lemma AddArrowKeepsForest(s: State, p: int, id: int, a: Arrow)
    requires Forest(s, NoCard) && p in s.players
    ensures Forest(AddArrow(s, p, id, a), NoCard)
  {
    var t := AddArrow(s, p, id, a);
    assert forall d :: d in s.heap ==> Where(t, d, NoCard) == Where(s, d, NoCard);
  }

  lemma AddArrowKeepsSeats(s: State, p: int, id: int, a: Arrow)
    requires Seats(s) && Tidy(s) && Active(s, p)
    ensures var t := AddArrow(s, p, id, a); Seats(t) && Tidy(t) && Active(t, p)
  {
    var t := AddArrow(s, p, id, a);
    assert forall q :: Active(t, q) <==> Active(s, q);
  }

  lemma AddArrowKeepsIds(s: State, p: int, id: int, a: Arrow)
    requires Ids(s, NoCard) && p in s.players
    ensures Ids(AddArrow(s, p, id, a), NoCard)
  {
    var t := AddArrow(s, p, id, a);
    forall d | d in t.heap
      ensures IdBelowCounter(t, NoCard, d)
    {
      assert IdBelowCounter(s, NoCard, d);
    }
    forall d, e | d in t.heap && e in t.heap && d != e
      ensures IdsDiffer(t, NoCard, d, e)
    {
      assert IdsDiffer(s, NoCard, d, e);
    }
  }

  lemma AddArrowKeepsArrows(s: State, p: int, id: int, a: Arrow)
    requires Arrows(s, NoCard) && p in s.players && id >= 1 && id !in s.players[p].arrows
    requires EndsOk(s, NoCard, a) && a !in s.players[p].arrows.Values
    ensures Arrows(AddArrow(s, p, id, a), NoCard)
  {
    var t := AddArrow(s, p, id, a);
    forall q, i | q in t.players && i in t.players[q].arrows
      ensures i >= 1 && EndsOk(t, NoCard, t.players[q].arrows[i])
    {
      assert i in s.players[q].arrows ==> EndsOk(s, NoCard, s.players[q].arrows[i]);
    }
    forall q, i, j | q in t.players && i in t.players[q].arrows && j in t.players[q].arrows && i != j
      ensures t.players[q].arrows[i] != t.players[q].arrows[j]
    {
      assert q == p && i in s.players[p].arrows ==> s.players[p].arrows[i] in s.players[p].arrows.Values;
      assert q == p && j in s.players[p].arrows ==> s.players[p].arrows[j] in s.players[p].arrows.Values;
    }
  }

  /** The end the command names: a player, or a card in one of that player's zones. */
  datatype EndRequest = AtPlayer(player: int) | AtCard(zone: Place, id: int)

  /** Both players and all zones named exist. */
  predicate EndsKnown(s: State, startZone: Place, target: EndRequest)
  {
    && startZone.owner in s.players && startZone in s.zones
    && match target
       case AtPlayer(q) => q in s.players
       case AtCard(zone, _) => zone.owner in s.players && zone in s.zones
  }

  ghost function PublicCard(s: State, zone: Place, id: int): (r: Result<CardRef, Response>)
    requires GameOk(s) && zone in s.zones
    ensures r.Ok? ==> InPublic(s, r.value, NoCard)
  {
    hide Seats; hide Tidy; hide Ids; hide Forest; hide Arrows;
    if TypeOf(zone.zone) != PublicZone then Err(RespContextError)
    else
      ZonesKnown(s, zone, NoCard);
      var found := FindCard(s.heap, s.zones[zone], Hidden(zone), id);
      if found.None? then Err(RespNameNotFound)
      else
        assert found.value.0 in s.zones[zone];
        Ok(found.value.0)
  }

  ghost function TargetEnd(s: State, startZone: Place, target: EndRequest): (r: Result<ArrowTarget, Response>)
    requires GameOk(s) && EndsKnown(s, startZone, target)
    ensures r.Ok? ==> match r.value case OnCard(c) => InPublic(s, c, NoCard) case OnPlayer(q) => q in s.players
  {
    hide GameOk;
    match target
    case AtPlayer(q) => Ok(OnPlayer(q))
    case AtCard(zone, id) =>
      var c := PublicCard(s, zone, id);
      if c.Err? then Err(c.error) else Ok(OnCard(c.value))
  }

  /**
   cmdCreateArrow: both ends in public view, and no second arrow with the same ends.  A missing player or
   zone is reported before any zone's kind is looked at.
   */
  ghost function CreateArrow(s: State, p: int, startZone: Place, startId: int, target: EndRequest): (r: (State, Response))
    requires GameOk(s) && p in s.players
    ensures GameOk(r.0) && r.0.heap == s.heap && r.0.zones == s.zones
    ensures r.1 == RespOk ==> exists id, a :: id !in s.players[p].arrows && r.0 == AddArrow(s, p, id, a)
    ensures r.1 != RespOk ==> r.0 == s
  {
    hide Inv; hide Seats; hide Tidy;
    if Refusal(s, p).Some? then (s, Refusal(s, p).value)
    else if !EndsKnown(s, startZone, target) then (s, RespNameNotFound)
    else
      NotRefused(s, p);
      var start := PublicCard(s, startZone, startId);
      if start.Err? then (s, start.error)
      else
        var end := TargetEnd(s, startZone, target);
        if end.Err? then (s, end.error)
        else
          var a := Arrow(start.value, end.value);
          if a in s.players[p].arrows.Values then (s, RespContextError)
          else
            var id := NewArrowId(s.players[p].arrows.Keys);
            AddArrowKeepsGame(s, p, id, a);
            (AddArrow(s, p, id, a), RespOk)
  }

  /** cmdDeleteArrow. */
  ghost function DeleteArrow(s: State, p: int, id: int): (r: (State, Response))
    requires GameOk(s) && p in s.players
    ensures GameOk(r.0) && r.0.heap == s.heap && r.0.zones == s.zones
  {
    hide Inv; hide Seats; hide Tidy;
    if Refusal(s, p).Some? then (s, Refusal(s, p).value)
    else if id !in s.players[p].arrows then (s, RespNameNotFound)
    else
      var t := s.(players := s.players[p := s.players[p].(arrows := s.players[p].arrows - {id})]);
      FewerArrowsKeepGame(s, t);
      (t, RespOk)
  }

  /** setActivePhase: every arrow in the game goes. */
  function ClearArrows(s: State): State
  {
    s.(players := map p | p in s.players :: s.players[p].(arrows := map[]))
  }

  lemma ClearArrowsKeepsGame(s: State)
    requires GameOk(s)
    ensures GameOk(ClearArrows(s)) && forall c :: NoArrowsAt(ClearArrows(s), c)
  {
    hide Inv; hide Seats; hide Tidy;
    FewerArrowsKeepGame(s, ClearArrows(s));
  }

  lemma FewerArrowsKeepGame(s: State, t: State)
    requires GameOk(s) && t.heap == s.heap && t.zones == s.zones && t.started == s.started
    requires t.players.Keys == s.players.Keys
    requires forall p :: p in s.players ==>
               && t.players[p].(arrows := s.players[p].arrows) == s.players[p]
               && Fewer(s.players[p], t.players[p])
    ensures GameOk(t) && forall p :: Active(s, p) ==> Active(t, p)
  {
    hide Placed; hide Ids; hide Forest; hide Arrows;
    FewerArrowsPlaced(s, t, NoCard);
    NothingDangles(s, NoCard);
    FewerArrowsAlive(s, t);
    SurvivesKeepsInv(s, NoCard, t, NoCard);
    forall p | p in s.players
      ensures t.players[p].arrows.Keys <= s.players[p].arrows.Keys
    {
      assert Fewer(s.players[p], t.players[p]);
      assert forall i :: i in t.players[p].arrows.Keys ==> i in s.players[p].arrows.Keys;
    }
    FewerArrowsSeats(s, t);
  }

  lemma FewerArrowsAlive(s: State, t: State)
    requires ArrowsAlive(s) && t.heap == s.heap && t.players.Keys == s.players.Keys
    requires forall p :: p in s.players ==> Fewer(s.players[p], t.players[p])
    ensures ArrowsAlive(t)
  {
    forall p, i | p in t.players && i in t.players[p].arrows
      ensures EndsAlive(t, t.players[p].arrows[i])
    {
      assert Fewer(s.players[p], t.players[p]);
      assert EndsAlive(s, s.players[p].arrows[i]);
    }
  }

  lemma FewerArrowsSeats(s: State, t: State)
    requires Seats(s) && t.zones == s.zones && t.started == s.started && t.players.Keys == s.players.Keys
    requires forall p :: p in s.players ==>
               && t.players[p].(arrows := s.players[p].arrows) == s.players[p]
               && t.players[p].arrows.Keys <= s.players[p].arrows.Keys
    ensures Seats(t) && forall p :: Active(s, p) <==> Active(t, p)
  {
    forall p | p in t.players && !Active(t, p)
      ensures t.players[p].arrows == map[] && t.players[p].lastDraw == []
    {
      assert t.players[p].(arrows := s.players[p].arrows) == s.players[p];
      assert !Active(s, p);
      assert t.players[p].arrows.Keys == {};
    }
    assert forall p :: p in s.players ==> (Active(s, p) <==> Active(t, p));
  }
}

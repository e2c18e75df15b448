/** Attaching cards, creating tokens and arrows (common/server_player.cpp:1244-1535). */
module Attachments {
  import opened Wrappers
  import opened Cards
  import opened Shuffling
  import opened ZoneLists
  import opened GameState
  import opened Movement
  import opened Commands

  // ------------------------------------------------------------------ the link itself

  /** setParentCard, and the attached card leaves its column. */
  function Link(s: State, c: CardRef, q: CardRef): State
    requires c in s.heap && q in s.heap
    requires s.heap[c].parent.Some? ==>
               s.heap[c].parent.value in s.heap && c in s.heap[s.heap[c].parent.value].attached
  {
    var heap := SetParent(s.heap, c, Some(q));
    s.(heap := heap[c := heap[c].(x := -1)])
  }

  /** A card may hang under another one: both on tables, neither would get two levels. */
  ghost predicate MayLink(s: State, c: CardRef, q: CardRef)
  {
    && c in s.heap && q in s.heap && c != q
    && s.heap[q].parent.None? && s.heap[c].attached == []
    && OnTable(s, c, NoCard) && OnTable(s, q, NoCard)
  }

  /** Entry by entry: c has left its old parent and is the last child of q, at x = -1. */
  ghost predicate Linked(before: Heap, after: Heap, c: CardRef, q: CardRef)
    requires c in before && q in before
  {
    && after.Keys == before.Keys
    && (forall d :: d in before ==>
          && after[d] == before[d].(parent := after[d].parent, attached := after[d].attached, x := after[d].x)
          && after[d].parent == (if d == c then Some(q) else before[d].parent)
          && after[d].x == (if d == c then -1 else before[d].x)
          && Distinct(after[d].attached))
    && (forall d, k :: d in before ==>
          (k in after[d].attached
           <==> (k in before[d].attached && !(k == c && before[c].parent == Some(d))) || (k == c && d == q)))
  }

  lemma HangsUnder(before: Heap, h: Heap, after: Heap, c: CardRef, q: CardRef)
    requires c in before && q in before && c != q && Detached(before, h, c) && c !in h[q].attached
    requires after.Keys == before.Keys
    requires after[c] == h[c].(parent := Some(q), x := -1)
    requires after[q] == h[q].(attached := h[q].attached + [c])
    requires forall d :: d in before && d != c && d != q ==> after[d] == h[d]
    ensures Linked(before, after, c, q)
  {
    assert Distinct(after[q].attached);
    assert forall d :: d in before ==> (d != q ==> after[d].attached == h[d].attached);
    forall d, k | d in before
      ensures k in after[d].attached
              <==> (k in before[d].attached && !(k == c && before[c].parent == Some(d))) || (k == c && d == q)
    {
      assert k in h[d].attached <==> k in before[d].attached && !(k == c && before[c].parent == Some(d));
    }
  }

  lemma SetParentLinks(heap: Heap, c: CardRef, q: CardRef)
    requires c in heap && q in heap && c != q && forall d :: d in heap ==> Distinct(heap[d].attached)
    requires heap[c].parent.Some? ==>
               var o := heap[c].parent.value; o in heap && o != c && c in heap[o].attached
    requires c in heap[q].attached ==> heap[c].parent == Some(q)
    ensures var after := SetParent(heap, c, Some(q));
            Linked(heap, after[c := after[c].(x := -1)], c, q)
  {
    hide Linked;
    SetParentDetaches(heap, c);
    var h := SetParent(heap, c, None);
    var after := SetParent(heap, c, Some(q));
    HangsUnder(heap, h, after[c := after[c].(x := -1)], c, q);
  }

  lemma LinkedLeaf(before: Heap, after: Heap, c: CardRef, q: CardRef, d: CardRef)
    requires c in before && q in before && Linked(before, after, c, q)
    requires d in before && d != q && before[d].attached == []
    ensures after[d].attached == []
  {
    assert forall k :: k !in after[d].attached;
    EmptyWithoutMembers(after[d].attached);
  }

  lemma LinkedParent(s: State, t: State, c: CardRef, q: CardRef, d: CardRef)
    requires Forest(s, NoCard) && MayLink(s, c, q) && Linked(s.heap, t.heap, c, q)
    requires d in t.heap && t.heap[d].parent.Some?
    ensures var o := t.heap[d].parent.value;
            && o in t.heap && d in t.heap[o].attached
            && t.heap[o].parent.None? && t.heap[d].attached == []
            && t.heap[d].x == -1 && OnTable(t, d, NoCard) && OnTable(t, o, NoCard)
  {
    var o := t.heap[d].parent.value;
    if d == c {
      LinkedLeaf(s.heap, t.heap, c, q, c);
    } else {
      assert d in s.heap && s.heap[d].parent == Some(o) && o != c && d != q;
      LinkedLeaf(s.heap, t.heap, c, q, d);
    }
  }

  lemma LinkedKeepsForest(s: State, t: State, c: CardRef, q: CardRef)
    requires Forest(s, NoCard) && MayLink(s, c, q) && Linked(s.heap, t.heap, c, q)
    ensures Forest(t, NoCard)
  {
    forall d | d in t.heap && t.heap[d].parent.Some?
      ensures var o := t.heap[d].parent.value;
              && o in t.heap && d in t.heap[o].attached
              && t.heap[o].parent.None? && t.heap[d].attached == []
              && t.heap[d].x == -1 && OnTable(t, d, NoCard) && OnTable(t, o, NoCard)
    {
      LinkedParent(s, t, c, q, d);
    }
    forall d, k | d in t.heap && k in t.heap[d].attached
      ensures k in t.heap && t.heap[k].parent == Some(d)
    {
      assert k in s.heap[d].attached || (k == c && d == q);
    }
  }

  lemma LinkedKeepsRest(s: State, t: State, c: CardRef, q: CardRef)
    requires Placed(s, NoCard) && Ids(s, NoCard) && Arrows(s, NoCard)
    requires c in s.heap && q in s.heap && Linked(s.heap, t.heap, c, q)
    requires t.zones == s.zones && t.players == s.players
    ensures Placed(t, NoCard) && Ids(t, NoCard) && Arrows(t, NoCard)
  {
    assert SameSpots(s, t);
    hide Linked; hide SameSpots;
    SpotsKeepPlaced(s, t, NoCard);
    SpotsKeepIds(s, t, NoCard);
    SpotsKeepArrows(s, t, NoCard);
  }

  lemma LinkKeepsInv(s: State, c: CardRef, q: CardRef)
    requires Inv(s, NoCard) && MayLink(s, c, q)
    ensures s.heap[c].parent.Some? ==>
              s.heap[c].parent.value in s.heap && c in s.heap[s.heap[c].parent.value].attached
    ensures Inv(Link(s, c, q), NoCard) && Linked(s.heap, Link(s, c, q).heap, c, q)
  {
    hide Placed; hide Ids; hide Arrows;
    SetParentLinks(s.heap, c, q);
    hide Forest;
    LinkedKeepsForest(s, Link(s, c, q), c, q);
    LinkedKeepsRest(s, Link(s, c, q), c, q);
  }

  // ------------------------------------------------------------------ frames

  /** No zone, player or role changes, and no card changes zones; outside tables cards lie as before. */
  ghost predicate SameSetting(s: State, t: State)
  {
    && t.started == s.started && t.zones.Keys == s.zones.Keys && t.players.Keys == s.players.Keys
    && (forall p :: p in s.players ==>
          SameSeat(s.players[p], t.players[p]) && t.players[p].lastDraw == s.players[p].lastDraw)
    && t.heap.Keys == s.heap.Keys
    && (forall c :: c in s.heap ==> SameSpot(s.heap[c], t.heap[c]))
  }

  predicate SameSpot(a: Card, b: Card)
  {
    && b.zone == a.zone && b.id == a.id && b.name == a.name && b.destroyOnZoneChange == a.destroyOnZoneChange
    && (a.zone.Some? && !HasCoords(a.zone.value.zone) ==> b.x == a.x && b.y == a.y && b.faceDown == a.faceDown)
  }

  lemma SettingKeeps(s: State, t: State)
    requires Seats(s) && Tidy(s) && SameSetting(s, t)
    ensures Seats(t) && Tidy(t) && SamePopulation(s, t) && forall p :: Active(s, p) ==> Active(t, p)
  {
    forall p | p in t.players
      ensures Active(t, p) <==> Active(s, p)
      ensures !Active(t, p) ==> t.players[p].arrows == map[] && t.players[p].lastDraw == []
    {
      assert SameSeat(s.players[p], t.players[p]);
      assert !Active(t, p) ==> t.players[p].arrows.Keys == {};
    }
    forall c | c in t.heap && t.heap[c].zone.Some? && !HasCoords(t.heap[c].zone.value.zone)
      ensures Plain(t.heap[c])
    {
      assert SameSpot(s.heap[c], t.heap[c]);
    }
  }

  lemma SettingThen(s: State, t: State, u: State)
    requires SameSetting(s, t) && SameSetting(t, u)
    ensures SameSetting(s, u)
  {
    forall c | c in s.heap
      ensures SameSpot(s.heap[c], u.heap[c])
    {
      assert SameSpot(s.heap[c], t.heap[c]);
    }
    forall p | p in s.players
      ensures SameSeat(s.players[p], u.players[p]) && u.players[p].lastDraw == s.players[p].lastDraw
    {
      assert SameSeat(s.players[p], t.players[p]);
    }
  }

  lemma CalmSetting(s: State, t: State)
    requires Calm(s, t, {}, {}) && t.heap.Keys == s.heap.Keys
    ensures SameSetting(s, t)
  {
    forall c | c in s.heap
      ensures SameSpot(s.heap[c], t.heap[c])
    {
      assert Stays(s.heap[c], t.heap[c]);
    }
    forall p | p in s.players
      ensures t.players[p].lastDraw == s.players[p].lastDraw
    {
      assert t.players[p].(arrows := s.players[p].arrows) == s.players[p];
    }
  }

  lemma LinkSetting(s: State, t: State, c: CardRef, q: CardRef)
    requires c in s.heap && q in s.heap && Linked(s.heap, t.heap, c, q) && OnTable(s, c, NoCard)
    requires t.zones == s.zones && t.players == s.players && t.started == s.started
    ensures SameSetting(s, t)
  {
  }

  lemma DropArrowsSetting(s: State, c: CardRef)
    ensures SameSetting(s, DropArrows(s, c))
  {
  }

  // ------------------------------------------------------------------ the attach command

  /** Arrows at the card go, its own children go. */
  ghost function ShedLinks(s: State, c: CardRef, q: CardRef, grid: Grid): (t: State)
    requires Inv(s, NoCard) && Attachable(s, c, q)
    ensures Inv(t, NoCard) && SameSetting(s, t) && MayLink(t, c, q)
  {
    hide Inv; hide SameSetting; hide UnattachAll; hide Calm; hide UnlinkedAll; hide MayLink; hide AllAttached; hide NoArrowsAt;
    DropArrowsKeepsInv(s, c, NoCard);
    DropArrowsSetting(s, c);
    var s1 := DropArrows(s, c);
    ChildrenAttachedPlain(s1, c);
    var t := UnattachAll(s1, s1.heap[c].attached, grid, NoCard);
    ReadyToLink(s1, t, c, q);
    UnlinkedAllKeys(s1, t, s1.heap[c].attached);
    CalmSetting(s1, t);
    SettingThen(s, s1, t);
    t
  }

  lemma UnlinkedAllKeys(s: State, t: State, ks: seq<CardRef>)
    requires UnlinkedAll(s, t, ks)
    ensures t.heap.Keys == s.heap.Keys
  {
  }

  /** The first half: the card sheds its links and hangs under the target. */
  ghost function HangUnder(s: State, c: CardRef, q: CardRef, grid: Grid): (t: State)
    requires Inv(s, NoCard) && Attachable(s, c, q)
    ensures Inv(t, NoCard) && SameSetting(s, t)
    ensures q in t.heap && t.heap[q].parent.None? && c in t.heap && t.heap[c].parent == Some(q)
  {
    hide Inv; hide SameSetting; hide ShedLinks; hide Linked; hide SetParent;
    var s1 := ShedLinks(s, c, q, grid);
    LinkKeepsInv(s1, c, q);
    var t := Link(s1, c, q);
    LinkSetting(s1, t, c, q);
    LinkedEnds(s1, t, c, q);
    SettingThen(s, s1, t);
    t
  }

  lemma LinkedEnds(s: State, t: State, c: CardRef, q: CardRef)
    requires MayLink(s, c, q) && Linked(s.heap, t.heap, c, q)
    ensures q in t.heap && t.heap[q].parent.None? && c in t.heap && t.heap[c].parent == Some(q)
  {
  }

  /** A card on a table may be attached to another card on a table that hangs under none. */
  ghost predicate Attachable(s: State, c: CardRef, q: CardRef)
  {
    && c in s.heap && q in s.heap && c != q && s.heap[q].parent.None?
    && OnTable(s, c, NoCard) && OnTable(s, q, NoCard)
  }

  lemma ChildrenAttachedPlain(s: State, c: CardRef)
    requires Inv(s, NoCard) && c in s.heap
    ensures AllAttached(s, s.heap[c].attached, NoCard)
  {
    hide Placed; hide Ids; hide Arrows;
  }

  lemma ReadyToLink(s: State, t: State, c: CardRef, q: CardRef)
    requires Inv(s, NoCard) && Attachable(s, c, q)
    requires UnlinkedAll(s, t, s.heap[c].attached) && Calm(s, t, {}, {})
    ensures MayLink(t, c, q) && c in t.heap && q in t.heap
  {
    hide Placed; hide Ids; hide Arrows;
    assert Stays(s.heap[c], t.heap[c]) && Stays(s.heap[q], t.heap[q]);
    assert forall e :: e !in t.heap[c].attached;
    EmptyWithoutMembers(t.heap[c].attached);
  }

  /** If the new parent stands in a stacked pile, it moves to a pile of its own. */
  ghost function GiveRoom(s: State, q: CardRef, grid: Grid): (t: State)
    requires Inv(s, NoCard) && q in s.heap && s.heap[q].parent.None? && OnTable(s, q, NoCard)
    ensures Inv(t, NoCard) && SameSetting(s, t)
  {
    hide Inv; hide SameSetting; hide Calm; hide SameTrees; hide Compact; hide Relocate;
    SettingItself(s);
    if grid.stacked then
      RelocateCalm(s, q, grid.column(q), NoCard);
      var s1 := Relocate(s, q, grid.column(q));
      CalmSetting2(s, s1);
      if s.heap[q].faceDown then
        var s2 := Compact(s1, s.heap[q].zone.value, grid.compactedAfter(q), NoCard);
        CalmSetting2(s1, s2);
        SettingThen(s, s1, s2);
        s2
      else s1
    else s
  }

  lemma SettingItself(s: State)
    ensures SameSetting(s, s)
  {
  }

  lemma CalmSetting2(s: State, t: State)
    requires Calm(s, t, {}, {}) && SameTrees(s, t)
    ensures SameSetting(s, t)
  {
    CalmSetting(s, t);
  }

  /** cmdAttachCard once all checks have passed and there is a target card. */
  ghost function AttachCard(s: State, c: CardRef, q: CardRef, grid: Grid): (t: State)
    requires Inv(s, NoCard) && Attachable(s, c, q)
    ensures Inv(t, NoCard) && SameSetting(s, t)
  {
    hide Inv; hide SameSetting; hide Calm; hide SameTrees; hide Compact; hide HangUnder; hide GiveRoom;
    var s1 := HangUnder(s, c, q, grid);
    OnSameTables(s, s1, c, q);
    var s2 := GiveRoom(s1, q, grid);
    var t := Compact(s2, s.heap[c].zone.value, grid.compactedAtEnd, NoCard);
    CalmSetting2(s2, t);
    SettingThen(s, s1, s2);
    SettingThen(s, s2, t);
    t
  }

  lemma OnSameTables(s: State, t: State, c: CardRef, q: CardRef)
    requires Attachable(s, c, q) && SameSetting(s, t)
    ensures q in t.heap && OnTable(t, q, NoCard)
    ensures s.heap[c].zone.Some? && HasCoords(s.heap[c].zone.value.zone)
  {
    assert SameSpot(s.heap[q], t.heap[q]);
  }

  /** cmdAttachCard without a target: the card is unattached; its arrows go as well. */
  ghost function UnattachCommand(s: State, c: CardRef, grid: Grid): (t: State)
    requires Inv(s, NoCard) && c in s.heap && s.heap[c].parent.Some?
    ensures Inv(t, NoCard) && SameSetting(s, t)
  {
    hide Inv; hide SameSetting; hide Calm; hide Unlinked; hide UnattachCard; hide NoArrowsAt;
    DropArrowsKeepsInv(s, c, NoCard);
    DropArrowsSetting(s, c);
    var s1 := DropArrows(s, c);
    var t := UnattachCard(s1, c, grid, NoCard);
    UnlinkedKeys(s1, t, c);
    CalmSetting(s1, t);
    SettingThen(s, s1, t);
    t
  }

  lemma UnlinkedKeys(s: State, t: State, c: CardRef)
    requires c in s.heap && Unlinked(s, t, c)
    ensures t.heap.Keys == s.heap.Keys
  {
  }

  // ------------------------------------------------------------------ the checks of cmdAttachCard

  /** Where the command wants the card to go: nowhere, or to a card (or none) in a zone of a player. */
  datatype AttachTarget = Nowhere | To(zone: Place, card: Option<int>)

  datatype AttachPlan = Refuse(response: Response) | Hang(card: CardRef, under: CardRef) | Free(card: CardRef)

  ghost function PlanAttach(s: State, p: int, startZone: ZoneName, cardId: int, target: AttachTarget): AttachPlan
    requires GameOk(s) && p in s.players
  {
    hide Inv; hide Seats; hide Tidy;
    var start := Place(p, startZone);
    if Refusal(s, p).Some? then Refuse(Refusal(s, p).value)
    else if start !in s.zones then Refuse(RespNameNotFound)
    else
      ZonesKnown(s, start, NoCard);
      var found := FindCard(s.heap, s.zones[start], Hidden(start), cardId);
      if found.None? then Refuse(RespNameNotFound)
      else
        var c := found.value.0;
        if target.Nowhere? then
          if s.heap[c].parent.None? then Refuse(RespContextError)
          else if !HasCoords(startZone) then Refuse(RespContextError)
          else Free(c)
        else if target.zone.owner !in s.players then Refuse(RespNameNotFound)
        else if target.zone !in s.zones then
          if !HasCoords(startZone) then Refuse(RespContextError) else Free(c)
        else if !HasCoords(target.zone.zone) then Refuse(RespContextError)
        else
          ZonesKnown(s, target.zone, NoCard);
          var goal := if target.card.None? then None
                      else FindCard(s.heap, s.zones[target.zone], Hidden(target.zone), target.card.value);
          if goal.None? then Refuse(RespNameNotFound)
          else if s.heap[goal.value.0].parent.Some? then Refuse(RespContextError)
          else if !HasCoords(startZone) then Refuse(RespContextError)
          else Hang(c, goal.value.0)
  }

  /** What the code relies on: no card is attached to itself, and only attached cards are unattached. */
  ghost predicate PlanOk(s: State, plan: AttachPlan)
  {
    match plan
    case Refuse(_) => true
    case Hang(c, q) => c != q
    case Free(c) => c in s.heap && s.heap[c].parent.Some?
  }

  lemma PlanIsAttachable(s: State, p: int, startZone: ZoneName, cardId: int, target: AttachTarget)
    requires GameOk(s) && p in s.players
    ensures var plan := PlanAttach(s, p, startZone, cardId, target);
            plan.Hang? && PlanOk(s, plan) ==> Attachable(s, plan.card, plan.under)
  {
    hide Inv; hide Seats; hide Tidy;
    var plan := PlanAttach(s, p, startZone, cardId, target);
    if plan.Hang? {
      ZonesKnown(s, Place(p, startZone), NoCard);
      ZonesKnown(s, target.zone, NoCard);
      assert plan.card in s.zones[Place(p, startZone)];
      assert plan.under in s.zones[target.zone];
    }
  }

  ghost function Attach(s: State, p: int, startZone: ZoneName, cardId: int, target: AttachTarget, grid: Grid): (r: (State, Response))
    requires GameOk(s) && p in s.players && PlanOk(s, PlanAttach(s, p, startZone, cardId, target))
    ensures GameOk(r.0) && SamePopulation(s, r.0)
  {
    hide Inv; hide Seats; hide Tidy; hide SamePopulation; hide SameSetting; hide PlanAttach; hide AttachCard; hide UnattachCommand;
    hide Attachable;
    PopulationStays(s);
    match PlanAttach(s, p, startZone, cardId, target)
    case Refuse(response) => (s, response)
    case Hang(c, q) =>
      PlanIsAttachable(s, p, startZone, cardId, target);
      var t := AttachCard(s, c, q, grid);
      SettingKeeps(s, t);
      (t, RespOk)
    case Free(c) =>
      var t := UnattachCommand(s, c, grid);
      SettingKeeps(s, t);
      (t, RespOk)
  }
}

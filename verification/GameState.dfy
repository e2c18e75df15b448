/**
 The cards of all players in a running game: zones, attachments and arrows, with the invariants that
 every command keeps.  A zone is its list of cards here; its coordinate indexes are the subject of
 module CardZone, and the columns they hand out enter the commands as parameters.
 */
module GameState {
  import opened Wrappers
  import opened Cards
  import opened Shuffling
  import opened ZoneLists

  datatype ArrowTarget = OnCard(card: CardRef) | OnPlayer(player: int)

  datatype Arrow = Arrow(start: CardRef, target: ArrowTarget)

  datatype Player = Player(
    spectator: bool,
    judge: bool,
    conceded: bool,
    nextCardId: int,
    lastDraw: seq<int>,
    arrows: map<int, Arrow>)

  datatype State = State(started: bool, heap: Heap, zones: map<Place, seq<CardRef>>, players: map<int, Player>)

  /** During a move the card is in no zone; it still counts as being where it was taken from. */
  datatype Lift = NoCard | Lifted(card: CardRef, from: Place)

  predicate IsLifted(c: CardRef, f: Lift)
  {
    f.Lifted? && f.card == c
  }

  function Where(s: State, c: CardRef, f: Lift): Option<Place>
    requires c in s.heap
  {
    if IsLifted(c, f) then Some(f.from) else s.heap[c].zone
  }

  predicate OnTable(s: State, c: CardRef, f: Lift)
    requires c in s.heap
  {
    Where(s, c, f).Some? && Where(s, c, f).value.zone == Table
  }

  predicate InPublic(s: State, c: CardRef, f: Lift)
  {
    c in s.heap && Where(s, c, f).Some? && TypeOf(Where(s, c, f).value.zone) == PublicZone
  }

  // ------------------------------------------------------------------ the invariants

  /** Every card is in exactly one zone, once, and its zone field says which. */
  ghost predicate Placed(s: State, f: Lift)
  {
    && (forall p :: p in s.zones ==> Distinct(s.zones[p]) && p.owner in s.players)
    && (forall p, c :: p in s.zones && c in s.zones[p] ==> c in s.heap && s.heap[c].zone == Some(p))
    && (forall c :: c in s.heap && !IsLifted(c, f) ==>
          s.heap[c].zone.Some? && s.heap[c].zone.value in s.zones && c in s.zones[s.heap[c].zone.value])
    && (f.Lifted? ==> f.card in s.heap && s.heap[f.card].zone == None && f.from in s.zones)
  }

  ghost predicate IdBelowCounter(s: State, f: Lift, c: CardRef)
    requires c in s.heap
  {
    && Where(s, c, f).Some? && Where(s, c, f).value.owner in s.players
    && 0 <= s.heap[c].id < s.players[Where(s, c, f).value.owner].nextCardId
  }

  ghost predicate IdsDiffer(s: State, f: Lift, c: CardRef, d: CardRef)
    requires c in s.heap && d in s.heap
  {
    Where(s, c, f).Some? && Where(s, d, f).Some? && Where(s, c, f).value.owner == Where(s, d, f).value.owner
    ==> s.heap[c].id != s.heap[d].id
  }

  /** Ids are distinct among one player's cards and below that player's counter. */
  ghost predicate Ids(s: State, f: Lift)
  {
    && (forall p :: p in s.players ==> s.players[p].nextCardId >= 0)
    && (forall c :: c in s.heap ==> IdBelowCounter(s, f, c))
    && (forall c, d :: c in s.heap && d in s.heap && c != d ==> IdsDiffer(s, f, c, d))
  }

  /** Parent and children links mirror each other; trees have depth one; all their cards lie on tables. */
  ghost predicate Forest(s: State, f: Lift)
  {
    && (forall c :: c in s.heap && s.heap[c].parent.Some? ==>
          var q := s.heap[c].parent.value;
          && q in s.heap && c in s.heap[q].attached
          && s.heap[q].parent.None? && s.heap[c].attached == []
          && s.heap[c].x == -1 && OnTable(s, c, f) && OnTable(s, q, f))
    && (forall c, k :: c in s.heap && k in s.heap[c].attached ==> k in s.heap && s.heap[k].parent == Some(c))
    && (forall c :: c in s.heap ==> Distinct(s.heap[c].attached))
  }

  ghost predicate EndsOk(s: State, f: Lift, a: Arrow)
  {
    && InPublic(s, a.start, f)
    && match a.target
       case OnCard(c) => InPublic(s, c, f)
       case OnPlayer(q) => q in s.players
  }

  /** Arrows join cards in public zones, or such a card and a player; no player owns two equal ones. */
  ghost predicate Arrows(s: State, f: Lift)
  {
    && (forall p, i :: p in s.players && i in s.players[p].arrows ==> i >= 1 && EndsOk(s, f, s.players[p].arrows[i]))
    && (forall p, i, j :: p in s.players && i in s.players[p].arrows && j in s.players[p].arrows && i != j
          ==> s.players[p].arrows[i] != s.players[p].arrows[j])
  }

  ghost predicate Inv(s: State, f: Lift)
  {
    Placed(s, f) && Ids(s, f) && Forest(s, f) && Arrows(s, f)
  }

  // ------------------------------------------------------------------ basic steps

  /** Server_CardZone::removeCard. */
  function LiftCard(s: State, c: CardRef): State
    requires c in s.heap && s.heap[c].zone.Some?
    requires s.heap[c].zone.value in s.zones && c in s.zones[s.heap[c].zone.value]
  {
    var p := s.heap[c].zone.value;
    s.(heap := s.heap[c := s.heap[c].(zone := None)], zones := s.zones[p := Without(s.zones[p], c)])
  }

  /** Server_CardZone::insertCard: on a table at the end of the list, elsewhere at `index`. */
  function PutCard(s: State, c: CardRef, p: Place, index: int, x: int, y: int): State
    requires c in s.heap && p in s.zones
  {
    if HasCoords(p.zone) then
      s.(heap := s.heap[c := s.heap[c].(x := x, y := y, zone := Some(p))], zones := s.zones[p := s.zones[p] + [c]])
    else
      s.(heap := s.heap[c := s.heap[c].(x := 0, y := 0, zone := Some(p))],
         zones := s.zones[p := InsertAt(s.zones[p], index, c)])
  }

  /** Server_Card::setParentCard. */
  function SetParent(heap: Heap, c: CardRef, parent: Option<CardRef>): Heap
    requires c in heap && (parent.Some? ==> parent.value in heap)
    requires heap[c].parent.Some? ==> heap[c].parent.value in heap && c in heap[heap[c].parent.value].attached
  {
    var heap1 := if heap[c].parent.None? then heap
                 else
                   var q := heap[c].parent.value;
                   heap[q := heap[q].(attached := Without(heap[q].attached, c))];
    var heap2 := heap1[c := heap1[c].(parent := parent)];
    if parent.None? then heap2
    else
      var q := parent.value;
      heap2[q := heap2[q].(attached := heap2[q].attached + [c])]
  }

  /** A card changes its column within its own table: it ends up last in the zone's list. */
  function Relocate(s: State, c: CardRef, column: nat): State
    requires c in s.heap && s.heap[c].zone.Some?
    requires s.heap[c].zone.value in s.zones && c in s.zones[s.heap[c].zone.value]
  {
    var p := s.heap[c].zone.value;
    s.(heap := s.heap[c := s.heap[c].(x := column)], zones := s.zones[p := Without(s.zones[p], c) + [c]])
  }

  function ArrowsWithout(arrows: map<int, Arrow>, c: CardRef): map<int, Arrow>
  {
    map i | i in arrows && arrows[i].start != c && arrows[i].target != OnCard(c) :: arrows[i]
  }

  /** All arrows from and to a card disappear, whoever owns them. */
  function DropArrows(s: State, c: CardRef): State
  {
    s.(players := map p | p in s.players :: s.players[p].(arrows := ArrowsWithout(s.players[p].arrows, c)))
  }

  // ------------------------------------------------------------------ the basic steps keep the invariants

  lemma InsertAtFacts(cards: seq<CardRef>, i: int, c: CardRef)
    requires c !in cards && Distinct(cards)
    ensures Distinct(InsertAt(cards, i, c)) && c in InsertAt(cards, i, c)
    ensures forall d :: d != c ==> (d in cards <==> d in InsertAt(cards, i, c))
  {
    var r := InsertAt(cards, i, c);
    if 0 <= i < |cards| {
      assert forall k :: 0 <= k < |r| ==> r[k] == if k < i then cards[k] else if k == i then c else cards[k - 1];
      assert r[i] == c;
      forall d | d != c && d in cards
        ensures d in r
      {
        var k :| 0 <= k < |cards| && cards[k] == d;
        assert r[if k < i then k else k + 1] == d;
      }
    }
  }

  /** The player may own fewer arrows than before and have handed out more ids. */
  predicate Fewer(before: Player, after: Player)
  {
    && before.nextCardId <= after.nextCardId
    && forall i :: i in after.arrows ==> i in before.arrows && after.arrows[i] == before.arrows[i]
  }

  /**
   t is s with some cards, players and arrows gone and others at most moved about inside their place:
   what remains has kept its ids and links, and refers to nothing that is gone.
   */
  ghost predicate Survives(s: State, f: Lift, t: State, g: Lift)
  {
    && t.heap.Keys <= s.heap.Keys
    && t.players.Keys <= s.players.Keys
    && (forall p :: p in t.players ==> Fewer(s.players[p], t.players[p]))
    && (forall c :: c in t.heap ==>
          && Where(t, c, g) == Where(s, c, f)
          && t.heap[c].id == s.heap[c].id
          && t.heap[c].parent == s.heap[c].parent
          && t.heap[c].attached == s.heap[c].attached
          && (t.heap[c].parent.Some? ==> t.heap[c].x == s.heap[c].x))
    && OwnersAlive(t, g) && LinksAlive(t) && ArrowsAlive(t)
  }

  ghost predicate OwnersAlive(t: State, g: Lift)
  {
    forall c :: c in t.heap && Where(t, c, g).Some? ==> Where(t, c, g).value.owner in t.players
  }

  ghost predicate LinksAlive(t: State)
  {
    && (forall c :: c in t.heap && t.heap[c].parent.Some? ==> t.heap[c].parent.value in t.heap)
    && (forall c, k :: c in t.heap && k in t.heap[c].attached ==> k in t.heap)
  }

  ghost predicate ArrowsAlive(t: State)
  {
    forall p, i :: p in t.players && i in t.players[p].arrows ==> EndsAlive(t, t.players[p].arrows[i])
  }

  lemma NothingDangles(s: State, f: Lift)
    requires Inv(s, f)
    ensures OwnersAlive(s, f) && LinksAlive(s) && ArrowsAlive(s)
  {
    hide Placed;
    assert OwnersAlive(s, f) by {
      assert forall c :: c in s.heap ==> IdBelowCounter(s, f, c);
    }
    forall p, i | p in s.players && i in s.players[p].arrows
      ensures EndsAlive(s, s.players[p].arrows[i])
    {
      assert EndsOk(s, f, s.players[p].arrows[i]);
    }
  }

  predicate EndsAlive(t: State, a: Arrow)
  {
    a.start in t.heap && match a.target case OnCard(c) => c in t.heap case OnPlayer(q) => q in t.players
  }

  lemma SurvivesKeepsIds(s: State, f: Lift, t: State, g: Lift)
    requires Survives(s, f, t, g) && Ids(s, f)
    ensures Ids(t, g)
  {
    forall c | c in t.heap
      ensures IdBelowCounter(t, g, c)
    {
      assert IdBelowCounter(s, f, c);
    }
    forall c, d | c in t.heap && d in t.heap && c != d
      ensures IdsDiffer(t, g, c, d)
    {
      assert IdsDiffer(s, f, c, d);
    }
  }

  lemma SurvivesKeepsForest(s: State, f: Lift, t: State, g: Lift)
    requires Survives(s, f, t, g) && Forest(s, f)
    ensures Forest(t, g)
  {
  }

  lemma SurvivesKeepsArrows(s: State, f: Lift, t: State, g: Lift)
    requires Survives(s, f, t, g) && Arrows(s, f)
    ensures Arrows(t, g)
  {
    forall p, i | p in t.players && i in t.players[p].arrows
      ensures i >= 1 && EndsOk(t, g, t.players[p].arrows[i])
    {
      assert Fewer(s.players[p], t.players[p]);
      assert EndsOk(s, f, s.players[p].arrows[i]);
      assert EndsAlive(t, t.players[p].arrows[i]);
    }
    forall p, i, j | p in t.players && i in t.players[p].arrows && j in t.players[p].arrows && i != j
      ensures t.players[p].arrows[i] != t.players[p].arrows[j]
    {
      assert Fewer(s.players[p], t.players[p]);
    }
  }

  lemma SurvivesKeepsInv(s: State, f: Lift, t: State, g: Lift)
    requires Survives(s, f, t, g) && Inv(s, f) && Placed(t, g)
    ensures Inv(t, g)
  {
    hide Placed; hide Ids; hide Forest; hide Arrows;
    SurvivesKeepsIds(s, f, t, g);
    SurvivesKeepsForest(s, f, t, g);
    SurvivesKeepsArrows(s, f, t, g);
  }

  /** The common case: same cards, same players. */
  lemma SameLinksKeepInv(s: State, f: Lift, t: State, g: Lift)
    requires Inv(s, f) && Placed(t, g) && t.heap.Keys == s.heap.Keys && t.players == s.players
    requires forall c :: c in s.heap ==>
               && Where(t, c, g) == Where(s, c, f)
               && t.heap[c].id == s.heap[c].id
               && t.heap[c].parent == s.heap[c].parent
               && t.heap[c].attached == s.heap[c].attached
               && (t.heap[c].parent.Some? ==> t.heap[c].x == s.heap[c].x)
    ensures Inv(t, g)
  {
    hide Placed; hide Ids; hide Forest; hide Arrows;
    NothingDangles(s, f);
    SurvivesKeepsInv(s, f, t, g);
  }

  lemma LiftKeepsPlaced(s: State, c: CardRef)
    requires Placed(s, NoCard) && c in s.heap
    ensures Placed(LiftCard(s, c), Lifted(c, s.heap[c].zone.value))
  {
    hide Without;
    WithoutFacts(s.zones[s.heap[c].zone.value], c);
  }

  lemma LiftKeepsInv(s: State, c: CardRef)
    requires Inv(s, NoCard) && c in s.heap
    ensures Inv(LiftCard(s, c), Lifted(c, s.heap[c].zone.value))
  {
    LiftKeepsPlaced(s, c);
    SameLinksKeepInv(s, NoCard, LiftCard(s, c), Lifted(c, s.heap[c].zone.value));
  }

  lemma RelocateKeepsPlaced(s: State, c: CardRef, column: nat, f: Lift)
    requires Placed(s, f) && c in s.heap && !IsLifted(c, f)
    ensures Placed(Relocate(s, c, column), f)
  {
    hide Without;
    WithoutFacts(s.zones[s.heap[c].zone.value], c);
    SameMembersPlaced(s, Relocate(s, c, column), f);
  }

  /** Zones may list their cards in another order. */
  lemma SameMembersPlaced(s: State, t: State, f: Lift)
    requires Placed(s, f) && t.players == s.players && t.heap.Keys == s.heap.Keys && t.zones.Keys == s.zones.Keys
    requires forall d :: d in s.heap ==> t.heap[d].zone == s.heap[d].zone
    requires forall q :: q in s.zones ==> Distinct(t.zones[q]) && forall d :: d in t.zones[q] <==> d in s.zones[q]
    ensures Placed(t, f)
  {
    hide Distinct;
  }

  lemma RelocateKeepsInv(s: State, c: CardRef, column: nat, f: Lift)
    requires Inv(s, f) && c in s.heap && !IsLifted(c, f) && s.heap[c].parent.None?
    ensures Inv(Relocate(s, c, column), f)
  {
    hide Ids; hide Forest; hide Arrows;
    RelocateKeepsPlaced(s, c, column, f);
    SameLinksKeepInv(s, f, Relocate(s, c, column), f);
  }

  // ------------------------------------------------------------------ putting a lifted card down

  /** insertCard, then a new id from the target's owner if the card has to change it, then its face. */
  function Settle(s: State, c: CardRef, p: Place, index: int, x: int, y: int, newId: bool, faceDown: bool): State
    requires c in s.heap && p in s.zones && p.owner in s.players
  {
    var s1 := PutCard(s, c, p, index, x, y);
    var owner := s1.players[p.owner];
    var s2 := if newId
              then s1.(heap := s1.heap[c := s1.heap[c].(id := owner.nextCardId)],
                       players := s1.players[p.owner := owner.(nextCardId := owner.nextCardId + 1)])
              else s1;
    s2.(heap := s2.heap[c := s2.heap[c].(faceDown := faceDown)])
  }

  ghost predicate Untouched(a: Arrow, c: CardRef)
  {
    a.start != c && a.target != OnCard(c)
  }

  ghost predicate NoArrowsAt(s: State, c: CardRef)
  {
    forall p, i :: p in s.players && i in s.players[p].arrows ==> Untouched(s.players[p].arrows[i], c)
  }

  /** When a lifted card may be put down at p. */
  ghost predicate MayLand(s: State, c: CardRef, from: Place, p: Place, newId: bool)
    requires c in s.heap
  {
    && p in s.zones && p.owner in s.players
    && s.heap[c].parent.None?
    && (p != from ==> NoArrowsAt(s, c))
    && (s.heap[c].attached != [] ==> p.zone == from.zone)
    && (p.owner != from.owner ==> newId)
  }

  /** What Settle does, entry by entry. */
  ghost predicate Landed(s: State, t: State, c: CardRef, p: Place, newId: bool)
    requires c in s.heap && p in s.zones && p.owner in s.players
  {
    && t.heap.Keys == s.heap.Keys
    && (forall d :: d in s.heap && d != c ==> t.heap[d] == s.heap[d])
    && t.heap[c].zone == Some(p)
    && t.heap[c].parent == s.heap[c].parent && t.heap[c].attached == s.heap[c].attached
    && t.heap[c].id == (if newId then s.players[p.owner].nextCardId else s.heap[c].id)
    && t.zones.Keys == s.zones.Keys
    && (forall q :: q in s.zones && q != p ==> t.zones[q] == s.zones[q])
    && Distinct(t.zones[p])
    && (forall d :: d in t.zones[p] <==> d in s.zones[p] || d == c)
    && t.players.Keys == s.players.Keys
    && (forall q :: q in s.players ==>
          t.players[q] == if newId && q == p.owner then s.players[q].(nextCardId := s.players[q].nextCardId + 1)
                          else s.players[q])
  }

  lemma SettleLands(s: State, c: CardRef, p: Place, index: int, x: int, y: int, newId: bool, faceDown: bool)
    requires c in s.heap && p in s.zones && p.owner in s.players
    requires Distinct(s.zones[p]) && c !in s.zones[p]
    ensures Landed(s, Settle(s, c, p, index, x, y, newId, faceDown), c, p, newId)
  {
    InsertAtFacts(s.zones[p], index, c);
    InsertAtFacts(s.zones[p], -1, c);
  }

  lemma LandedListed(s: State, t: State, c: CardRef, from: Place, p: Place, newId: bool, q: Place, d: CardRef)
    requires Placed(s, Lifted(c, from)) && p in s.zones && p.owner in s.players && Landed(s, t, c, p, newId)
    requires q in t.zones && d in t.zones[q]
    ensures d in t.heap && t.heap[d].zone == Some(q)
  {
    if q != p || d != c {
      assert d in s.zones[q];
    }
  }

  lemma LandedFound(s: State, t: State, c: CardRef, from: Place, p: Place, newId: bool, d: CardRef)
    requires Placed(s, Lifted(c, from)) && p in s.zones && p.owner in s.players && Landed(s, t, c, p, newId)
    requires d in t.heap
    ensures t.heap[d].zone.Some? && t.heap[d].zone.value in t.zones && d in t.zones[t.heap[d].zone.value]
  {
    if d != c {
      assert !IsLifted(d, Lifted(c, from));
      var q := s.heap[d].zone.value;
      assert d in s.zones[q] && d in t.zones[q];
    }
  }

  lemma LandedKeepsPlaced(s: State, t: State, c: CardRef, from: Place, p: Place, newId: bool)
    requires Placed(s, Lifted(c, from)) && MayLand(s, c, from, p, newId) && Landed(s, t, c, p, newId)
    ensures Placed(t, NoCard)
  {
    hide Placed; hide Landed;
    assert p in s.zones;
    forall q, d | q in t.zones && d in t.zones[q]
      ensures d in t.heap && t.heap[d].zone == Some(q)
    {
      LandedListed(s, t, c, from, p, newId, q, d);
    }
    forall d | d in t.heap
      ensures t.heap[d].zone.Some? && t.heap[d].zone.value in t.zones && d in t.zones[t.heap[d].zone.value]
    {
      LandedFound(s, t, c, from, p, newId, d);
    }
    LandedZones(s, t, c, from, p, newId);
    AllPlaced(t);
  }

  lemma AllPlaced(t: State)
    requires forall q :: q in t.zones ==> Distinct(t.zones[q]) && q.owner in t.players
    requires forall q, d :: q in t.zones && d in t.zones[q] ==> d in t.heap && t.heap[d].zone == Some(q)
    requires forall d :: d in t.heap ==>
               t.heap[d].zone.Some? && t.heap[d].zone.value in t.zones && d in t.zones[t.heap[d].zone.value]
    ensures Placed(t, NoCard)
  {
  }

  lemma LandedZones(s: State, t: State, c: CardRef, from: Place, p: Place, newId: bool)
    requires Placed(s, Lifted(c, from)) && p in s.zones && p.owner in s.players && Landed(s, t, c, p, newId)
    ensures forall q :: q in t.zones ==> Distinct(t.zones[q]) && q.owner in t.players
  {
  }

  lemma LandedKeepsIds(s: State, t: State, c: CardRef, from: Place, p: Place, newId: bool)
    requires c in s.heap && Ids(s, Lifted(c, from)) && MayLand(s, c, from, p, newId) && Landed(s, t, c, p, newId)
    ensures Ids(t, NoCard)
  {
    var f := Lifted(c, from);
    forall d | d in t.heap
      ensures IdBelowCounter(t, NoCard, d)
    {
      assert IdBelowCounter(s, f, d);
    }
    forall d, e | d in t.heap && e in t.heap && d != e
      ensures IdsDiffer(t, NoCard, d, e)
    {
      assert IdsDiffer(s, f, d, e) && IdBelowCounter(s, f, d) && IdBelowCounter(s, f, e);
    }
  }

  lemma LandedParent(s: State, t: State, c: CardRef, from: Place, p: Place, newId: bool, d: CardRef)
    requires c in s.heap && Forest(s, Lifted(c, from)) && MayLand(s, c, from, p, newId) && Landed(s, t, c, p, newId)
    requires d in t.heap && t.heap[d].parent.Some?
    ensures var q := t.heap[d].parent.value;
            && q in t.heap && d in t.heap[q].attached
            && t.heap[q].parent.None? && t.heap[d].attached == []
            && t.heap[d].x == -1 && OnTable(t, d, NoCard) && OnTable(t, q, NoCard)
  {
    hide NoArrowsAt;
    LandedOnTable(s, t, c, from, p, newId);
    var q := s.heap[d].parent.value;
    assert d != c && d in s.heap[q].attached;
    assert s.heap[q].attached != [];
  }

  lemma LandedLinks(s: State, t: State, c: CardRef, p: Place, newId: bool)
    requires c in s.heap && p in s.zones && p.owner in s.players && Landed(s, t, c, p, newId)
    ensures t.heap.Keys == s.heap.Keys
    ensures forall d :: d in s.heap ==> t.heap[d].attached == s.heap[d].attached && t.heap[d].parent == s.heap[d].parent
  {
  }

  lemma LandedKeepsForest(s: State, t: State, c: CardRef, from: Place, p: Place, newId: bool)
    requires c in s.heap && Forest(s, Lifted(c, from)) && MayLand(s, c, from, p, newId) && Landed(s, t, c, p, newId)
    ensures Forest(t, NoCard)
  {
    assert p in s.zones && p.owner in s.players;
    hide MayLand; hide OnTable; hide Landed;
    LandedLinks(s, t, c, p, newId);
    forall d | d in t.heap && t.heap[d].parent.Some?
      ensures var q := t.heap[d].parent.value;
              && q in t.heap && d in t.heap[q].attached
              && t.heap[q].parent.None? && t.heap[d].attached == []
              && t.heap[d].x == -1 && OnTable(t, d, NoCard) && OnTable(t, q, NoCard)
    {
      LandedParent(s, t, c, from, p, newId, d);
    }
  }

  /** A landed card with children has stayed on a table; all others are where they were. */
  lemma LandedOnTable(s: State, t: State, c: CardRef, from: Place, p: Place, newId: bool)
    requires c in s.heap && MayLand(s, c, from, p, newId) && Landed(s, t, c, p, newId)
    ensures forall d :: d in s.heap && OnTable(s, d, Lifted(c, from)) && (d != c || s.heap[c].attached != []) ==>
              OnTable(t, d, NoCard)
  {
  }

  lemma LandedKeepsArrows(s: State, t: State, c: CardRef, from: Place, p: Place, newId: bool)
    requires c in s.heap && Arrows(s, Lifted(c, from)) && MayLand(s, c, from, p, newId) && Landed(s, t, c, p, newId)
    ensures Arrows(t, NoCard)
  {
    forall q, i | q in t.players && i in t.players[q].arrows
      ensures i >= 1 && EndsOk(t, NoCard, t.players[q].arrows[i])
    {
      var a := s.players[q].arrows[i];
      assert EndsOk(s, Lifted(c, from), a);
      assert p != from ==> Untouched(a, c);
    }
  }

  lemma SettleKeepsInv(
    s: State, c: CardRef, from: Place, p: Place, index: int, x: int, y: int, newId: bool, faceDown: bool)
    requires Inv(s, Lifted(c, from)) && MayLand(s, c, from, p, newId)
    ensures Inv(Settle(s, c, p, index, x, y, newId, faceDown), NoCard)
    ensures Landed(s, Settle(s, c, p, index, x, y, newId, faceDown), c, p, newId)
  {
    SettleLands(s, c, p, index, x, y, newId, faceDown);
    var t := Settle(s, c, p, index, x, y, newId, faceDown);
    LandedKeepsPlaced(s, t, c, from, p, newId);
    LandedKeepsIds(s, t, c, from, p, newId);
    LandedKeepsForest(s, t, c, from, p, newId);
    LandedKeepsArrows(s, t, c, from, p, newId);
  }

  /** The card object goes away (a token that left its zone). */
  function Destroy(s: State, c: CardRef): State
  {
    s.(heap := s.heap - {c})
  }

  lemma DestroyKeepsInv(s: State, c: CardRef, from: Place)
    requires c in s.heap && s.heap[c].parent.None? && s.heap[c].attached == []
    requires Inv(s, Lifted(c, from)) && NoArrowsAt(s, c)
    ensures Inv(Destroy(s, c), NoCard)
  {
    hide Placed; hide Ids; hide Forest; hide Arrows; hide NoArrowsAt; hide Destroy; hide Survives;
    DestroyKeepsPlaced(s, c, from);
    NothingDangles(s, Lifted(c, from));
    LinksAliveWithout(s, c, Lifted(c, from));
    ArrowsAliveWithout(s, c);
    DestroySurvives(s, c, from);
    SurvivesKeepsInv(s, Lifted(c, from), Destroy(s, c), NoCard);
  }

  lemma DestroySurvives(s: State, c: CardRef, from: Place)
    requires OwnersAlive(s, Lifted(c, from)) && LinksAlive(Destroy(s, c)) && ArrowsAlive(Destroy(s, c))
    ensures Survives(s, Lifted(c, from), Destroy(s, c), NoCard)
  {
  }

  lemma ArrowsAliveWithout(s: State, c: CardRef)
    requires ArrowsAlive(s) && NoArrowsAt(s, c)
    ensures ArrowsAlive(Destroy(s, c))
  {
    var t := Destroy(s, c);
    forall q, i | q in t.players && i in t.players[q].arrows
      ensures EndsAlive(t, t.players[q].arrows[i])
    {
      assert EndsAlive(s, s.players[q].arrows[i]) && Untouched(s.players[q].arrows[i], c);
    }
  }

  lemma DestroyKeepsPlaced(s: State, c: CardRef, from: Place)
    requires Placed(s, Lifted(c, from))
    ensures Placed(Destroy(s, c), NoCard)
  {
  }

  lemma LinksAliveWithout(s: State, c: CardRef, f: Lift)
    requires Forest(s, f) && c in s.heap && s.heap[c].parent.None? && s.heap[c].attached == []
    ensures LinksAlive(Destroy(s, c))
  {
  }

  // ------------------------------------------------------------------ arrows

  lemma FewerArrowsPlaced(s: State, t: State, f: Lift)
    requires Placed(s, f) && t.heap == s.heap && t.zones == s.zones && t.players.Keys == s.players.Keys
    ensures Placed(t, f)
  {
  }

  lemma DropArrowsKeepsInv(s: State, c: CardRef, f: Lift)
    requires Inv(s, f)
    ensures Inv(DropArrows(s, c), f) && NoArrowsAt(DropArrows(s, c), c)
  {
    hide Placed; hide Ids; hide Forest; hide Arrows;
    var t := DropArrows(s, c);
    FewerArrowsPlaced(s, t, f);
    NothingDangles(s, f);
    SurvivesKeepsInv(s, f, t, f);
  }

  // ------------------------------------------------------------------ attachments

  /** c has lost its parent; nothing else changed but the parent's list. */
  ghost predicate Detached(before: Heap, after: Heap, c: CardRef)
    requires c in before
  {
    && after.Keys == before.Keys
    && forall d :: d in before ==>
         && after[d] == before[d].(parent := after[d].parent, attached := after[d].attached)
         && after[d].parent == (if d == c then None else before[d].parent)
         && Distinct(after[d].attached)
         && forall k :: k in after[d].attached <==> k in before[d].attached && !(k == c && before[c].parent == Some(d))
  }

  lemma SetParentDetaches(heap: Heap, c: CardRef)
    requires c in heap && forall d :: d in heap ==> Distinct(heap[d].attached)
    requires heap[c].parent.Some? ==>
               var q := heap[c].parent.value; q in heap && q != c && c in heap[q].attached
    ensures Detached(heap, SetParent(heap, c, None), c)
  {
    if heap[c].parent.Some? {
      WithoutFacts(heap[heap[c].parent.value].attached, c);
    }
  }

  lemma DetachedLeaf(before: Heap, after: Heap, c: CardRef, d: CardRef)
    requires c in before && Detached(before, after, c) && d in before && before[d].attached == []
    ensures after[d].attached == []
  {
    assert forall k :: k !in after[d].attached;
    EmptyWithoutMembers(after[d].attached);
  }

  lemma DetachedKeepsForest(s: State, t: State, c: CardRef, f: Lift)
    requires Forest(s, f) && c in s.heap && Detached(s.heap, t.heap, c)
    ensures Forest(t, f)
  {
    forall d | d in t.heap && t.heap[d].parent.Some?
      ensures var q := t.heap[d].parent.value;
              && q in t.heap && d in t.heap[q].attached
              && t.heap[q].parent.None? && t.heap[d].attached == []
              && t.heap[d].x == -1 && OnTable(t, d, f) && OnTable(t, q, f)
    {
      DetachedChild(s, t, c, d, f);
    }
    DetachedBack(s, t, c, f);
    hide Detached;
  }

  lemma DetachedChild(s: State, t: State, c: CardRef, d: CardRef, f: Lift)
    requires Forest(s, f) && c in s.heap && Detached(s.heap, t.heap, c) && d in t.heap && t.heap[d].parent.Some?
    ensures var q := t.heap[d].parent.value;
            && q in t.heap && d in t.heap[q].attached
            && t.heap[q].parent.None? && t.heap[d].attached == []
            && t.heap[d].x == -1 && OnTable(t, d, f) && OnTable(t, q, f)
  {
    var q := t.heap[d].parent.value;
    assert s.heap[d].parent == Some(q);
    assert Where(t, d, f) == Where(s, d, f) && Where(t, q, f) == Where(s, q, f);
    DetachedLeaf(s.heap, t.heap, c, d);
  }

  lemma DetachedBack(s: State, t: State, c: CardRef, f: Lift)
    requires Forest(s, f) && c in s.heap && Detached(s.heap, t.heap, c)
    ensures forall d, k :: d in t.heap && k in t.heap[d].attached ==> k in t.heap && t.heap[k].parent == Some(d)
    ensures forall d :: d in t.heap ==> Distinct(t.heap[d].attached)
  {
    forall d, k | d in t.heap && k in t.heap[d].attached
      ensures k in t.heap && t.heap[k].parent == Some(d)
    {
      assert k in s.heap[d].attached && s.heap[k].parent == Some(d);
    }
  }

  lemma DetachedKeepsInv(s: State, t: State, c: CardRef, f: Lift)
    requires Inv(s, f) && c in s.heap && Detached(s.heap, t.heap, c)
    requires t.zones == s.zones && t.players == s.players
    ensures Inv(t, f)
  {
    hide Placed; hide Ids; hide Forest; hide Arrows;
    assert SameSpots(s, t);
    DetachedKeepsForest(s, t, c, f);
    hide Detached; hide SameSpots;
    SpotsKeepPlaced(s, t, f);
    SpotsKeepIds(s, t, f);
    SpotsKeepArrows(s, t, f);
  }

  /** The same cards, zones and players; cards may differ in all but their zone and id. */
  ghost predicate SameSpots(s: State, t: State)
  {
    && t.zones == s.zones && t.players == s.players && t.heap.Keys == s.heap.Keys
    && forall d :: d in s.heap ==> t.heap[d].zone == s.heap[d].zone && t.heap[d].id == s.heap[d].id
  }

  lemma SpotsKeepPlaced(s: State, t: State, f: Lift)
    requires Placed(s, f) && SameSpots(s, t)
    ensures Placed(t, f)
  {
    hide Distinct;
  }

  lemma SpotsKeepIds(s: State, t: State, f: Lift)
    requires Ids(s, f) && SameSpots(s, t)
    ensures Ids(t, f)
  {
    forall d | d in t.heap
      ensures IdBelowCounter(t, f, d)
    {
      assert IdBelowCounter(s, f, d);
    }
    forall d, e | d in t.heap && e in t.heap && d != e
      ensures IdsDiffer(t, f, d, e)
    {
      assert IdsDiffer(s, f, d, e);
    }
  }

  lemma SpotsKeepArrows(s: State, t: State, f: Lift)
    requires Arrows(s, f) && SameSpots(s, t)
    ensures Arrows(t, f)
  {
    forall q, i | q in t.players && i in t.players[q].arrows
      ensures i >= 1 && EndsOk(t, f, t.players[q].arrows[i])
    {
      assert EndsOk(s, f, s.players[q].arrows[i]);
    }
  }

  /** Taking a card off its parent. */
  function Detach(s: State, c: CardRef): State
    requires c in s.heap
    requires s.heap[c].parent.Some? ==>
               s.heap[c].parent.value in s.heap && c in s.heap[s.heap[c].parent.value].attached
  {
    s.(heap := SetParent(s.heap, c, None))
  }

  lemma DetachKeepsInv(s: State, c: CardRef, f: Lift)
    requires Inv(s, f) && c in s.heap
    ensures s.heap[c].parent.Some? ==>
              s.heap[c].parent.value in s.heap && c in s.heap[s.heap[c].parent.value].attached
    ensures Inv(Detach(s, c), f) && Detached(s.heap, Detach(s, c).heap, c)
  {
    SetParentDetaches(s.heap, c);
    DetachedKeepsInv(s, Detach(s, c), c, f);
  }

  /** Where a card is, in terms the basic steps ask for. */
  lemma InItsZone(s: State, c: CardRef, f: Lift)
    requires Inv(s, f) && c in s.heap && !IsLifted(c, f)
    ensures s.heap[c].zone.Some? && s.heap[c].zone.value in s.zones && c in s.zones[s.heap[c].zone.value]
    ensures s.heap[c].zone.value.owner in s.players
  {
    hide Ids; hide Forest; hide Arrows;
  }

  lemma HasParent(s: State, c: CardRef, f: Lift)
    requires Inv(s, f) && c in s.heap && s.heap[c].parent.Some?
    ensures var q := s.heap[c].parent.value;
            && q in s.heap && q != c && c in s.heap[q].attached
            && s.heap[q].parent.None? && s.heap[c].attached == [] && s.heap[c].x == -1
            && OnTable(s, c, f) && OnTable(s, q, f)
  {
    hide Ids; hide Placed; hide Arrows;
  }

  lemma ChildOf(s: State, c: CardRef, k: CardRef, f: Lift)
    requires Inv(s, f) && c in s.heap && k in s.heap[c].attached
    ensures k in s.heap && s.heap[k].parent == Some(c) && s.heap[c].parent.None? && k != c
    ensures OnTable(s, c, f) && OnTable(s, k, f)
  {
    hide Ids; hide Placed; hide Arrows;
  }

  /** The undo list plays no part in the invariants. */
  function WithLastDraw(s: State, player: int, list: seq<int>): State
    requires player in s.players
  {
    s.(players := s.players[player := s.players[player].(lastDraw := list)])
  }

  lemma LastDrawKeepsInv(s: State, player: int, list: seq<int>, f: Lift)
    requires Inv(s, f) && player in s.players
    ensures Inv(WithLastDraw(s, player, list), f)
  {
    hide Placed; hide Ids; hide Forest; hide Arrows;
    var t := WithLastDraw(s, player, list);
    FewerArrowsPlaced(s, t, f);
    NothingDangles(s, f);
    LastDrawSurvives(s, player, list, f);
    SurvivesKeepsInv(s, f, t, f);
  }

  lemma LastDrawSurvives(s: State, player: int, list: seq<int>, f: Lift)
    requires player in s.players && OwnersAlive(s, f) && LinksAlive(s) && ArrowsAlive(s)
    ensures Survives(s, f, WithLastDraw(s, player, list), f)
  {
    var t := WithLastDraw(s, player, list);
    forall p, i | p in t.players && i in t.players[p].arrows
      ensures EndsAlive(t, t.players[p].arrows[i])
    {
      assert EndsAlive(s, s.players[p].arrows[i]);
    }
  }
}

/**
 Moving cards between zones (common/server_player.cpp, moveCard and unattachCard).  The columns
 chosen on tables and the cards that compaction happens to move are parameters (`Grid`): the
 invariants hold whatever the coordinate indexes answer.
 */
module Movement {
  import opened Wrappers
  import opened Collections
  import opened Cards
  import opened Shuffling
  import opened ZoneLists
  import opened GameState

  datatype Response = RespOk | RespContextError | RespNameNotFound | RespFunctionNotAllowed | RespGameNotStarted

  /**
   What the table's indexes answer during one command: is the requested column empty, is the pile of
   the target card stacked, the column each card is given on arriving, and the cards moved when a table
   is compacted, with their new columns (after unattaching a card; at the end).
   */
  datatype Grid = Grid(
    columnEmpty: bool,
    stacked: bool,
    column: CardRef -> nat,
    compactedAfter: CardRef -> seq<(CardRef, nat)>,
    compactedAtEnd: seq<(CardRef, nat)>)

  // ------------------------------------------------------------------ what a step leaves alone

  /** Apart from `moved`, every card keeps its identity and its place; no zone or player comes or goes. */
  ghost predicate OthersStay(s: State, t: State, moved: set<CardRef>)
  {
    && (forall d :: d in s.heap && d !in moved ==> d in t.heap && Stays(s.heap[d], t.heap[d]))
    && t.heap.Keys <= s.heap.Keys
    && t.zones.Keys == s.zones.Keys
    && t.players.Keys == s.players.Keys
    && (forall p :: p in s.players ==> SameSeat(s.players[p], t.players[p]))
    && t.started == s.started
  }

  /** Players keep their role; arrows may go, and an empty undo list stays empty. */
  predicate SameSeat(a: Player, b: Player)
  {
    && b.spectator == a.spectator && b.judge == a.judge && b.conceded == a.conceded
    && b.arrows.Keys <= a.arrows.Keys
    && (a.lastDraw == [] ==> b.lastDraw == [])
  }

  /**
   Moreover, apart from the places in `touched`, every zone without coordinates keeps its list, and
   players keep all but their arrows.
   */
  ghost predicate Calm(s: State, t: State, moved: set<CardRef>, touched: set<Place>)
  {
    && OthersStay(s, t, moved)
    && (forall p :: p in s.zones && !HasCoords(p.zone) && p !in touched ==> t.zones[p] == s.zones[p])
    && (forall p :: p in s.players ==> t.players[p].(arrows := s.players[p].arrows) == s.players[p])
  }

  ghost predicate Stays(a: Card, b: Card)
  {
    && b.zone == a.zone && b.id == a.id && b.name == a.name && b.faceDown == a.faceDown
    && b.destroyOnZoneChange == a.destroyOnZoneChange
    && (a.parent.None? ==> b.parent.None?)
    && (a.attached == [] ==> b.attached == [])
    && (a.zone.Some? && !HasCoords(a.zone.value.zone) ==> b.x == a.x && b.y == a.y)
  }

  /** How a card lies in a zone without coordinates. */
  predicate Plain(c: Card)
  {
    c.x == 0 && c.y == 0 && !c.faceDown
  }

  lemma CalmThen(s: State, t: State, u: State, moved: set<CardRef>, touched: set<Place>)
    requires Calm(s, t, moved, touched) && Calm(t, u, moved, touched)
    ensures Calm(s, u, moved, touched)
  {
  }

  lemma StayThen(s: State, t: State, u: State, moved: set<CardRef>)
    requires OthersStay(s, t, moved) && OthersStay(t, u, moved)
    ensures OthersStay(s, u, moved)
  {
  }

  // ------------------------------------------------------------------ compaction and unattaching

  lemma RelocateCalm(s: State, c: CardRef, column: nat, f: Lift)
    requires Inv(s, f) && c in s.heap && !IsLifted(c, f) && OnTable(s, c, f) && s.heap[c].parent.None?
    ensures s.heap[c].zone.Some? && s.heap[c].zone.value in s.zones && c in s.zones[s.heap[c].zone.value]
    ensures var t := Relocate(s, c, column);
            && Inv(t, f) && Calm(s, t, {}, {}) && SameTrees(s, t) && t.players == s.players
  {
    hide Placed; hide Ids; hide Forest; hide Arrows;
    InItsZone(s, c, f);
    RelocateKeepsInv(s, c, column, f);
  }

  /** The attachments are the same. */
  ghost predicate SameTrees(s: State, t: State)
  {
    && t.heap.Keys == s.heap.Keys
    && forall d :: d in s.heap ==> t.heap[d].attached == s.heap[d].attached && t.heap[d].parent == s.heap[d].parent
  }

  lemma SameTreesThen(s: State, t: State, u: State)
    requires SameTrees(s, t) && SameTrees(t, u)
    ensures SameTrees(s, u)
  {
  }

  lemma CalmItself(s: State)
    ensures Calm(s, s, {}, {}) && SameTrees(s, s)
  {
  }

  /** fixFreeSpaces, seen from the card list: some cards of the table change column and become last. */
  ghost function Compact(s: State, table: Place, moves: seq<(CardRef, nat)>, f: Lift): (t: State)
    requires Inv(s, f) && HasCoords(table.zone)
    ensures Inv(t, f) && Calm(s, t, {}, {}) && SameTrees(s, t) && t.players == s.players
    decreases |moves|
  {
    hide Inv; hide Calm; hide SameTrees;
    CalmItself(s);
    if moves == [] then s
    else
      var (c, column) := moves[0];
      if c in s.heap && s.heap[c].zone == Some(table) && s.heap[c].parent.None? && s.heap[c].x >= 0 && !IsLifted(c, f) then
        RelocateCalm(s, c, column, f);
        var s1 := Relocate(s, c, column);
        var t := Compact(s1, table, moves[1..], f);
        CalmThen(s, s1, t, {}, {});
        SameTreesThen(s, s1, t);
        t
      else
        Compact(s, table, moves[1..], f)
  }

  /** Exactly the link between k and its parent is gone. */
  ghost predicate Unlinked(s: State, t: State, k: CardRef)
    requires k in s.heap
  {
    && t.heap.Keys == s.heap.Keys
    && forall d :: d in s.heap ==>
         && t.heap[d].parent == (if d == k then None else s.heap[d].parent)
         && forall e :: e in t.heap[d].attached <==> e in s.heap[d].attached && !(e == k && s.heap[k].parent == Some(d))
  }

  lemma DetachCalm(s: State, k: CardRef, f: Lift)
    requires Inv(s, f) && k in s.heap && s.heap[k].parent.Some? && !IsLifted(k, f)
    ensures var q := s.heap[k].parent.value; q in s.heap && k in s.heap[q].attached
    ensures var t := Detach(s, k);
            && Inv(t, f) && Calm(s, t, {}, {}) && Unlinked(s, t, k) && t.players == s.players
            && k in t.heap && OnTable(t, k, f) && t.heap[k].parent.None?
  {
    hide Placed; hide Ids; hide Forest; hide Arrows;
    HasParent(s, k, f);
    DetachKeepsInv(s, k, f);
    var t := Detach(s, k);
    forall d | d in s.heap && s.heap[d].attached == []
      ensures t.heap[d].attached == []
    {
    }
  }

  lemma UnlinkedThenSame(s: State, t: State, u: State, k: CardRef)
    requires k in s.heap && Unlinked(s, t, k) && SameTrees(t, u)
    ensures Unlinked(s, u, k)
  {
  }

  /** The card is taken off its parent and gets a column of its own, before any compaction. */
  ghost function Loosen(s: State, k: CardRef, column: nat, f: Lift): (t: State)
    requires Inv(s, f) && k in s.heap && s.heap[k].parent.Some? && !IsLifted(k, f)
    ensures Inv(t, f) && Calm(s, t, {}, {}) && Unlinked(s, t, k) && t.players == s.players
    ensures OnTable(s, k, f) && s.heap[k].zone.Some? && HasCoords(s.heap[k].zone.value.zone)
  {
    hide Placed; hide Ids; hide Forest; hide Arrows; hide Calm; hide Unlinked; hide SameTrees;
    hide SetParent;
    HasParent(s, k, f);
    DetachCalm(s, k, f);
    var s1 := Detach(s, k);
    assert k in s1.heap;
    RelocateCalm(s1, k, column, f);
    var s2 := Relocate(s1, k, column);
    CalmThen(s, s1, s2, {}, {});
    UnlinkedThenSame(s, s1, s2, k);
    s2
  }

  /** unattachCard; the face of the card decides, by its position as an argument, about compaction. */
  ghost function UnattachCard(s: State, k: CardRef, grid: Grid, f: Lift): (t: State)
    requires Inv(s, f) && k in s.heap && s.heap[k].parent.Some? && !IsLifted(k, f)
    ensures Inv(t, f) && Calm(s, t, {}, {}) && Unlinked(s, t, k) && t.players == s.players
  {
    hide Inv; hide Calm; hide Unlinked; hide SameTrees; hide Loosen; hide Compact;
    var s2 := Loosen(s, k, grid.column(k), f);
    if s.heap[k].faceDown then
      var s3 := Compact(s2, s.heap[k].zone.value, grid.compactedAfter(k), f);
      CalmThen(s, s2, s3, {}, {});
      UnlinkedThenSame(s, s2, s3, k);
      s3
    else s2
  }

  /** The links between the listed children and their parents are gone, all others are as before. */
  ghost predicate UnlinkedAll(s: State, t: State, ks: seq<CardRef>)
  {
    && t.heap.Keys == s.heap.Keys
    && forall d :: d in s.heap ==>
         && t.heap[d].parent == (if d in ks then None else s.heap[d].parent)
         && forall e :: e in t.heap[d].attached <==> e in s.heap[d].attached && !(e in ks && e in s.heap && s.heap[e].parent == Some(d))
  }

  lemma UnlinkedStep(s: State, t: State, u: State, ks: seq<CardRef>)
    requires ks != [] && ks[0] in s.heap && Distinct(ks)
    requires Unlinked(s, t, ks[0]) && UnlinkedAll(t, u, ks[1..])
    ensures UnlinkedAll(s, u, ks)
  {
    var k := ks[0];
    assert forall d :: d in ks <==> d == k || d in ks[1..];
    assert k !in ks[1..];
    forall d, e | d in s.heap
      ensures e in u.heap[d].attached
              <==> e in s.heap[d].attached && !(e in ks && e in s.heap && s.heap[e].parent == Some(d))
    {
      if e in s.heap && e != k {
        assert t.heap[e].parent == s.heap[e].parent;
      }
    }
  }

  ghost predicate AllAttached(s: State, ks: seq<CardRef>, f: Lift)
  {
    Distinct(ks) && forall k :: k in ks ==> k in s.heap && s.heap[k].parent.Some? && !IsLifted(k, f)
  }

  lemma StillAttached(s: State, t: State, ks: seq<CardRef>, f: Lift)
    requires ks != [] && AllAttached(s, ks, f) && Unlinked(s, t, ks[0])
    ensures AllAttached(t, ks[1..], f)
  {
    forall k | k in ks[1..]
      ensures k in t.heap && t.heap[k].parent.Some? && !IsLifted(k, f)
    {
      assert k in ks && k != ks[0];
    }
  }

  /** unattachCard for every card of a list. */
  ghost function UnattachAll(s: State, ks: seq<CardRef>, grid: Grid, f: Lift): (t: State)
    requires Inv(s, f) && AllAttached(s, ks, f)
    ensures Inv(t, f) && Calm(s, t, {}, {}) && UnlinkedAll(s, t, ks) && t.players == s.players
    decreases |ks|
  {
    hide Inv; hide Calm; hide Unlinked; hide UnattachCard;
    if ks == [] then
      CalmItself(s);
      s
    else
      assert ks[0] in ks;
      var s1 := UnattachCard(s, ks[0], grid, f);
      StillAttached(s, s1, ks, f);
      var t := UnattachAll(s1, ks[1..], grid, f);
      CalmThen(s, s1, t, {}, {});
      UnlinkedStep(s, s1, t, ks);
      t
  }

  // ------------------------------------------------------------------ moving one card

  /** "Undo draw" stays valid for the cards drawn after the last draw of a card that leaves the hand. */
  function Truncated(lastDraw: seq<int>, id: int): seq<int>
  {
    if id in lastDraw then lastDraw[LastIndexOf(lastDraw, id)..] else lastDraw
  }

  function Truncate(s: State, player: int, start: Place, target: Place, id: int, undoing: bool): State
    requires player in s.players
  {
    if start.zone == Hand && target.zone != Hand && !undoing then
      WithLastDraw(s, player, Truncated(s.players[player].lastDraw, id))
    else s
  }

  lemma TruncateKeepsInv(s: State, player: int, start: Place, target: Place, id: int, undoing: bool, f: Lift)
    requires Inv(s, f) && player in s.players
    ensures Inv(Truncate(s, player, start, target, id, undoing), f)
  {
    hide Inv;
    LastDrawKeepsInv(s, player, Truncated(s.players[player].lastDraw, id), f);
  }

  /** A card that can be moved: in the start zone, not attached to another card. */
  ghost predicate Movable(s: State, c: CardRef, start: Place, target: Place)
  {
    && c in s.heap && s.heap[c].zone == Some(start) && s.heap[c].parent.None?
    && start in s.zones && target in s.zones
  }

  lemma PickUpStays(s: State, player: int, start: Place, target: Place, c: CardRef, undoing: bool)
    requires c in s.heap && s.heap[c].zone.Some? && s.heap[c].zone.value in s.zones
    requires c in s.zones[s.heap[c].zone.value] && player in s.players
    ensures var t := Truncate(LiftCard(s, c), player, start, target, s.heap[c].id, undoing);
            t.heap == s.heap[c := s.heap[c].(zone := None)] && OthersStay(s, t, {c})
  {
  }

  /** removeCard, and the undo list of the player who gave the command. */
  ghost function PickUp(s: State, player: int, start: Place, target: Place, c: CardRef, undoing: bool): (t: State)
    requires Inv(s, NoCard) && player in s.players && Movable(s, c, start, target)
    ensures Inv(t, Lifted(c, start))
    ensures t.heap == s.heap[c := s.heap[c].(zone := None)] && OthersStay(s, t, {c})
  {
    hide Inv; hide OthersStay;
    InItsZone(s, c, NoCard);
    LiftKeepsInv(s, c);
    PickUpStays(s, player, start, target, c, undoing);
    TruncateKeepsInv(LiftCard(s, c), player, start, target, s.heap[c].id, undoing, Lifted(c, start));
    Truncate(LiftCard(s, c), player, start, target, s.heap[c].id, undoing)
  }

  /** A card that goes to a zone of another name leaves its attached cards behind. */
  ghost function DropChildren(s: State, start: Place, target: Place, c: CardRef, grid: Grid): (t: State)
    requires Inv(s, Lifted(c, start)) && c in s.heap && s.heap[c].parent.None?
    ensures Inv(t, Lifted(c, start)) && Calm(s, t, {}, {}) && t.players == s.players
    ensures t.heap.Keys == s.heap.Keys && t.heap[c].parent.None?
    ensures start.zone != target.zone ==> t.heap[c].attached == []
    ensures start.zone == target.zone ==> t == s
  {
    hide Inv; hide Calm; hide UnlinkedAll; hide UnattachAll; hide AllAttached;
    CalmItself(s);
    if start.zone != target.zone then
      ChildrenAttached(s, c, Lifted(c, start));
      var u := UnattachAll(s, s.heap[c].attached, grid, Lifted(c, start));
      AllChildrenGone(s, u, c, Lifted(c, start));
      u
    else s
  }

  /** The lifted card carries no links that the target zone forbids. */
  ghost predicate Ready(t: State, start: Place, target: Place, c: CardRef)
  {
    && c in t.heap && t.heap[c].parent.None?
    && (start.zone != target.zone ==> t.heap[c].attached == [])
    && (start != target ==> NoArrowsAt(t, c))
  }

  /** The card is lifted, its attachments and arrows are dissolved as the zones demand. */
  ghost function TakeAway(s: State, player: int, start: Place, target: Place, c: CardRef, undoing: bool, grid: Grid): (t: State)
    requires Inv(s, NoCard) && player in s.players && Movable(s, c, start, target)
    ensures Inv(t, Lifted(c, start)) && Ready(t, start, target, c)
    ensures SameCards(s, t, c) && OthersStay(s, t, {c})
  {
    hide Inv; hide PickUp; hide DropChildren; hide NoArrowsAt; hide OthersStay; hide Calm;
    var s1 := PickUp(s, player, start, target, c, undoing);
    var s2 := DropChildren(s1, start, target, c, grid);
    CalmStays(s, s1, s2, c);
    if start != target then
      DropArrowsKeepsInv(s2, c, Lifted(c, start));
      var s3 := DropArrows(s2, c);
      DropArrowsStays(s, s2, c);
      s3
    else s2
  }

  lemma CalmStays(s: State, t: State, u: State, c: CardRef)
    requires c in s.heap && t.heap == s.heap[c := s.heap[c].(zone := None)]
    requires OthersStay(s, t, {c}) && Calm(t, u, {}, {}) && u.heap.Keys == t.heap.Keys
    ensures OthersStay(s, u, {c}) && SameCards(s, u, c)
  {
    assert Stays(t.heap[c], u.heap[c]);
  }

  lemma DropArrowsStays(s: State, t: State, c: CardRef)
    requires OthersStay(s, t, {c})
    ensures OthersStay(s, DropArrows(t, c), {c})
  {
  }

  /** The same card objects; c keeps name, id, face and token flag. */
  predicate SameCards(s: State, t: State, c: CardRef)
  {
    && t.heap.Keys == s.heap.Keys
    && (c in s.heap ==>
          && t.heap[c].name == s.heap[c].name && t.heap[c].id == s.heap[c].id
          && t.heap[c].faceDown == s.heap[c].faceDown
          && t.heap[c].destroyOnZoneChange == s.heap[c].destroyOnZoneChange)
  }

  lemma ChildrenAttached(s: State, c: CardRef, f: Lift)
    requires Inv(s, f) && c in s.heap && IsLifted(c, f)
    ensures AllAttached(s, s.heap[c].attached, f)
  {
    hide Placed; hide Ids; hide Arrows;
  }

  lemma AllChildrenGone(s: State, t: State, c: CardRef, f: Lift)
    requires Inv(s, f) && c in s.heap && s.heap[c].parent.None? && UnlinkedAll(s, t, s.heap[c].attached)
    ensures t.heap.Keys == s.heap.Keys && t.heap[c].attached == [] && t.heap[c].parent.None?
  {
    hide Placed; hide Ids; hide Arrows;
    assert forall e :: e !in t.heap[c].attached;
    EmptyWithoutMembers(t.heap[c].attached);
  }

  /** Does a move to another zone, or face down, give the card a new id? */
  predicate NeedsNewId(start: Place, target: Place, faceDown: bool)
  {
    (faceDown && start != target) || target.owner != start.owner
  }

  /** The card has gone with its zone, or lies in the target zone under its old or a new id. */
  ghost predicate BroughtIn(s: State, t: State, start: Place, target: Place, c: CardRef, faceDown: bool)
  {
    && c in s.heap && target.owner in s.players
    && if s.heap[c].destroyOnZoneChange && start.zone != target.zone then t.heap == s.heap - {c}
       else
         && t.heap.Keys == s.heap.Keys && t.heap[c].zone == Some(target)
         && (!HasCoords(target.zone) ==> t.heap[c].x == 0 && t.heap[c].y == 0)
         && t.heap[c].name == s.heap[c].name && t.heap[c].faceDown == faceDown
         && t.heap[c].destroyOnZoneChange == s.heap[c].destroyOnZoneChange
         && t.heap[c].id == if NeedsNewId(start, target, faceDown) then s.players[target.owner].nextCardId
                            else s.heap[c].id
  }

  lemma TargetHasOwner(s: State, start: Place, target: Place, c: CardRef)
    requires Inv(s, Lifted(c, start)) && target in s.zones
    ensures target.owner in s.players
  {
    hide Ids; hide Forest; hide Arrows;
  }

  lemma DestroyStays(s: State, c: CardRef)
    ensures OthersStay(s, Destroy(s, c), {c})
  {
  }

  lemma SettleStays(s: State, c: CardRef, p: Place, index: int, x: int, y: int, newId: bool, faceDown: bool)
    requires c in s.heap && p in s.zones && p.owner in s.players
    ensures var t := Settle(s, c, p, index, x, y, newId, faceDown);
            && OthersStay(s, t, {c}) && t.heap.Keys == s.heap.Keys
            && t.heap[c].zone == Some(p) && t.heap[c].name == s.heap[c].name && t.heap[c].faceDown == faceDown
            && (!HasCoords(p.zone) ==> t.heap[c].x == 0 && t.heap[c].y == 0)
            && t.heap[c].destroyOnZoneChange == s.heap[c].destroyOnZoneChange
            && t.heap[c].id == if newId then s.players[p.owner].nextCardId else s.heap[c].id
  {
    SettleOthers(s, c, p, index, x, y, newId, faceDown);
    hide OthersStay;
  }

  lemma SettleOthers(s: State, c: CardRef, p: Place, index: int, x: int, y: int, newId: bool, faceDown: bool)
    requires c in s.heap && p in s.zones && p.owner in s.players
    ensures OthersStay(s, Settle(s, c, p, index, x, y, newId, faceDown), {c})
  {
    hide InsertAt;
  }

  /** The second half of a move: the card is destroyed, or inserted at its new place. */
  ghost function BringIn(s: State, start: Place, target: Place, c: CardRef, index: int, y: int, faceDown: bool, column: nat): (t: State)
    requires Inv(s, Lifted(c, start)) && Ready(s, start, target, c) && target in s.zones
    ensures Inv(t, NoCard) && BroughtIn(s, t, start, target, c, faceDown) && OthersStay(s, t, {c})
  {
    hide Ids; hide Forest; hide Arrows; hide NoArrowsAt; hide OthersStay; hide Placed; hide Settle;
    TargetHasOwner(s, start, target, c);
    if s.heap[c].destroyOnZoneChange && start.zone != target.zone then
      DestroyKeepsInv(s, c, start);
      DestroyStays(s, c);
      Destroy(s, c)
    else
      SettleStays(s, c, target, index, column, y, NeedsNewId(start, target, faceDown), faceDown);
      SettleKeepsInv(s, c, start, target, index, column, y, NeedsNewId(start, target, faceDown), faceDown);
      Settle(s, c, target, index, column, y, NeedsNewId(start, target, faceDown), faceDown)
  }

  /** The body of moveCard's loop for one card. */
  ghost function MoveOne(
    s: State, player: int, start: Place, target: Place, c: CardRef, index: int, y: int,
    wanted: Option<bool>, undoing: bool, grid: Grid): (t: State)
    requires Inv(s, NoCard) && player in s.players && Movable(s, c, start, target)
    ensures Inv(t, NoCard) && OthersStay(s, t, {c})
    ensures MovedOne(s, t, start, target, c, FaceAfter(s, c, target, wanted))
  {
    hide Inv; hide TakeAway; hide BringIn; hide OthersStay; hide Ready;
    hide SameCards; hide BroughtIn; hide MovedOne; hide FaceAfter;
    var s1 := TakeAway(s, player, start, target, c, undoing, grid);
    TargetStays(s, s1, target, c);
    var t := BringIn(s1, start, target, c, index, y, FaceAfter(s, c, target, wanted), grid.column(c));
    StayThen(s, s1, t, {c});
    HalvesMakeMove(s, s1, t, start, target, c, FaceAfter(s, c, target, wanted));
    t
  }

  lemma TargetStays(s: State, t: State, target: Place, c: CardRef)
    requires OthersStay(s, t, {c}) && target in s.zones
    ensures target in t.zones
  {
  }

  lemma HalvesMakeMove(s: State, t: State, u: State, start: Place, target: Place, c: CardRef, faceDown: bool)
    requires c in s.heap && SameCards(s, t, c) && BroughtIn(t, u, start, target, c, faceDown)
    ensures MovedOne(s, u, start, target, c, faceDown)
  {
  }

  /** Only tables know face-down cards; there the command may turn the card over. */
  function FaceAfter(s: State, c: CardRef, target: Place, wanted: Option<bool>): bool
    requires c in s.heap
  {
    HasCoords(target.zone) && if wanted.Some? then wanted.value else s.heap[c].faceDown
  }

  /** Conservation for one card: it is destroyed exactly if it is a token that changes zones. */
  ghost predicate MovedOne(s: State, t: State, start: Place, target: Place, c: CardRef, faceDown: bool)
  {
    && c in s.heap
    && if s.heap[c].destroyOnZoneChange && start.zone != target.zone then t.heap.Keys == s.heap.Keys - {c}
       else
         && t.heap.Keys == s.heap.Keys && t.heap[c].zone == Some(target)
         && (!HasCoords(target.zone) ==> t.heap[c].x == 0 && t.heap[c].y == 0)
         && t.heap[c].name == s.heap[c].name && t.heap[c].faceDown == faceDown
         && t.heap[c].destroyOnZoneChange == s.heap[c].destroyOnZoneChange
         && (!NeedsNewId(start, target, faceDown) ==> t.heap[c].id == s.heap[c].id)
  }

  // ------------------------------------------------------------------ which cards are moved, in which order

  datatype MoveRequest = MoveRequest(id: int, faceDown: Option<bool>)

  datatype Selected = Selected(card: CardRef, position: nat, faceDown: Option<bool>)

  /** getCard: in hidden zones the id is a position, elsewhere the first card with that id counts. */
  function FindCard(heap: Heap, cards: seq<CardRef>, hidden: bool, id: int): (r: Option<(CardRef, nat)>)
    requires forall c :: c in cards ==> c in heap
    ensures r.Some? ==>
              r.value.1 < |cards| && cards[r.value.1] == r.value.0
              && (if hidden then r.value.1 == id else heap[r.value.0].id == id)
    ensures r.None? && !hidden ==> forall c :: c in cards ==> heap[c].id != id
  {
    if hidden then if 0 <= id < |cards| then Some((cards[id], id)) else None
    else if cards == [] then None
    else if heap[cards[0]].id == id then Some((cards[0], 0))
    else
      var r := FindCard(heap, cards[1..], hidden, id);
      if r.None? then None else Some((r.value.0, r.value.1 + 1))
  }

  predicate Hidden(p: Place)
  {
    TypeOf(p.zone) == HiddenZone
  }

  ghost predicate ZoneKnown(s: State, p: Place)
  {
    p in s.zones && Distinct(s.zones[p]) && forall c :: c in s.zones[p] ==> c in s.heap && s.heap[c].zone == Some(p)
  }

  lemma ZonesKnown(s: State, p: Place, f: Lift)
    requires Inv(s, f) && p in s.zones
    ensures ZoneKnown(s, p)
  {
    hide Ids; hide Forest; hide Arrows;
  }

  /** The consistency checks of moveCard: unknown ids stop the command, attached cards are skipped. */
  ghost function Select(
    s: State, start: Place, target: Place, reqs: seq<MoveRequest>, seen: set<int>, columnEmpty: bool)
    : Result<seq<Selected>, Response>
    requires ZoneKnown(s, start)
    decreases |reqs|
  {
    if reqs == [] then Ok([])
    else if reqs[0].id in seen then Select(s, start, target, reqs[1..], seen, columnEmpty)
    else
      var found := FindCard(s.heap, s.zones[start], Hidden(start), reqs[0].id);
      if found.None? then Err(RespNameNotFound)
      else
        var rest := Select(s, start, target, reqs[1..], seen + {reqs[0].id}, columnEmpty);
        if rest.Err? || Skipped(s, found.value.0, target, columnEmpty) then rest
        else Ok([Selected(found.value.0, found.value.1, reqs[0].faceDown)] + rest.value)
  }

  predicate Skipped(s: State, c: CardRef, target: Place, columnEmpty: bool)
    requires c in s.heap
  {
    s.heap[c].parent.Some? || (s.heap[c].attached != [] && HasCoords(target.zone) && !columnEmpty)
  }

  /** The id by which the command addressed the card. */
  function KeyOf(s: State, start: Place, m: Selected): int
    requires m.card in s.heap
  {
    if Hidden(start) then m.position else s.heap[m.card].id
  }

  ghost predicate SelectedOk(s: State, start: Place, m: Selected)
    requires start in s.zones
  {
    && m.position < |s.zones[start]| && s.zones[start][m.position] == m.card
    && m.card in s.heap && s.heap[m.card].parent.None?
  }

  ghost predicate SelectionOk(s: State, start: Place, ms: seq<Selected>)
    requires start in s.zones
  {
    && (forall i :: 0 <= i < |ms| ==> SelectedOk(s, start, ms[i]))
    && (forall i, j :: 0 <= i < j < |ms| ==> ms[i].card != ms[j].card)
  }

  lemma {:induction false} SelectSelects(
    s: State, start: Place, target: Place, reqs: seq<MoveRequest>, seen: set<int>, columnEmpty: bool)
    requires ZoneKnown(s, start)
    ensures var r := Select(s, start, target, reqs, seen, columnEmpty);
            if r.Err? then r.error == RespNameNotFound
            else && SelectionOk(s, start, r.value)
                 && forall i :: 0 <= i < |r.value| ==> KeyOf(s, start, r.value[i]) !in seen
    decreases |reqs|
  {
    if reqs != [] {
      var id := reqs[0].id;
      if id in seen {
        SelectSelects(s, start, target, reqs[1..], seen, columnEmpty);
      } else {
        var found := FindCard(s.heap, s.zones[start], Hidden(start), id);
        if found.Some? {
          SelectSelects(s, start, target, reqs[1..], seen + {id}, columnEmpty);
          var rest := Select(s, start, target, reqs[1..], seen + {id}, columnEmpty);
          if rest.Ok? && !Skipped(s, found.value.0, target, columnEmpty) {
            forall j | 0 <= j < |rest.value|
              ensures rest.value[j].card != found.value.0
            {
              assert KeyOf(s, start, rest.value[j]) != id;
              assert SelectedOk(s, start, rest.value[j]);
            }
          }
        }
      }
    }
  }

  /** The i-th request is the first for its id, finds this card, and nothing keeps the card from moving. */
  ghost predicate Picked(
    s: State, start: Place, target: Place, reqs: seq<MoveRequest>, seen: set<int>, columnEmpty: bool, i: nat, m: Selected)
    requires ZoneKnown(s, start)
  {
    && i < |reqs| && reqs[i].id !in seen && (forall j :: 0 <= j < i ==> reqs[j].id != reqs[i].id)
    && FindCard(s.heap, s.zones[start], Hidden(start), reqs[i].id) == Some((m.card, m.position))
    && m.faceDown == reqs[i].faceDown && m.card in s.heap && !Skipped(s, m.card, target, columnEmpty)
  }

  ghost predicate SomePicked(
    s: State, start: Place, target: Place, reqs: seq<MoveRequest>, seen: set<int>, columnEmpty: bool, m: Selected)
    requires ZoneKnown(s, start)
  {
    exists i: nat :: Picked(s, start, target, reqs, seen, columnEmpty, i, m)
  }

  /** The i-th request names no card of the zone. */
  ghost predicate Unknown(s: State, start: Place, reqs: seq<MoveRequest>, seen: set<int>, i: nat)
    requires ZoneKnown(s, start)
  {
    i < |reqs| && reqs[i].id !in seen && FindCard(s.heap, s.zones[start], Hidden(start), reqs[i].id).None?
  }

  lemma PickedLater(
    s: State, start: Place, target: Place, reqs: seq<MoveRequest>, seen: set<int>, columnEmpty: bool, m: Selected)
    requires ZoneKnown(s, start) && reqs != []
    ensures var id := reqs[0].id;
            var later := SomePicked(s, start, target, reqs[1..], seen + {id}, columnEmpty, m);
            SomePicked(s, start, target, reqs, seen, columnEmpty, m)
            <==> later || Picked(s, start, target, reqs, seen, columnEmpty, 0, m)
  {
    hide FindCard; hide Skipped;
    var id, rest := reqs[0].id, reqs[1..];
    if i: nat :| i > 0 && Picked(s, start, target, reqs, seen, columnEmpty, i, m) {
      assert Picked(s, start, target, rest, seen + {id}, columnEmpty, i - 1, m) by {
        assert reqs[i].id != reqs[0].id;
        assert forall j :: 0 <= j < i - 1 ==> rest[j] == reqs[j + 1];
      }
    }
    if i: nat :| Picked(s, start, target, rest, seen + {id}, columnEmpty, i, m) {
      forall j | 0 <= j < i + 1
        ensures reqs[j].id != reqs[i + 1].id
      {
        assert j > 0 ==> rest[j - 1].id != rest[i].id;
      }
      assert Picked(s, start, target, reqs, seen, columnEmpty, i + 1, m);
    }
  }

  lemma PickedSkipsSeen(
    s: State, start: Place, target: Place, reqs: seq<MoveRequest>, seen: set<int>, columnEmpty: bool, m: Selected)
    requires ZoneKnown(s, start) && reqs != [] && reqs[0].id in seen
    ensures SomePicked(s, start, target, reqs, seen, columnEmpty, m)
            <==> SomePicked(s, start, target, reqs[1..], seen, columnEmpty, m)
  {
    assert seen + {reqs[0].id} == seen;
    PickedLater(s, start, target, reqs, seen, columnEmpty, m);
  }

  /**
   The checks fail exactly if some request names no card of the zone; otherwise the selected cards are
   exactly those that requests find and that are neither attached nor kept by their attachments, each
   with the face wanted by the first request for it.
   */
  lemma {:induction false} SelectIff(
    s: State, start: Place, target: Place, reqs: seq<MoveRequest>, seen: set<int>, columnEmpty: bool)
    requires ZoneKnown(s, start)
    ensures var r := Select(s, start, target, reqs, seen, columnEmpty);
            && (r.Err? <==> exists i: nat :: Unknown(s, start, reqs, seen, i))
            && (r.Err? ==> r.error == RespNameNotFound)
            && (r.Ok? ==> forall m :: m in r.value <==> SomePicked(s, start, target, reqs, seen, columnEmpty, m))
    decreases |reqs|
  {
    hide FindCard; hide Skipped; hide SomePicked; hide Distinct;
    if reqs == [] {
      forall m
        ensures !SomePicked(s, start, target, reqs, seen, columnEmpty, m)
      {
        NonePicked(s, start, target, seen, columnEmpty, m);
      }
    } else if reqs[0].id in seen {
      SelectIff(s, start, target, reqs[1..], seen, columnEmpty);
      UnknownLater(s, start, reqs, seen, seen);
      forall m { PickedSkipsSeen(s, start, target, reqs, seen, columnEmpty, m); }
    } else {
      SelectIff(s, start, target, reqs[1..], seen + {reqs[0].id}, columnEmpty);
      UnknownLater(s, start, reqs, seen, seen + {reqs[0].id});
      forall m { PickedLater(s, start, target, reqs, seen, columnEmpty, m); }
    }
  }

  lemma NonePicked(s: State, start: Place, target: Place, seen: set<int>, columnEmpty: bool, m: Selected)
    requires ZoneKnown(s, start)
    ensures !SomePicked(s, start, target, [], seen, columnEmpty, m)
  {
  }

  lemma UnknownLater(s: State, start: Place, reqs: seq<MoveRequest>, seen: set<int>, more: set<int>)
    requires ZoneKnown(s, start) && reqs != [] && more == seen + {reqs[0].id}
    ensures (exists i: nat :: Unknown(s, start, reqs, seen, i))
            <==> Unknown(s, start, reqs, seen, 0) || exists i: nat :: Unknown(s, start, reqs[1..], more, i)
  {
    hide FindCard;
    if i: nat :| i > 0 && Unknown(s, start, reqs, seen, i) && !Unknown(s, start, reqs, seen, 0) {
      assert reqs[i].id != reqs[0].id;
      assert Unknown(s, start, reqs[1..], more, i - 1);
    }
    if i: nat :| Unknown(s, start, reqs[1..], more, i) {
      assert Unknown(s, start, reqs, seen, i + 1);
    }
  }

  /** MoveCardStruct: row, then column, then position in the zone. */
  predicate Before(a: (int, int, int), b: (int, int, int))
  {
    (a.0 == b.0 && ((a.1 == b.1 && a.2 < b.2) || a.1 < b.1)) || a.0 < b.0
  }

  /** The order the cards are moved in is a strict total order. */
  lemma BeforeIsStrictTotalOrder(a: (int, int, int), b: (int, int, int), c: (int, int, int))
    ensures !Before(a, a)
    ensures Before(a, b) && Before(b, c) ==> Before(a, c)
    ensures Before(a, b) || a == b || Before(b, a)
    ensures !(Before(a, b) && Before(b, a))
  {
  }

  function OrderKey(s: State, m: Selected): (int, int, int)
    requires m.card in s.heap
  {
    (s.heap[m.card].y, s.heap[m.card].x, m.position)
  }

  ghost predicate AllKnown(s: State, ms: seq<Selected>)
  {
    forall i :: 0 <= i < |ms| ==> ms[i].card in s.heap
  }

  ghost predicate InOrder(s: State, ms: seq<Selected>)
    requires AllKnown(s, ms)
  {
    forall i, j :: 0 <= i < j < |ms| ==> !Before(OrderKey(s, ms[j]), OrderKey(s, ms[i]))
  }

  /** Where a selected card goes among those already in order. */
  function InsertInOrder(s: State, m: Selected, ms: seq<Selected>): (r: seq<Selected>)
    requires m.card in s.heap && AllKnown(s, ms)
    ensures multiset(r) == multiset{m} + multiset(ms)
    decreases |ms|
  {
    if ms == [] || Before(OrderKey(s, m), OrderKey(s, ms[0])) then [m] + ms
    else
      assert ms == [ms[0]] + ms[1..];
      [ms[0]] + InsertInOrder(s, m, ms[1..])
  }

  lemma {:induction false} InsertInOrderSorted(s: State, m: Selected, ms: seq<Selected>)
    requires m.card in s.heap && AllKnown(s, ms) && InOrder(s, ms)
    ensures var r := InsertInOrder(s, m, ms); AllKnown(s, r) && InOrder(s, r)
    decreases |ms|
  {
    if ms != [] && !Before(OrderKey(s, m), OrderKey(s, ms[0])) {
      var rest := InsertInOrder(s, m, ms[1..]);
      InsertInOrderSorted(s, m, ms[1..]);
      assert multiset(rest) == multiset([m] + ms[1..]);
      SameMembers(rest, [m] + ms[1..]);
      forall j | 0 <= j < |rest|
        ensures !Before(OrderKey(s, rest[j]), OrderKey(s, ms[0]))
      {
        assert rest[j] in [m] + ms[1..];
      }
    }
  }

  /** std::set<MoveCardStruct>: the selected cards in order. */
  function Sorted(s: State, ms: seq<Selected>): (r: seq<Selected>)
    requires AllKnown(s, ms)
    ensures multiset(r) == multiset(ms) && AllKnown(s, r) && InOrder(s, r)
    decreases |ms|
  {
    if ms == [] then []
    else
      assert ms == [ms[0]] + ms[1..];
      var rest := Sorted(s, ms[1..]);
      InsertInOrderSorted(s, ms[0], rest);
      InsertInOrder(s, ms[0], rest)
  }

  // ------------------------------------------------------------------ the whole command

  function CardsOf(ms: seq<Selected>): set<CardRef>
  {
    set i | 0 <= i < |ms| :: ms[i].card
  }

  /** Tokens vanish when they change to a zone of another name. */
  predicate Vanishes(s: State, c: CardRef, start: Place, target: Place)
  {
    c in s.heap && s.heap[c].destroyOnZoneChange && start.zone != target.zone
  }

  ghost predicate AllMovable(s: State, ms: seq<Selected>, start: Place, target: Place)
  {
    && (forall i :: 0 <= i < |ms| ==> Movable(s, ms[i].card, start, target))
    && (forall i, j :: 0 <= i < j < |ms| ==> ms[i].card != ms[j].card)
  }

  /** Conservation: the moved tokens vanish, the other moved cards are in the target zone, the rest stays. */
  ghost predicate Conserved(s: State, t: State, moved: set<CardRef>, start: Place, target: Place)
  {
    && OthersStay(s, t, moved)
    && (forall c :: c in s.heap && c in moved ==>
          if Vanishes(s, c, start, target) then c !in t.heap
          else
            && c in t.heap && t.heap[c].zone == Some(target) && t.heap[c].name == s.heap[c].name
            && t.heap[c].destroyOnZoneChange == s.heap[c].destroyOnZoneChange
            && (!HasCoords(target.zone) ==> Plain(t.heap[c])))
  }

  lemma ConservedStep(s: State, t: State, u: State, ms: seq<Selected>, start: Place, target: Place, faceDown: bool)
    requires ms != [] && AllMovable(s, ms, start, target)
    requires OthersStay(s, t, {ms[0].card}) && MovedOne(s, t, start, target, ms[0].card, faceDown)
    requires !HasCoords(target.zone) ==> !faceDown
    requires Conserved(t, u, CardsOf(ms[1..]), start, target)
    ensures Conserved(s, u, CardsOf(ms), start, target)
  {
    var c, rest := ms[0].card, CardsOf(ms[1..]);
    CardsOfSplit(ms);
    assert c !in rest;
    forall d | d in s.heap && d !in CardsOf(ms)
      ensures d in u.heap && Stays(s.heap[d], u.heap[d])
    {
      assert Stays(s.heap[d], t.heap[d]);
    }
    forall d | d in s.heap && d in CardsOf(ms)
      ensures if Vanishes(s, d, start, target) then d !in u.heap
              else && d in u.heap && u.heap[d].zone == Some(target) && u.heap[d].name == s.heap[d].name
                   && u.heap[d].destroyOnZoneChange == s.heap[d].destroyOnZoneChange
                   && (!HasCoords(target.zone) ==> Plain(u.heap[d]))
    {
      if d != c {
        assert Stays(s.heap[d], t.heap[d]);
      } else if !Vanishes(s, c, start, target) {
        assert Stays(t.heap[c], u.heap[c]);
      }
    }
  }

  lemma CardsOfSplit(ms: seq<Selected>)
    requires ms != []
    ensures CardsOf(ms) == {ms[0].card} + CardsOf(ms[1..])
  {
    forall c | c in CardsOf(ms)
      ensures c in {ms[0].card} + CardsOf(ms[1..])
    {
      var i :| 0 <= i < |ms| && ms[i].card == c;
      if i > 0 {
        assert ms[1..][i - 1].card == c;
      }
    }
    forall c | c in CardsOf(ms[1..])
      ensures c in CardsOf(ms)
    {
      var i :| 0 <= i < |ms[1..]| && ms[1..][i].card == c;
      assert ms[i + 1].card == c;
    }
  }

  lemma RestMovable(s: State, t: State, ms: seq<Selected>, start: Place, target: Place)
    requires ms != [] && AllMovable(s, ms, start, target) && OthersStay(s, t, {ms[0].card})
    ensures AllMovable(t, ms[1..], start, target)
  {
    forall i | 0 <= i < |ms[1..]|
      ensures Movable(t, ms[1..][i].card, start, target)
    {
      assert Movable(s, ms[i + 1].card, start, target) && ms[i + 1].card != ms[0].card;
    }
  }

  /** moveCard's loop: inserted cards go to consecutive positions. */
  ghost function MoveLoop(
    s: State, player: int, start: Place, target: Place, ms: seq<Selected>, x: int, y: int,
    undoing: bool, grid: Grid): (t: State)
    requires Inv(s, NoCard) && player in s.players && AllMovable(s, ms, start, target)
    ensures Inv(t, NoCard) && Conserved(s, t, CardsOf(ms), start, target)
    decreases |ms|
  {
    hide Inv; hide OthersStay; hide MovedOne; hide Conserved; hide MoveOne; hide CardsOf;
    if ms == [] then
      NothingMoved(s, start, target);
      s
    else
      assert Movable(s, ms[0].card, start, target);
      var c := ms[0].card;
      var t := MoveOne(s, player, start, target, c, x, y, ms[0].faceDown, undoing, grid);
      RestMovable(s, t, ms, start, target);
      StayPlayers(s, t, player, {c});
      var u := MoveLoop(t, player, start, target, ms[1..], if Vanishes(s, c, start, target) then x else x + 1, y, undoing, grid);
      ConservedStep(s, t, u, ms, start, target, FaceAfter(s, c, target, ms[0].faceDown));
      u
  }

  lemma NothingMoved(s: State, start: Place, target: Place)
    ensures Conserved(s, s, CardsOf([]), start, target)
  {
  }

  lemma StayPlayers(s: State, t: State, player: int, moved: set<CardRef>)
    requires OthersStay(s, t, moved) && player in s.players
    ensures player in t.players
  {
  }

  lemma SelectionMovable(s: State, start: Place, target: Place, ms: seq<Selected>, sorted: seq<Selected>)
    requires ZoneKnown(s, start) && target in s.zones && SelectionOk(s, start, ms) && multiset(sorted) == multiset(ms)
    ensures AllMovable(s, sorted, start, target) && CardsOf(sorted) == CardsOf(ms)
  {
    SameMembers(sorted, ms);
    forall i | 0 <= i < |sorted|
      ensures Movable(s, sorted[i].card, start, target) && sorted[i].card in CardsOf(ms)
    {
      assert sorted[i] in ms;
      var k :| 0 <= k < |ms| && ms[k] == sorted[i];
      assert SelectedOk(s, start, ms[k]);
    }
    forall i | 0 <= i < |ms|
      ensures ms[i].card in CardsOf(sorted)
    {
      assert ms[i] in sorted;
    }
    DistinctCards(ms, sorted);
  }

  lemma DistinctCards(ms: seq<Selected>, sorted: seq<Selected>)
    requires multiset(sorted) == multiset(ms)
    requires forall i, j :: 0 <= i < j < |ms| ==> ms[i].card != ms[j].card
    ensures forall i, j :: 0 <= i < j < |sorted| ==> sorted[i].card != sorted[j].card
  {
    SameMembers(sorted, ms);
    assert Distinct(ms);
    DistinctByMultiset(ms);
    DistinctByMultiset(sorted);
    forall i, j | 0 <= i < j < |sorted|
      ensures sorted[i].card != sorted[j].card
    {
      assert sorted[i] in ms && sorted[j] in ms;
      var k :| 0 <= k < |ms| && ms[k] == sorted[i];
      var l :| 0 <= l < |ms| && ms[l] == sorted[j];
      assert k != l;
    }
  }

  lemma SelectionKnown(s: State, start: Place, ms: seq<Selected>)
    requires start in s.zones && SelectionOk(s, start, ms)
    ensures AllKnown(s, ms)
  {
    forall i | 0 <= i < |ms|
      ensures ms[i].card in s.heap
    {
      assert SelectedOk(s, start, ms[i]);
    }
  }

  /** Player::moveCard.  Both zones exist; `player` is the one who gave the command. */
  ghost function MoveCards(
    s: State, player: int, start: Place, target: Place, reqs: seq<MoveRequest>, x: int, y: int,
    fixFreeSpaces: bool, undoing: bool, grid: Grid): (r: (State, Response))
    requires Inv(s, NoCard) && player in s.players && start in s.zones && target in s.zones
    ensures Inv(r.0, NoCard)
    ensures r.1 != RespOk ==> r.0 == s
    ensures r.1 == RespOk ==> exists moved :: Conserved(s, r.0, moved, start, target)
  {
    hide Inv; hide OthersStay; hide Conserved; hide MoveLoop; hide Select; hide Sorted; hide SelectionOk; hide CardsOf;
    if !HasCoords(target.zone) && start.owner != target.owner && !s.players[player].judge then
      (s, RespContextError)
    else
      ZonesKnown(s, start, NoCard);
      SelectSelects(s, start, target, reqs, {}, grid.columnEmpty);
      var selected := Select(s, start, target, reqs, {}, grid.columnEmpty);
      if selected.Err? then (s, selected.error)
      else if selected.value == [] then (s, RespContextError)
      else
        SelectionKnown(s, start, selected.value);
        var ms := Sorted(s, selected.value);
        SelectionMovable(s, start, target, selected.value, ms);
        var xCoord := if !HasCoords(target.zone) && x <= -1 then |s.zones[target]| else x;
        var t := MoveLoop(s, player, start, target, ms, xCoord, y, undoing, grid);
        if HasCoords(start.zone) && fixFreeSpaces then
          var u := Compact(t, start, grid.compactedAtEnd, NoCard);
          ConservedCompact(s, t, u, CardsOf(ms), start, target);
          (u, RespOk)
        else (t, RespOk)
  }

  /** When the command is refused, with which answer, and which cards it moves otherwise: exactly those selected. */
  lemma MoveCardsMovesSelected(
    s: State, player: int, start: Place, target: Place, reqs: seq<MoveRequest>, x: int, y: int,
    fixFreeSpaces: bool, undoing: bool, grid: Grid)
    requires Inv(s, NoCard) && player in s.players && start in s.zones && target in s.zones
    ensures ZoneKnown(s, start)
    ensures var r := MoveCards(s, player, start, target, reqs, x, y, fixFreeSpaces, undoing, grid);
            var selected := Select(s, start, target, reqs, {}, grid.columnEmpty);
            if !HasCoords(target.zone) && start.owner != target.owner && !s.players[player].judge then r == (s, RespContextError)
            else if selected.Err? then r == (s, RespNameNotFound)
            else if selected.value == [] then r == (s, RespContextError)
            else r.1 == RespOk && Conserved(s, r.0, CardsOf(selected.value), start, target)
  {
    hide Inv; hide OthersStay; hide Conserved; hide MoveLoop; hide Select; hide Sorted; hide SelectionOk; hide CardsOf;
    ZonesKnown(s, start, NoCard);
    SelectSelects(s, start, target, reqs, {}, grid.columnEmpty);
    var selected := Select(s, start, target, reqs, {}, grid.columnEmpty);
    if selected.Ok? && selected.value != [] {
      SelectionKnown(s, start, selected.value);
      var ms := Sorted(s, selected.value);
      SelectionMovable(s, start, target, selected.value, ms);
      var xCoord := if !HasCoords(target.zone) && x <= -1 then |s.zones[target]| else x;
      var t := MoveLoop(s, player, start, target, ms, xCoord, y, undoing, grid);
      if HasCoords(start.zone) && fixFreeSpaces {
        var u := Compact(t, start, grid.compactedAtEnd, NoCard);
        ConservedCompact(s, t, u, CardsOf(ms), start, target);
      }
    }
  }

  lemma ConservedCompact(s: State, t: State, u: State, moved: set<CardRef>, start: Place, target: Place)
    requires Conserved(s, t, moved, start, target) && Calm(t, u, {}, {}) && u.heap.Keys == t.heap.Keys
    ensures Conserved(s, u, moved, start, target)
  {
    forall d | d in s.heap && d in t.heap
      ensures d in u.heap && Stays(t.heap[d], u.heap[d])
    {
    }
    forall d | d in s.heap && d !in moved
      ensures d in u.heap && Stays(s.heap[d], u.heap[d])
    {
      assert Stays(s.heap[d], t.heap[d]);
    }
  }
}

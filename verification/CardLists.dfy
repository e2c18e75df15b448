/** What drawing, moving and a mulligan do to the zones' lists of cards, position by position. */
module CardLists {
  import opened Wrappers
  import Collections
  import opened Cards
  import opened Shuffling
  import opened ZoneLists
  import opened GameState
  import opened Movement
  import opened Commands
  import opened UndoDraw

  // ------------------------------------------------------------------ drawing

  /** How many cards a draw takes from a list. */
  function Taken(number: int, available: nat): (k: nat)
    ensures k <= available
  {
    if number <= 0 then 0 else if number < available then number else available
  }

  function IdsOf(heap: Heap, cards: seq<CardRef>): seq<int>
    requires forall c :: c in cards ==> c in heap
  {
    if cards == [] then [] else [heap[cards[0]].id] + IdsOf(heap, cards[1..])
  }

  lemma {:induction false} SameIds(a: Heap, b: Heap, cards: seq<CardRef>)
    requires forall c :: c in cards ==> c in a && c in b && a[c].id == b[c].id
    ensures IdsOf(a, cards) == IdsOf(b, cards)
  {
    if cards != [] {
      SameIds(a, b, cards[1..]);
    }
  }

  /** Two of p's zones have new lists and p's undo list is longer; all other zones and seats are as before. */
  ghost predicate Drawn(s: State, t: State, p: int, from: Place, to: Place, k: nat)
    requires from in s.zones && to in s.zones && p in s.players
  {
    var list := s.zones[from];
    && k <= |list| && (forall c :: c in list ==> c in s.heap) && t.started == s.started
    && t.zones == s.zones[from := list[k..]][to := s.zones[to] + list[..k]]
    && t.players == s.players[p := s.players[p].(lastDraw := s.players[p].lastDraw + IdsOf(s.heap, list[..k]))]
    && t.heap.Keys == s.heap.Keys
    && (forall c :: c in s.heap && c !in list[..k] ==> t.heap[c] == s.heap[c])
    && (forall c :: c in list[..k] ==> c in t.heap && AsDrawn(s.heap[c], t.heap[c], to))
  }

  /** A card drawn to a table lies face down left of the grid; otherwise just its place has changed. */
  predicate AsDrawn(before: Card, after: Card, to: Place)
  {
    after == if to.zone == Table then before.(x := -1, y := 0, faceDown := true, zone := Some(to))
             else before.(x := 0, y := 0, zone := Some(to))
  }

  lemma NothingDrawn(s: State, p: int, from: Place, to: Place)
    requires from in s.zones && to in s.zones && from != to && p in s.players && forall c :: c in s.zones[from] ==> c in s.heap
    ensures Drawn(s, s, p, from, to, 0)
  {
    assert s.zones[from][0..] == s.zones[from] && s.zones[to] + s.zones[from][..0] == s.zones[to];
    assert IdsOf(s.heap, s.zones[from][..0]) == [];
    assert s.players[p].lastDraw + [] == s.players[p].lastDraw;
    assert s.players == s.players[p := s.players[p].(lastDraw := s.players[p].lastDraw)];
  }

  lemma IdsSplit(heap: Heap, cards: seq<CardRef>, k: nat)
    requires k < |cards| && forall c :: c in cards ==> c in heap
    ensures cards[0] in heap && IdsOf(heap, cards[..k + 1]) == [heap[cards[0]].id] + IdsOf(heap, cards[1..][..k])
  {
    assert cards[0] in cards && cards[..k + 1][1..] == cards[1..][..k];
  }

  lemma DrawnOneMore(s: State, t: State, u: State, p: int, from: Place, to: Place, k: nat)
    requires from in s.zones && to in s.zones && from != to && p in s.players && s.zones[from] != []
    requires ZoneKnown(s, from)
    requires Drawn(s, t, p, from, to, 1) && Drawn(t, u, p, from, to, k)
    requires forall c :: c in s.heap ==> t.heap[c].id == s.heap[c].id
    ensures Drawn(s, u, p, from, to, k + 1)
  {
    hide IdsOf;
    var list := s.zones[from];
    assert list[0] in list && t.zones[from] == list[1..];
    DrawnZones(s.zones, t.zones, u.zones, from, to, k);
    IdsSplit(s.heap, list, k);
    IdsOne(s.heap, list);
    SameIds(s.heap, t.heap, list[1..][..k]);
    assert list[..k + 1] == [list[0]] + list[1..][..k];
    DrawnPlayers(s.players, t.players, u.players, p, [s.heap[list[0]].id], IdsOf(s.heap, list[1..][..k]));
    assert forall c :: c in s.heap && c !in list[..k + 1] ==> u.heap[c] == s.heap[c];
    assert list[0] !in list[1..][..k];
    assert forall c :: c in list[1..][..k] ==> c in list && c != list[0] && t.heap[c] == s.heap[c];
  }

  lemma DrawnPlayers(s: map<int, Player>, t: map<int, Player>, u: map<int, Player>, p: int, a: seq<int>, b: seq<int>)
    requires p in s && t == s[p := s[p].(lastDraw := s[p].lastDraw + a)] && u == t[p := t[p].(lastDraw := t[p].lastDraw + b)]
    ensures u == s[p := s[p].(lastDraw := s[p].lastDraw + (a + b))]
  {
    assert s[p].lastDraw + a + b == s[p].lastDraw + (a + b);
  }

  lemma IdsOne(heap: Heap, cards: seq<CardRef>)
    requires cards != [] && cards[0] in heap
    ensures cards[..1] == [cards[0]] && IdsOf(heap, cards[..1]) == [heap[cards[0]].id]
  {
    assert cards[..1] == [cards[0]];
    assert [cards[0]][1..] == [];
  }

  lemma DrawnZones(s: map<Place, seq<CardRef>>, t: map<Place, seq<CardRef>>, u: map<Place, seq<CardRef>>, from: Place, to: Place, k: nat)
    requires from in s && to in s && from != to && k < |s[from]|
    requires t == s[from := s[from][1..]][to := s[to] + s[from][..1]]
    requires u == t[from := t[from][k..]][to := t[to] + t[from][..k]]
    ensures u == s[from := s[from][k + 1..]][to := s[to] + s[from][..k + 1]]
  {
    var list := s[from];
    assert list[1..][k..] == list[k + 1..];
    assert s[to] + list[..1] + list[1..][..k] == s[to] + list[..k + 1];
  }

  lemma OneDrawn(s: State, p: int)
    requires p in s.players && Place(p, Deck) in s.zones && Place(p, Hand) in s.zones && ZoneKnown(s, Place(p, Deck))
    requires s.zones[Place(p, Deck)] != []
    ensures s.zones[Place(p, Deck)][0] in s.heap && Drawn(s, DrawOne(s, p), p, Place(p, Deck), Place(p, Hand), 1)
  {
    var deck := s.zones[Place(p, Deck)];
    assert deck[0] in deck;
    IdsOne(s.heap, deck);
  }

  lemma OneCryptDrawn(s: State, p: int)
    requires p in s.players && Place(p, Crypt) in s.zones && Place(p, Table) in s.zones && ZoneKnown(s, Place(p, Crypt))
    requires s.zones[Place(p, Crypt)] != []
    ensures s.zones[Place(p, Crypt)][0] in s.heap && Drawn(s, DrawCryptOne(s, p), p, Place(p, Crypt), Place(p, Table), 1)
  {
    var crypt := s.zones[Place(p, Crypt)];
    assert crypt[0] in crypt;
    IdsOne(s.heap, crypt);
  }

  /**
   Drawing n cards takes the first n of the deck, or all there are: in their order they become the
   last of the hand and of the undo list; nothing else changes.
   */
  lemma {:induction false} DrawTakesTop(s: State, p: int, number: int)
    requires GameOk(s) && Active(s, p)
    ensures Place(p, Deck) in s.zones && Place(p, Hand) in s.zones
    ensures Drawn(s, DrawCards(s, p, number), p, Place(p, Deck), Place(p, Hand), Taken(number, |s.zones[Place(p, Deck)]|))
    decreases number
  {
    hide Inv; hide Seats; hide Tidy; hide DrawOne; hide Drawn; hide SamePopulation;
    NotRefused(s, p);
    ZonesKnown(s, Place(p, Deck), NoCard);
    if number <= 0 || s.zones[Place(p, Deck)] == [] {
      NothingDrawn(s, p, Place(p, Deck), Place(p, Hand));
    } else {
      DrawOneIsTransfer(s, p);
      DrawOneSeats(s, p);
      OneDrawn(s, p);
      SameIdsDrawn(s, p);
      DrawnLists(s, DrawOne(s, p), p, Place(p, Deck), Place(p, Hand), 1);
      DrawTakesTop(DrawOne(s, p), p, number - 1);
      DrawnOneMore(s, DrawOne(s, p), DrawCards(s, p, number), p, Place(p, Deck), Place(p, Hand),
                   Taken(number - 1, |s.zones[Place(p, Deck)]| - 1));
    }
  }

  lemma SameIdsDrawn(s: State, p: int)
    requires p in s.players && Place(p, Deck) in s.zones && Place(p, Hand) in s.zones
    requires s.zones[Place(p, Deck)] != [] && s.zones[Place(p, Deck)][0] in s.heap
    ensures forall c :: c in s.heap ==> c in DrawOne(s, p).heap && DrawOne(s, p).heap[c].id == s.heap[c].id
  {
  }

  lemma DrawnLists(s: State, t: State, p: int, from: Place, to: Place, k: nat)
    requires from in s.zones && to in s.zones && from != to && p in s.players && Drawn(s, t, p, from, to, k)
    ensures from in t.zones && t.zones[from] == s.zones[from][k..] && |t.zones[from]| == |s.zones[from]| - k
  {
  }

  /** Crypt draws likewise: the first n cards of the crypt become the last of the table's list, and of the undo list. */
  lemma {:induction false} CryptDrawTakesTop(s: State, p: int, number: int)
    requires GameOk(s) && Active(s, p)
    ensures Place(p, Crypt) in s.zones && Place(p, Table) in s.zones
    ensures Drawn(s, DrawCryptCards(s, p, number), p, Place(p, Crypt), Place(p, Table), Taken(number, |s.zones[Place(p, Crypt)]|))
    decreases number
  {
    hide Inv; hide Seats; hide Tidy; hide DrawCryptOne; hide Drawn; hide SamePopulation;
    NotRefused(s, p);
    ZonesKnown(s, Place(p, Crypt), NoCard);
    if number <= 0 || s.zones[Place(p, Crypt)] == [] {
      NothingDrawn(s, p, Place(p, Crypt), Place(p, Table));
    } else {
      DrawCryptOneIsTransfer(s, p);
      DrawCryptOneSeats(s, p);
      OneCryptDrawn(s, p);
      SameIdsCryptDrawn(s, p);
      DrawnLists(s, DrawCryptOne(s, p), p, Place(p, Crypt), Place(p, Table), 1);
      CryptDrawTakesTop(DrawCryptOne(s, p), p, number - 1);
      DrawnOneMore(s, DrawCryptOne(s, p), DrawCryptCards(s, p, number), p, Place(p, Crypt), Place(p, Table),
                   Taken(number - 1, |s.zones[Place(p, Crypt)]| - 1));
    }
  }

  lemma SameIdsCryptDrawn(s: State, p: int)
    requires p in s.players && Place(p, Crypt) in s.zones && Place(p, Table) in s.zones
    requires s.zones[Place(p, Crypt)] != [] && s.zones[Place(p, Crypt)][0] in s.heap
    ensures forall c :: c in s.heap ==> c in DrawCryptOne(s, p).heap && DrawCryptOne(s, p).heap[c].id == s.heap[c].id
  {
  }

  // ------------------------------------------------------------------ moving one card between lists

  /** Zones without coordinates keep their lists, but for `start`, which loses c. */
  ghost predicate ListsAfterLift(s: State, t: State, start: Place, c: CardRef)
    requires start in s.zones && c in s.zones[start]
  {
    t.zones.Keys == s.zones.Keys
    && forall q :: q in s.zones && !HasCoords(q.zone) ==>
         t.zones[q] == if q == start then Without(s.zones[start], c) else s.zones[q]
  }

  lemma TakeAwayLists(s: State, player: int, start: Place, target: Place, c: CardRef, undoing: bool, grid: Grid)
    requires Inv(s, NoCard) && player in s.players && Movable(s, c, start, target)
    ensures c in s.zones[start]
    ensures ListsAfterLift(s, TakeAway(s, player, start, target, c, undoing, grid), start, c)
  {
    hide Inv; hide OthersStay; hide SameCards; hide Ready; hide NoArrowsAt; hide DropChildren;
    InItsZone(s, c, NoCard);
    var s1 := PickUp(s, player, start, target, c, undoing);
    assert s1.zones == s.zones[start := Without(s.zones[start], c)];
    var s2 := DropChildren(s1, start, target, c, grid);
    CalmLists(s1, s2);
  }

  lemma CalmLists(s: State, t: State)
    requires Calm(s, t, {}, {})
    ensures t.zones.Keys == s.zones.Keys && forall q :: q in s.zones && !HasCoords(q.zone) ==> t.zones[q] == s.zones[q]
  {
  }

  /** One card has left its list, and is in the other one at x unless it vanished. */
  ghost predicate OneMoved(s: State, t: State, start: Place, target: Place, c: CardRef, x: int, vanishes: bool)
    requires start in s.zones && target in s.zones && c in s.zones[start]
  {
    && t.zones.Keys == s.zones.Keys
    && t.zones[start] == Without(s.zones[start], c)
    && t.zones[target] == (if vanishes then s.zones[target] else InsertAt(s.zones[target], x, c))
    && forall q :: q in s.zones && !HasCoords(q.zone) && q != start && q != target ==> t.zones[q] == s.zones[q]
  }

  /** Between two different zones: the card leaves its list, and enters a list at the index unless it vanishes. */
  lemma MoveOneLists(
    s: State, player: int, start: Place, target: Place, c: CardRef, index: int, y: int,
    wanted: Option<bool>, undoing: bool, grid: Grid)
    requires Inv(s, NoCard) && player in s.players && Movable(s, c, start, target) && start != target
    requires !HasCoords(start.zone) && !HasCoords(target.zone)
    ensures c in s.zones[start] && c in s.heap
    ensures OneMoved(s, MoveOne(s, player, start, target, c, index, y, wanted, undoing, grid), start, target, c, index,
                     Vanishes(s, c, start, target))
  {
    hide Inv; hide OthersStay; hide MovedOne; hide Ready; hide TakeAway; hide BroughtIn; hide Without; hide InsertAt;
    TakeAwayLists(s, player, start, target, c, undoing, grid);
    var s1 := TakeAway(s, player, start, target, c, undoing, grid);
    TargetStays(s, s1, target, c);
    TargetHasOwner(s1, start, target, c);
  }

  // ------------------------------------------------------------------ moving several cards between lists

  /** A list without some cards, the others in their order. */
  function Leaving(cards: seq<CardRef>, gone: set<CardRef>): seq<CardRef>
  {
    if cards == [] then []
    else (if cards[0] in gone then [] else [cards[0]]) + Leaving(cards[1..], gone)
  }

  lemma {:induction false} LeavingNone(cards: seq<CardRef>, gone: set<CardRef>)
    requires forall c :: c in cards ==> c !in gone
    ensures Leaving(cards, gone) == cards
  {
    if cards != [] {
      LeavingNone(cards[1..], gone);
    }
  }

  lemma {:induction false} LeavingOne(cards: seq<CardRef>, c: CardRef)
    requires c in cards && Distinct(cards)
    ensures Leaving(cards, {c}) == Without(cards, c)
  {
    if cards[0] == c {
      LeavingNone(cards[1..], {c});
      assert Without(cards, c) == cards[1..];
    } else {
      hide Without;
      LeavingOne(cards[1..], c);
      WithoutTail(cards, c);
    }
  }

  lemma WithoutTail(cards: seq<CardRef>, c: CardRef)
    requires c in cards && cards[0] != c
    ensures c in cards[1..] && Without(cards, c) == [cards[0]] + Without(cards[1..], c)
  {
    var k := IndexOf(cards[1..], c);
    assert IndexOf(cards, c) == 1 + k;
    assert cards[..1 + k] == [cards[0]] + cards[1..][..k] && cards[1 + k + 1..] == cards[1..][k + 1..];
  }

  lemma {:induction false} LeavingBoth(cards: seq<CardRef>, a: set<CardRef>, b: set<CardRef>)
    ensures Leaving(Leaving(cards, a), b) == Leaving(cards, a + b)
  {
    if cards != [] {
      LeavingBoth(cards[1..], a, b);
      var rest := Leaving(cards[1..], a);
      if cards[0] in a {
        assert Leaving(cards, a) == rest;
      } else {
        assert Leaving(cards, a) == [cards[0]] + rest && ([cards[0]] + rest)[1..] == rest;
      }
    }
  }

  /** Where an insertion at x ends up in a list of that length. */
  function Clamped(x: int, size: nat): (i: nat)
    ensures i <= size
  {
    if 0 <= x < size then x else size
  }

  /** The cards stand in a row from the position on, the list's other cards around them. */
  function Spliced(list: seq<CardRef>, x: int, cards: seq<CardRef>): seq<CardRef>
  {
    var i := Clamped(x, |list|);
    list[..i] + cards + list[i..]
  }

  lemma SplicedFirst(list: seq<CardRef>, x: nat, c: CardRef, rest: seq<CardRef>)
    ensures Spliced(InsertAt(list, x, c), x + 1, rest) == Spliced(list, x, [c] + rest)
  {
    var i := Clamped(x, |list|);
    var longer := InsertAt(list, x, c);
    assert longer == list[..i] + [c] + list[i..];
    assert Clamped(x + 1, |longer|) == i + 1;
    assert longer[..i + 1] == list[..i] + [c] && longer[i + 1..] == list[i..];
  }

  /** The cards that arrive, in their order: all but tokens that vanish. */
  function Arriving(s: State, ms: seq<Selected>, start: Place, target: Place): seq<CardRef>
  {
    if ms == [] then []
    else (if Vanishes(s, ms[0].card, start, target) then [] else [ms[0].card]) + Arriving(s, ms[1..], start, target)
  }

  lemma {:induction false} SameArriving(s: State, t: State, ms: seq<Selected>, start: Place, target: Place)
    requires forall i :: 0 <= i < |ms| ==> Vanishes(s, ms[i].card, start, target) == Vanishes(t, ms[i].card, start, target)
    ensures Arriving(s, ms, start, target) == Arriving(t, ms, start, target)
  {
    if ms != [] {
      SameArriving(s, t, ms[1..], start, target);
    }
  }

  lemma RestArriving(s: State, t: State, ms: seq<Selected>, start: Place, target: Place)
    requires ms != [] && AllMovable(s, ms, start, target) && OthersStay(s, t, {ms[0].card})
    ensures Arriving(s, ms[1..], start, target) == Arriving(t, ms[1..], start, target)
  {
    forall i | 0 <= i < |ms[1..]|
      ensures Vanishes(s, ms[1..][i].card, start, target) == Vanishes(t, ms[1..][i].card, start, target)
    {
      assert ms[1..][i] == ms[i + 1] && ms[i + 1].card != ms[0].card && Movable(s, ms[i + 1].card, start, target);
      assert Stays(s.heap[ms[i + 1].card], t.heap[ms[i + 1].card]);
    }
    SameArriving(s, t, ms[1..], start, target);
  }

  /** The lists after cards have left `start` and some of them have arrived in `target` at position x. */
  ghost predicate ListsMoved(s: State, t: State, start: Place, target: Place, gone: set<CardRef>, arriving: seq<CardRef>, x: int)
    requires start in s.zones && target in s.zones
  {
    && t.zones.Keys == s.zones.Keys
    && t.zones[start] == Leaving(s.zones[start], gone)
    && t.zones[target] == Spliced(s.zones[target], x, arriving)
    && forall q :: q in s.zones && !HasCoords(q.zone) && q != start && q != target ==> t.zones[q] == s.zones[q]
  }

  lemma NoListMoved(s: State, start: Place, target: Place, x: int)
    requires start in s.zones && target in s.zones
    ensures ListsMoved(s, s, start, target, CardsOf([]), [], x)
  {
    assert CardsOf([]) == {};
    LeavingNone(s.zones[start], {});
    var list := s.zones[target];
    assert Spliced(list, x, []) == list;
  }

  lemma ListsMovedStep(
    s: State, t: State, u: State, start: Place, target: Place, c: CardRef, vanishes: bool,
    gone: set<CardRef>, arriving: seq<CardRef>, x: nat)
    requires start in s.zones && target in s.zones && start != target && c in s.zones[start] && Distinct(s.zones[start])
    requires OneMoved(s, t, start, target, c, x, vanishes)
    requires ListsMoved(t, u, start, target, gone, arriving, if vanishes then x else x + 1)
    ensures ListsMoved(s, u, start, target, {c} + gone, (if vanishes then [] else [c]) + arriving, x)
  {
    LeavingOne(s.zones[start], c);
    LeavingBoth(s.zones[start], {c}, gone);
    SplicedFirst(s.zones[target], x, c, arriving);
    assert [] + arriving == arriving;
  }

  /** Cards moved between two lists stand one behind the other from the position on, in the order of the selection. */
  lemma {:induction false} MoveLoopSplices(
    s: State, player: int, start: Place, target: Place, ms: seq<Selected>, x: nat, y: int, undoing: bool, grid: Grid)
    requires Inv(s, NoCard) && player in s.players && AllMovable(s, ms, start, target) && start in s.zones && target in s.zones
    requires start != target && !HasCoords(start.zone) && !HasCoords(target.zone)
    ensures ListsMoved(s, MoveLoop(s, player, start, target, ms, x, y, undoing, grid), start, target,
                       CardsOf(ms), Arriving(s, ms, start, target), x)
    decreases |ms|
  {
    hide Inv; hide OthersStay; hide MovedOne; hide Conserved; hide MoveOne; hide CardsOf; hide ListsMoved; hide OneMoved;
    hide Distinct; hide Vanishes;
    if ms == [] {
      NoListMoved(s, start, target, x);
    } else {
      var c := ms[0].card;
      assert Movable(s, c, start, target);
      ZonesKnown(s, start, NoCard);
      var t := MoveOne(s, player, start, target, c, x, y, ms[0].faceDown, undoing, grid);
      RestMovable(s, t, ms, start, target);
      StayPlayers(s, t, player, {c});
      RestArriving(s, t, ms, start, target);
      MoveOneLists(s, player, start, target, c, x, y, ms[0].faceDown, undoing, grid);
      SameZonesThere(s, t, start, target, c, x, Vanishes(s, c, start, target));
      var rest := if Vanishes(s, c, start, target) then x else x + 1;
      MoveLoopSplices(t, player, start, target, ms[1..], rest, y, undoing, grid);
      CardsOfSplit(ms);
      ListsMovedStep(s, t, MoveLoop(t, player, start, target, ms[1..], rest, y, undoing, grid), start, target, c,
                     Vanishes(s, c, start, target), CardsOf(ms[1..]), Arriving(t, ms[1..], start, target), x);
    }
  }

  lemma SameZonesThere(s: State, t: State, start: Place, target: Place, c: CardRef, x: int, vanishes: bool)
    requires start in s.zones && target in s.zones && c in s.zones[start] && OneMoved(s, t, start, target, c, x, vanishes)
    ensures start in t.zones && target in t.zones
  {
  }

  /** In a tidy list zone the cards are moved in the order in which they lie there. */
  lemma ListOrderKept(s: State, start: Place, ms: seq<Selected>, sorted: seq<Selected>)
    requires Tidy(s) && ZoneKnown(s, start) && !HasCoords(start.zone) && SelectionOk(s, start, ms)
    requires multiset(sorted) == multiset(ms) && AllKnown(s, sorted) && InOrder(s, sorted)
    ensures forall i, j :: 0 <= i < j < |sorted| ==> sorted[i].position < sorted[j].position
  {
    Collections.SameMembers(sorted, ms);
    forall i | 0 <= i < |sorted|
      ensures SelectedOk(s, start, sorted[i]) && s.heap[sorted[i].card].x == 0 && s.heap[sorted[i].card].y == 0
    {
      assert sorted[i] in ms;
      var k :| 0 <= k < |ms| && ms[k] == sorted[i];
      assert SelectedOk(s, start, ms[k]);
      assert sorted[i].card in s.zones[start];
      assert Plain(s.heap[sorted[i].card]);
    }
    DistinctCards(ms, sorted);
    forall i, j | 0 <= i < j < |sorted|
      ensures sorted[i].position < sorted[j].position
    {
      assert !Before(OrderKey(s, sorted[j]), OrderKey(s, sorted[i]));
      assert sorted[i].card != sorted[j].card;
      assert SelectedOk(s, start, sorted[i]) && SelectedOk(s, start, sorted[j]);
    }
  }

  /**
   moveCard between two zones without coordinates: the selected cards, in the order in which they lay
   in their zone and without vanishing tokens, stand from position x on in the target - at its end for
   x = -1 or beyond it -, and every other card of both zones keeps its order.
   */
  lemma MoveCardsSplices(
    s: State, player: int, start: Place, target: Place, reqs: seq<MoveRequest>, x: int, y: int,
    fixFreeSpaces: bool, undoing: bool, grid: Grid)
    requires Inv(s, NoCard) && Tidy(s) && player in s.players && start in s.zones && target in s.zones
    requires start != target && !HasCoords(start.zone) && !HasCoords(target.zone)
    requires start.owner == target.owner || s.players[player].judge
    ensures ZoneKnown(s, start)
    ensures var selected := Select(s, start, target, reqs, {}, grid.columnEmpty);
            var r := MoveCards(s, player, start, target, reqs, x, y, fixFreeSpaces, undoing, grid);
            && (r.1 == RespOk <==> selected.Ok? && selected.value != [])
            && (r.1 == RespOk ==> MovedInOrder(s, r.0, start, target, selected.value, x))
  {
    hide Inv; hide OthersStay; hide Conserved; hide MoveLoop; hide Select; hide Sorted; hide CardsOf; hide ListsMoved; hide Tidy;
    hide SelectionOk; hide Arriving;
    ZonesKnown(s, start, NoCard);
    SelectSelects(s, start, target, reqs, {}, grid.columnEmpty);
    var selected := Select(s, start, target, reqs, {}, grid.columnEmpty);
    if selected.Ok? && selected.value != [] {
      SelectionKnown(s, start, selected.value);
      var ms := Sorted(s, selected.value);
      ListOrderKept(s, start, selected.value, ms);
      SelectionMovable(s, start, target, selected.value, ms);
      var at := if x <= -1 then |s.zones[target]| else x;
      MoveLoopSplices(s, player, start, target, ms, at, y, undoing, grid);
      var t := MoveLoop(s, player, start, target, ms, at, y, undoing, grid);
      assert MovedInOrder(s, t, start, target, selected.value, x);
      assert MoveCards(s, player, start, target, reqs, x, y, fixFreeSpaces, undoing, grid) == (t, RespOk);
    }
  }

  /** The selected cards have been moved in the order of their positions. */
  ghost predicate MovedInOrder(s: State, t: State, start: Place, target: Place, selected: seq<Selected>, x: int)
    requires start in s.zones && target in s.zones
  {
    && AllKnown(s, selected)
    && var ms := Sorted(s, selected);
       && (forall i, j :: 0 <= i < j < |ms| ==> ms[i].position < ms[j].position)
       && ListsMoved(s, t, start, target, CardsOf(ms), Arriving(s, ms, start, target), if x <= -1 then |s.zones[target]| else x)
  }

  // ------------------------------------------------------------------ mulligan

  /** A zone's cards from position i on, as a selection in order. */
  function Every(cards: seq<CardRef>, i: nat): (r: seq<Selected>)
    requires i <= |cards|
    ensures |r| == |cards| - i && forall k :: 0 <= k < |r| ==> r[k] == Selected(cards[i + k], i + k, None)
    decreases |cards| - i
  {
    if i == |cards| then [] else [Selected(cards[i], i, None)] + Every(cards, i + 1)
  }

  /** Asking for all cards of the hand from position i on selects them. */
  lemma {:induction false} SelectRest(s: State, p: int, i: nat, seen: set<int>, columnEmpty: bool)
    requires Inv(s, NoCard) && Place(p, Hand) in s.zones && ZoneKnown(s, Place(p, Hand)) && i <= |s.zones[Place(p, Hand)]|
    requires var cards := s.zones[Place(p, Hand)]; forall k :: i <= k < |cards| && cards[k] in s.heap ==> s.heap[cards[k]].id !in seen
    ensures var cards := s.zones[Place(p, Hand)];
            Select(s, Place(p, Hand), Place(p, Deck), WholeHand(s.heap, cards)[i..], seen, columnEmpty) == Ok(Every(cards, i))
    decreases |s.zones[Place(p, Hand)]| - i
  {
    hide Inv; hide FindCard; hide NoArrowsAt;
    var hand := Place(p, Hand);
    var cards := s.zones[hand];
    var reqs := WholeHand(s.heap, cards);
    if i < |cards| {
      assert cards[i] in cards;
      var id := s.heap[cards[i]].id;
      assert reqs[i..][0] == MoveRequest(id, None) && reqs[i..][1..] == reqs[i + 1..];
      IdsInZoneDiffer(s, hand, i);
      FindById(s.heap, cards, i);
      HiddenCardIsFree(s, cards[i], hand);
      SelectRest(s, p, i + 1, seen + {id}, columnEmpty);
    }
  }

  /** A selection already in order is moved as it is. */
  lemma {:induction false} SortedAlready(s: State, ms: seq<Selected>)
    requires AllKnown(s, ms) && forall i, j :: 0 <= i < j < |ms| ==> Before(OrderKey(s, ms[i]), OrderKey(s, ms[j]))
    ensures Sorted(s, ms) == ms
  {
    if ms != [] {
      SortedAlready(s, ms[1..]);
      InsertFirst(s, ms[0], ms[1..]);
    }
  }

  lemma InsertFirst(s: State, m: Selected, ms: seq<Selected>)
    requires m.card in s.heap && AllKnown(s, ms) && (ms == [] || Before(OrderKey(s, m), OrderKey(s, ms[0])))
    ensures InsertInOrder(s, m, ms) == [m] + ms
  {
  }

  /** The cards of a list that are no tokens. */
  function NoTokens(heap: Heap, cards: seq<CardRef>): seq<CardRef>
  {
    if cards == [] then []
    else (if cards[0] in heap && heap[cards[0]].destroyOnZoneChange then [] else [cards[0]]) + NoTokens(heap, cards[1..])
  }

  lemma {:induction false} AllArriving(s: State, p: int, cards: seq<CardRef>, i: nat)
    requires i <= |cards|
    ensures Arriving(s, Every(cards, i), Place(p, Hand), Place(p, Deck)) == NoTokens(s.heap, cards[i..])
    decreases |cards| - i
  {
    if i < |cards| {
      AllArriving(s, p, cards, i + 1);
      assert cards[i..][1..] == cards[i + 1..];
      assert Every(cards, i)[1..] == Every(cards, i + 1);
    }
  }

  lemma {:induction false} LeavingAll(cards: seq<CardRef>, gone: set<CardRef>)
    requires forall c :: c in cards ==> c in gone
    ensures Leaving(cards, gone) == []
  {
    if cards != [] {
      LeavingAll(cards[1..], gone);
    }
  }

  lemma EveryCard(cards: seq<CardRef>)
    ensures forall c :: c in cards ==> c in CardsOf(Every(cards, 0))
  {
    forall c | c in cards
      ensures c in CardsOf(Every(cards, 0))
    {
      var i :| 0 <= i < |cards| && cards[i] == c;
      assert Every(cards, 0)[i].card == c;
    }
  }

  lemma EveryInOrder(s: State, cards: seq<CardRef>)
    requires Tidy(s) && forall c :: c in cards ==> c in s.heap && s.heap[c].zone.Some? && !HasCoords(s.heap[c].zone.value.zone)
    ensures var ms := Every(cards, 0);
            AllKnown(s, ms) && forall i, j :: 0 <= i < j < |ms| ==> Before(OrderKey(s, ms[i]), OrderKey(s, ms[j]))
  {
    forall i | 0 <= i < |cards|
      ensures cards[i] in s.heap && s.heap[cards[i]].x == 0 && s.heap[cards[i]].y == 0
    {
      assert cards[i] in cards && Plain(s.heap[cards[i]]);
    }
  }

  lemma MovedAll(s: State, t: State, p: int)
    requires Place(p, Hand) in s.zones && Place(p, Deck) in s.zones && ZoneKnown(s, Place(p, Hand)) && Tidy(s)
    requires MovedInOrder(s, t, Place(p, Hand), Place(p, Deck), Every(s.zones[Place(p, Hand)], 0), -1)
    ensures Place(p, Hand) in t.zones && Place(p, Deck) in t.zones && t.zones[Place(p, Hand)] == []
    ensures t.zones[Place(p, Deck)] == s.zones[Place(p, Deck)] + NoTokens(s.heap, s.zones[Place(p, Hand)])
  {
    hide Sorted; hide CardsOf; hide Arriving; hide NoTokens;
    var hand, deck := s.zones[Place(p, Hand)], s.zones[Place(p, Deck)];
    EveryInOrder(s, hand);
    SortedAlready(s, Every(hand, 0));
    EveryCard(hand);
    LeavingAll(hand, CardsOf(Every(hand, 0)));
    AllArriving(s, p, hand, 0);
    assert hand[0..] == hand;
    assert deck[..|deck|] == deck && deck[|deck|..] == [];
  }

  /** Before the shuffle of a mulligan: the hand's cards are under the deck in their order, tokens are gone. */
  lemma HandGoesUnderDeck(s: State, p: int, grid: Grid)
    requires GameOk(s) && Active(s, p)
    ensures Place(p, Hand) in s.zones && Place(p, Deck) in s.zones
    ensures var t := HandUnderDeck(s, p, grid);
            && Place(p, Hand) in t.zones && Place(p, Deck) in t.zones && t.zones[Place(p, Hand)] == []
            && t.zones[Place(p, Deck)] == s.zones[Place(p, Deck)] + NoTokens(s.heap, s.zones[Place(p, Hand)])
  {
    hide Inv; hide Seats; hide Tidy; hide MoveCards; hide Select; hide MovedInOrder; hide NoTokens;
    NotRefused(s, p);
    var hand, deck := Place(p, Hand), Place(p, Deck);
    var cards := s.zones[hand];
    ZonesKnown(s, hand, NoCard);
    if cards == [] {
      assert s.zones[deck] + [] == s.zones[deck];
      assert NoTokens(s.heap, []) == [] by { NoTokensOfNone(s.heap); }
    } else {
      var reqs := WholeHand(s.heap, cards);
      SelectRest(s, p, 0, {}, grid.columnEmpty);
      assert reqs[0..] == reqs;
      MoveCardsSplices(s, p, hand, deck, reqs, -1, 0, false, false, grid);
      MovedAll(s, MoveCards(s, p, hand, deck, reqs, -1, 0, false, false, grid).0, p);
    }
  }

  lemma NoTokensOfNone(heap: Heap)
    ensures NoTokens(heap, []) == []
  {
  }

  /**
   A mulligan: all cards but tokens go from the hand under the deck, that is shuffled into some order,
   and the hand is the first `number` cards of the order, the deck the others.
   */
  lemma MulliganRedeals(s: State, p: int, number: int, order: seq<CardRef>, grid: Grid)
    requires GameOk(s) && Active(s, p)
    requires multiset(order) == multiset(HandUnderDeck(s, p, grid).zones[Place(p, Deck)])
    ensures Place(p, Hand) in s.zones && Place(p, Deck) in s.zones
    ensures multiset(order) == multiset(s.zones[Place(p, Deck)] + NoTokens(s.heap, s.zones[Place(p, Hand)]))
    ensures var t := Mulligan(s, p, number, order, grid);
            var k := Taken(number, |order|);
            && Place(p, Hand) in t.zones && Place(p, Deck) in t.zones
            && t.zones[Place(p, Hand)] == order[..k] && t.zones[Place(p, Deck)] == order[k..]
  {
    hide Inv; hide Seats; hide Tidy; hide HandUnderDeck; hide NoTokens; hide Drawn; hide DrawCards;
    var s1 := HandUnderDeck(s, p, grid);
    HandGoesUnderDeck(s, p, grid);
    ReorderKeeps(s1, Place(p, Deck), order);
    var s2 := Reorder(s1, Place(p, Deck), order);
    DrawTakesTop(s2, p, number);
    DrawnBoth(s2, DrawCards(s2, p, number), p, Place(p, Deck), Place(p, Hand), Taken(number, |order|));
    assert [] + order[..Taken(number, |order|)] == order[..Taken(number, |order|)];
  }

  lemma DrawnBoth(s: State, t: State, p: int, from: Place, to: Place, k: nat)
    requires from in s.zones && to in s.zones && from != to && p in s.players && Drawn(s, t, p, from, to, k)
    ensures from in t.zones && to in t.zones && k <= |s.zones[from]|
    ensures t.zones[from] == s.zones[from][k..] && t.zones[to] == s.zones[to] + s.zones[from][..k]
  {
  }
}

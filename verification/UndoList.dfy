/** The list of undoable draws: over every run its entries, all but the first, are cards still in the hand. */
module UndoList {
  import opened Wrappers
  import opened Cards
  import opened Shuffling
  import opened ZoneLists
  import opened GameState
  import opened Movement
  import opened Commands
  import opened Attachments
  import opened Tokens
  import opened Lifecycle
  import opened Setup
  import opened GameRuns

  ghost predicate Holds(s: State, p: int, id: int)
  {
    exists c :: c in s.heap && s.heap[c].zone == Some(Place(p, Hand)) && s.heap[c].id == id
  }

  ghost predicate Tracked(s: State, p: int, list: seq<int>)
  {
    && (forall i :: 1 <= i < |list| ==> Holds(s, p, list[i]))
    && (forall i, j :: 1 <= i < j < |list| ==> list[i] != list[j])
  }

  /** Every entry of p's undo list but the first is the id of a card in p's hand, no two the same. */
  ghost predicate HandTracks(s: State, p: int)
  {
    p in s.players ==> Tracked(s, p, s.players[p].lastDraw)
  }

  /** The cards p held are still held under their ids. */
  ghost predicate HandKept(s: State, t: State, p: int)
  {
    forall c :: c in s.heap && s.heap[c].zone == Some(Place(p, Hand)) ==>
      c in t.heap && t.heap[c].zone == s.heap[c].zone && t.heap[c].id == s.heap[c].id
  }

  lemma KeptTracks(s: State, t: State, p: int)
    requires HandTracks(s, p) && HandKept(s, t, p)
    requires p in t.players ==> t.players[p].lastDraw == [] || (p in s.players && t.players[p].lastDraw == s.players[p].lastDraw)
    ensures HandTracks(t, p)
  {
    if p in t.players && t.players[p].lastDraw != [] {
      var list := s.players[p].lastDraw;
      forall i | 1 <= i < |list|
        ensures Holds(t, p, list[i])
      {
        assert Holds(s, p, list[i]);
        var c :| c in s.heap && s.heap[c].zone == Some(Place(p, Hand)) && s.heap[c].id == list[i];
        assert c in t.heap;
      }
    }
  }

  // ------------------------------------------------------------------ moves

  /** What a move does to the undo lists. */
  function ListAfter(s: State, player: int, start: Place, target: Place, id: int, undoing: bool, q: int): seq<int>
    requires q in s.players
  {
    if q == player && start.zone == Hand && target.zone != Hand && !undoing then Truncated(s.players[q].lastDraw, id)
    else s.players[q].lastDraw
  }

  /** What is left of the list begins with the last entry of that id, which does not come again; without one it stays. */
  lemma CutAtLastEntry(list: seq<int>, id: int)
    ensures var left := Truncated(list, id);
            if id in list then
              && left != [] && left[0] == id && id !in left[1..]
              && |left| <= |list| && left == list[|list| - |left|..]
            else left == list
  {
    if id in list {
      var i := LastIndexOf(list, id);
      var left := Truncated(list, id);
      assert forall j :: 0 <= j < |left| ==> left[j] == list[i + j];
    }
  }

  lemma MoveOneList(
    s: State, player: int, start: Place, target: Place, c: CardRef, index: int, y: int,
    wanted: Option<bool>, undoing: bool, grid: Grid, q: int)
    requires Inv(s, NoCard) && player in s.players && Movable(s, c, start, target) && q in s.players
    ensures var t := MoveOne(s, player, start, target, c, index, y, wanted, undoing, grid);
            q in t.players && t.players[q].lastDraw == ListAfter(s, player, start, target, s.heap[c].id, undoing, q)
  {
    hide Inv; hide OthersStay; hide MovedOne; hide BroughtIn; hide SameCards; hide Ready; hide FaceAfter;
    hide TakeAway; hide BringIn; hide ListAfter;
    var s1 := TakeAway(s, player, start, target, c, undoing, grid);
    TakeAwayList(s, player, start, target, c, undoing, grid, q);
    TargetStays(s, s1, target, c);
    BringInList(s1, start, target, c, index, y, FaceAfter(s, c, target, wanted), grid.column(c), q);
  }

  lemma TakeAwayList(s: State, player: int, start: Place, target: Place, c: CardRef, undoing: bool, grid: Grid, q: int)
    requires Inv(s, NoCard) && player in s.players && Movable(s, c, start, target) && q in s.players
    ensures var t := TakeAway(s, player, start, target, c, undoing, grid);
            q in t.players && t.players[q].lastDraw == ListAfter(s, player, start, target, s.heap[c].id, undoing, q)
  {
    hide Inv; hide OthersStay; hide Calm; hide SameCards; hide Ready; hide DropChildren; hide PickUp; hide NoArrowsAt;
    var s1 := PickUp(s, player, start, target, c, undoing);
    PickUpList(s, player, start, target, c, undoing, q);
    var s2 := DropChildren(s1, start, target, c, grid);
    assert s2.players == s1.players;
    assert DropArrows(s2, c).players[q].lastDraw == s2.players[q].lastDraw;
  }

  lemma PickUpList(s: State, player: int, start: Place, target: Place, c: CardRef, undoing: bool, q: int)
    requires Inv(s, NoCard) && player in s.players && Movable(s, c, start, target) && q in s.players
    ensures var t := PickUp(s, player, start, target, c, undoing);
            q in t.players && t.players[q].lastDraw == ListAfter(s, player, start, target, s.heap[c].id, undoing, q)
  {
    hide Inv; hide OthersStay;
    InItsZone(s, c, NoCard);
  }

  lemma BringInList(s: State, start: Place, target: Place, c: CardRef, index: int, y: int, faceDown: bool, column: nat, q: int)
    requires Inv(s, Lifted(c, start)) && Ready(s, start, target, c) && target in s.zones && q in s.players
    ensures var t := BringIn(s, start, target, c, index, y, faceDown, column);
            q in t.players && t.players[q].lastDraw == s.players[q].lastDraw
  {
    hide Inv; hide OthersStay; hide NoArrowsAt;
    TargetHasOwner(s, start, target, c);
  }

  /** Whoever takes cards out of p's hand into another zone is p, and the zone is nobody's hand. */
  predicate OwnHand(player: int, start: Place, target: Place, p: int)
  {
    start == Place(p, Hand) && target != start ==> player == p && target.zone != Hand
  }

  lemma TruncatedFacts(list: seq<int>, id: int)
    ensures Truncated(list, id) == list || exists k :: 0 <= k < |list| && Truncated(list, id) == list[k..]
    ensures forall i :: 1 <= i < |Truncated(list, id)| ==> Truncated(list, id)[i] != id
    ensures Truncated(list, id) <= list || |Truncated(list, id)| < |list|
  {
    if id in list {
      var k := LastIndexOf(list, id);
      assert Truncated(list, id) == list[k..];
    }
  }

  /** A later part of a tracked list is tracked. */
  lemma SuffixTracked(s: State, p: int, list: seq<int>, id: int)
    requires Tracked(s, p, list)
    ensures Tracked(s, p, Truncated(list, id))
  {
    TruncatedFacts(list, id);
    if Truncated(list, id) != list {
      var k :| 0 <= k < |list| && Truncated(list, id) == list[k..];
      forall i | 1 <= i < |list[k..]|
        ensures Holds(s, p, list[k..][i])
      {
        assert list[k..][i] == list[k + i];
      }
    }
  }

  /** Entries that are not `id` do not need the card of that id. */
  lemma TrackedWithout(s: State, t: State, p: int, list: seq<int>, c: CardRef)
    requires Tracked(s, p, list) && c in s.heap
    requires forall d :: d in s.heap && s.heap[d].zone == Some(Place(p, Hand)) && d != c ==>
               d in t.heap && t.heap[d].zone == s.heap[d].zone && t.heap[d].id == s.heap[d].id
    requires forall i :: 1 <= i < |list| ==> list[i] != s.heap[c].id
    ensures Tracked(t, p, list)
  {
    forall i | 1 <= i < |list|
      ensures Holds(t, p, list[i])
    {
      assert Holds(s, p, list[i]);
      var d :| d in s.heap && s.heap[d].zone == Some(Place(p, Hand)) && s.heap[d].id == list[i];
      assert d != c && d in t.heap;
    }
  }

  lemma OthersHeld(s: State, t: State, p: int, moved: set<CardRef>)
    requires OthersStay(s, t, moved)
    ensures forall d :: d in s.heap && d !in moved ==>
              d in t.heap && t.heap[d].zone == s.heap[d].zone && t.heap[d].id == s.heap[d].id
  {
    forall d | d in s.heap && d !in moved
      ensures d in t.heap && t.heap[d].zone == s.heap[d].zone && t.heap[d].id == s.heap[d].id
    {
      assert Stays(s.heap[d], t.heap[d]);
    }
  }

  lemma MoveOneTracks(
    s: State, player: int, start: Place, target: Place, c: CardRef, index: int, y: int,
    wanted: Option<bool>, grid: Grid, p: int)
    requires Inv(s, NoCard) && player in s.players && Movable(s, c, start, target)
    requires HandTracks(s, p) && OwnHand(player, start, target, p) && p in s.players
    ensures HandTracks(MoveOne(s, player, start, target, c, index, y, wanted, false, grid), p)
  {
    hide Inv; hide MoveOne; hide OthersStay; hide Tracked; hide Truncated;
    var t := MoveOne(s, player, start, target, c, index, y, wanted, false, grid);
    MoveOneList(s, player, start, target, c, index, y, wanted, false, grid, p);
    OthersHeld(s, t, p, {c});
    var list, id := s.players[p].lastDraw, s.heap[c].id;
    SuffixTracked(s, p, list, id);
    if start == Place(p, Hand) && target != start {
      TruncatedFacts(list, id);
      TrackedWithout(s, t, p, Truncated(list, id), c);
    } else {
      HeldStays(s, t, p, c, start, target, FaceAfter(s, c, target, wanted));
      TrackedKept(s, t, p, t.players[p].lastDraw);
    }
  }

  lemma HeldStays(s: State, t: State, p: int, c: CardRef, start: Place, target: Place, faceDown: bool)
    requires Movable(s, c, start, target) && OthersStay(s, t, {c}) && MovedOne(s, t, start, target, c, faceDown)
    requires start == Place(p, Hand) ==> target == start
    ensures HandKept(s, t, p)
  {
    OthersHeld(s, t, p, {c});
  }

  lemma TrackedKept(s: State, t: State, p: int, list: seq<int>)
    requires Tracked(s, p, list) && HandKept(s, t, p)
    ensures Tracked(t, p, list)
  {
    forall i | 1 <= i < |list|
      ensures Holds(t, p, list[i])
    {
      assert Holds(s, p, list[i]);
      var d :| d in s.heap && s.heap[d].zone == Some(Place(p, Hand)) && s.heap[d].id == list[i];
      assert d in t.heap;
    }
  }

  lemma {:induction false} MoveLoopTracks(
    s: State, player: int, start: Place, target: Place, ms: seq<Selected>, x: int, y: int, grid: Grid, p: int)
    requires Inv(s, NoCard) && player in s.players && AllMovable(s, ms, start, target)
    requires HandTracks(s, p) && OwnHand(player, start, target, p) && p in s.players
    ensures HandTracks(MoveLoop(s, player, start, target, ms, x, y, false, grid), p)
    decreases |ms|
  {
    hide Inv; hide OthersStay; hide MovedOne; hide Conserved; hide MoveOne; hide CardsOf; hide HandTracks;
    if ms != [] {
      assert Movable(s, ms[0].card, start, target);
      var c := ms[0].card;
      var t := MoveOne(s, player, start, target, c, x, y, ms[0].faceDown, false, grid);
      RestMovable(s, t, ms, start, target);
      StayPlayers(s, t, player, {c});
      StayPlayers(s, t, p, {c});
      MoveOneTracks(s, player, start, target, c, x, y, ms[0].faceDown, grid, p);
      MoveLoopTracks(t, player, start, target, ms[1..], if Vanishes(s, c, start, target) then x else x + 1, y, grid, p);
    }
  }

  lemma CalmTracks(s: State, t: State, p: int)
    requires Calm(s, t, {}, {}) && HandTracks(s, p)
    ensures HandTracks(t, p)
  {
    OthersHeld(s, t, p, {});
    if p in t.players {
      assert t.players[p].(arrows := s.players[p].arrows) == s.players[p];
    }
    KeptTracks(s, t, p);
  }

  lemma MoveBringsNobody(
    s: State, player: int, start: Place, target: Place, reqs: seq<MoveRequest>, x: int, y: int,
    fixFreeSpaces: bool, undoing: bool, grid: Grid)
    requires Inv(s, NoCard) && player in s.players && start in s.zones && target in s.zones
    ensures MoveCards(s, player, start, target, reqs, x, y, fixFreeSpaces, undoing, grid).0.players.Keys == s.players.Keys
  {
    hide Inv; hide MoveCards;
    var r := MoveCards(s, player, start, target, reqs, x, y, fixFreeSpaces, undoing, grid);
    if r.1 == RespOk {
      var moved :| Conserved(s, r.0, moved, start, target);
    }
  }

  lemma MoveTracks(
    s: State, player: int, start: Place, target: Place, reqs: seq<MoveRequest>, x: int, y: int,
    fixFreeSpaces: bool, grid: Grid, p: int)
    requires Inv(s, NoCard) && player in s.players && start in s.zones && target in s.zones
    requires HandTracks(s, p) && OwnHand(player, start, target, p)
    ensures HandTracks(MoveCards(s, player, start, target, reqs, x, y, fixFreeSpaces, false, grid).0, p)
  {
    hide Inv; hide MoveCards; hide Tracked;
    MoveBringsNobody(s, player, start, target, reqs, x, y, fixFreeSpaces, false, grid);
    if p in s.players {
      MoveTracksSeated(s, player, start, target, reqs, x, y, fixFreeSpaces, grid, p);
    }
  }

  lemma MoveTracksSeated(
    s: State, player: int, start: Place, target: Place, reqs: seq<MoveRequest>, x: int, y: int,
    fixFreeSpaces: bool, grid: Grid, p: int)
    requires Inv(s, NoCard) && player in s.players && start in s.zones && target in s.zones && p in s.players
    requires HandTracks(s, p) && OwnHand(player, start, target, p)
    ensures HandTracks(MoveCards(s, player, start, target, reqs, x, y, fixFreeSpaces, false, grid).0, p)
  {
    hide Inv; hide OthersStay; hide Conserved; hide MoveLoop; hide Select; hide Sorted; hide SelectionOk; hide CardsOf;
    hide HandTracks; hide Calm; hide SameTrees; hide Compact;
    ZonesKnown(s, start, NoCard);
    SelectSelects(s, start, target, reqs, {}, grid.columnEmpty);
    var selected := Select(s, start, target, reqs, {}, grid.columnEmpty);
    if selected.Ok? && selected.value != [] {
      SelectionKnown(s, start, selected.value);
      var ms := Sorted(s, selected.value);
      SelectionMovable(s, start, target, selected.value, ms);
      var xCoord := if !HasCoords(target.zone) && x <= -1 then |s.zones[target]| else x;
      MoveLoopTracks(s, player, start, target, ms, xCoord, y, grid, p);
      var t := MoveLoop(s, player, start, target, ms, xCoord, y, false, grid);
      if HasCoords(start.zone) && fixFreeSpaces {
        CalmTracks(t, Compact(t, start, grid.compactedAtEnd, NoCard), p);
      }
    }
  }

  // ------------------------------------------------------------------ undoing

  /** At most the card with the requested id leaves the hand, and no undo list changes. */
  lemma UndoMoves(s: State, p: int, id: int, grid: Grid)
    requires Inv(s, NoCard) && p in s.players && Place(p, Hand) in s.zones && Place(p, Deck) in s.zones
    ensures var t := MoveCards(s, p, Place(p, Hand), Place(p, Deck), [MoveRequest(id, None)], 0, 0, false, true, grid).0;
            || t == s
            || exists c :: c in s.heap && s.heap[c].id == id && s.heap[c].zone == Some(Place(p, Hand)) && OthersStay(s, t, {c})
                           && (forall q :: q in t.players ==> q in s.players && t.players[q].lastDraw == s.players[q].lastDraw)
  {
    hide Inv; hide OthersStay; hide Conserved; hide MoveOne; hide SelectionOk; hide CardsOf; hide ListAfter; hide MovedOne;
    var hand, deck, reqs := Place(p, Hand), Place(p, Deck), [MoveRequest(id, None)];
    ZonesKnown(s, hand, NoCard);
    var found := FindCard(s.heap, s.zones[hand], false, id);
    assert reqs[1..] == [];
    assert Select(s, hand, deck, [], {} + {id}, grid.columnEmpty) == Ok([]);
    if found.Some? && s.heap[found.value.0].parent.None? {
      var c := found.value.0;
      assert c in s.zones[hand];
      var m := Selected(c, found.value.1, None);
      assert [m] + [] == [m];
      assert Select(s, hand, deck, reqs, {}, grid.columnEmpty) == Ok([m]);
      assert Movable(s, c, hand, deck);
      SingleUndo(s, p, m, grid);
      var t := MoveOne(s, p, hand, deck, c, 0, 0, None, true, grid);
      assert MoveCards(s, p, hand, deck, reqs, 0, 0, false, true, grid).0 == t;
      StayKeys(s, t, c);
      forall q | q in t.players
        ensures q in s.players && t.players[q].lastDraw == s.players[q].lastDraw
      {
        MoveOneList(s, p, hand, deck, c, 0, 0, None, true, grid, q);
        ListUndone(s, p, hand, deck, s.heap[c].id, q);
      }
    } else {
      assert Select(s, hand, deck, reqs, {}, grid.columnEmpty).Err?
          || Select(s, hand, deck, reqs, {}, grid.columnEmpty) == Ok([]);
    }
  }

  lemma ListUndone(s: State, p: int, start: Place, target: Place, id: int, q: int)
    requires q in s.players
    ensures ListAfter(s, p, start, target, id, true, q) == s.players[q].lastDraw
  {
  }

  lemma StayKeys(s: State, t: State, c: CardRef)
    requires OthersStay(s, t, {c})
    ensures t.players.Keys == s.players.Keys
  {
  }

  lemma SingleUndo(s: State, p: int, m: Selected, grid: Grid)
    requires Inv(s, NoCard) && p in s.players && Movable(s, m.card, Place(p, Hand), Place(p, Deck)) && m.faceDown == None
    ensures Sorted(s, [m]) == [m] && AllMovable(s, [m], Place(p, Hand), Place(p, Deck))
    ensures MoveLoop(s, p, Place(p, Hand), Place(p, Deck), [m], 0, 0, true, grid)
         == MoveOne(s, p, Place(p, Hand), Place(p, Deck), m.card, 0, 0, None, true, grid)
  {
    hide Inv; hide MoveOne; hide Conserved; hide OthersStay; hide MovedOne;
    assert [m][0] == m && [m][1..] == [];
    assert Sorted(s, []) == [];
    var t := MoveOne(s, p, Place(p, Hand), Place(p, Deck), m.card, 0, 0, m.faceDown, true, grid);
    StayPlayers(s, t, p, {m.card});
  }

  lemma UndoTracks(s: State, player: int, grid: Grid, p: int)
    requires GameOk(s) && Active(s, player) && HandTracks(s, p)
    ensures HandTracks(UndoDraw(s, player, grid).0, p)
  {
    hide Inv; hide Seats; hide Tidy; hide MoveCards; hide Tracked; hide OthersStay;
    NotRefused(s, player);
    var list := s.players[player].lastDraw;
    if list != [] {
      var shorter, id := list[..|list| - 1], list[|list| - 1];
      PopKeeps(s, player, shorter);
      var u := WithLastDraw(s, player, shorter);
      MoveBringsNobody(u, player, Place(player, Hand), Place(player, Deck), [MoveRequest(id, None)], 0, 0, false, true, grid);
      if p !in s.players {
        return;
      }
      PoppedTracked(s, u, p, list);
      UndoMoves(u, player, id, grid);
      var t := UndoDraw(s, player, grid).0;
      if t == u {
      } else {
        var c :| c in u.heap && u.heap[c].id == id && u.heap[c].zone == Some(Place(player, Hand)) && OthersStay(u, t, {c})
                 && (forall q :: q in t.players ==> q in u.players && t.players[q].lastDraw == u.players[q].lastDraw);
        OthersHeld(u, t, p, {c});
        if p in t.players {
          if player == p {
            TrackedWithout(u, t, p, shorter, c);
          } else {
            assert HandKept(u, t, p);
            TrackedKept(u, t, p, u.players[p].lastDraw);
          }
        }
      }
    }
  }

  lemma PoppedTracked(s: State, u: State, p: int, list: seq<int>)
    requires p in s.players && Tracked(s, p, s.players[p].lastDraw) && u.heap == s.heap && list != []
    ensures Tracked(u, p, s.players[p].lastDraw)
    ensures s.players[p].lastDraw == list ==>
              Tracked(u, p, list[..|list| - 1]) && forall i :: 1 <= i < |list| - 1 ==> list[i] != list[|list| - 1]
  {
    TrackedKept(s, u, p, s.players[p].lastDraw);
  }

  // ------------------------------------------------------------------ draws, mulligan

  lemma DrawOneTracks(s: State, player: int, p: int)
    requires Inv(s, NoCard) && player in s.players && Place(player, Deck) in s.zones && Place(player, Hand) in s.zones
    requires s.zones[Place(player, Deck)] != []
    requires s.zones[Place(player, Deck)][0] in s.heap && s.heap[s.zones[Place(player, Deck)][0]].zone == Some(Place(player, Deck))
    requires HandTracks(s, p)
    ensures HandTracks(DrawOne(s, player), p)
  {
    hide Placed; hide Forest; hide Arrows;
    var t, c := DrawOne(s, player), s.zones[Place(player, Deck)][0];
    if p in s.players {
      var list := s.players[p].lastDraw;
      TrackedKept(s, t, p, list);
      if player == p {
        forall i | 1 <= i < |list|
          ensures list[i] != s.heap[c].id
        {
          assert Holds(s, p, list[i]);
          var d :| d in s.heap && s.heap[d].zone == Some(Place(p, Hand)) && s.heap[d].id == list[i];
          assert IdsDiffer(s, NoCard, c, d);
        }
        assert Holds(t, p, s.heap[c].id) by {
          assert t.heap[c].zone == Some(Place(p, Hand));
        }
      }
    }
  }

  lemma {:induction false} DrawTracks(s: State, player: int, number: int, p: int)
    requires GameOk(s) && Active(s, player) && HandTracks(s, p)
    ensures HandTracks(DrawCards(s, player, number), p)
    decreases number
  {
    hide Inv; hide Seats; hide Tidy; hide DrawOne; hide HandTracks;
    NotRefused(s, player);
    if number > 0 && s.zones[Place(player, Deck)] != [] {
      DrawOneIsTransfer(s, player);
      DrawOneSeats(s, player);
      DrawOneTracks(s, player, p);
      DrawTracks(DrawOne(s, player), player, number - 1, p);
    }
  }

  /** A crypt draw keeps the list tracked exactly when it was empty: the card drawn is not in the hand. */
  lemma CryptDrawTracksIff(s: State, p: int)
    requires Inv(s, NoCard) && p in s.players && Place(p, Crypt) in s.zones && Place(p, Table) in s.zones
    requires s.zones[Place(p, Crypt)] != [] && s.zones[Place(p, Crypt)][0] in s.heap
    requires s.heap[s.zones[Place(p, Crypt)][0]].zone == Some(Place(p, Crypt)) && HandTracks(s, p)
    ensures HandTracks(DrawCryptOne(s, p), p) <==> s.players[p].lastDraw == []
  {
    hide Placed; hide Forest; hide Arrows;
    var t, c := DrawCryptOne(s, p), s.zones[Place(p, Crypt)][0];
    var list := t.players[p].lastDraw;
    assert list == s.players[p].lastDraw + [s.heap[c].id];
    forall d | d in t.heap && t.heap[d].zone == Some(Place(p, Hand))
      ensures t.heap[d].id != list[|list| - 1]
    {
      assert d != c && IdsDiffer(s, NoCard, c, d);
    }
    assert !Holds(t, p, list[|list| - 1]);
  }

  lemma CryptOneTracksOthers(s: State, player: int, p: int)
    requires player in s.players && Place(player, Crypt) in s.zones && Place(player, Table) in s.zones && player != p
    requires s.zones[Place(player, Crypt)] != [] && s.zones[Place(player, Crypt)][0] in s.heap
    requires s.heap[s.zones[Place(player, Crypt)][0]].zone == Some(Place(player, Crypt)) && HandTracks(s, p)
    ensures HandTracks(DrawCryptOne(s, player), p)
  {
    KeptTracks(s, DrawCryptOne(s, player), p);
  }

  lemma {:induction false} CryptTracksOthers(s: State, player: int, number: int, p: int)
    requires GameOk(s) && Active(s, player) && HandTracks(s, p) && player != p
    ensures HandTracks(DrawCryptCards(s, player, number), p)
    decreases number
  {
    hide Inv; hide Seats; hide Tidy; hide DrawCryptOne; hide HandTracks;
    NotRefused(s, player);
    if number > 0 && s.zones[Place(player, Crypt)] != [] {
      ZonesKnown(s, Place(player, Crypt), NoCard);
      DrawCryptOneIsTransfer(s, player);
      DrawCryptOneSeats(s, player);
      CryptOneTracksOthers(s, player, p);
      CryptTracksOthers(DrawCryptOne(s, player), player, number - 1, p);
    }
  }

  lemma ReorderTracks(s: State, zone: Place, order: seq<CardRef>, p: int)
    requires zone in s.zones && HandTracks(s, p)
    ensures HandTracks(Reorder(s, zone, order), p)
  {
    KeptTracks(s, Reorder(s, zone, order), p);
  }

  lemma MulliganTracks(s: State, player: int, number: int, order: seq<CardRef>, grid: Grid, p: int)
    requires GameOk(s) && Active(s, player) && HandTracks(s, p)
    requires multiset(order) == multiset(HandUnderDeck(s, player, grid).zones[Place(player, Deck)])
    ensures HandTracks(Mulligan(s, player, number, order, grid), p)
  {
    hide Inv; hide Seats; hide Tidy; hide HandUnderDeck; hide HandTracks;
    var s1 := HandUnderDeck(s, player, grid);
    UnderDeckTracks(s, player, grid, p);
    ReorderKeeps(s1, Place(player, Deck), order);
    ReorderTracks(s1, Place(player, Deck), order, p);
    DrawTracks(Reorder(s1, Place(player, Deck), order), player, number, p);
  }

  lemma UnderDeckTracks(s: State, player: int, grid: Grid, p: int)
    requires GameOk(s) && Active(s, player) && HandTracks(s, p)
    ensures HandTracks(HandUnderDeck(s, player, grid), p)
  {
    hide Inv; hide Seats; hide Tidy; hide MoveCards; hide HandTracks;
    NotRefused(s, player);
    ZonesKnown(s, Place(player, Hand), NoCard);
    if s.zones[Place(player, Hand)] != [] {
      MoveTracks(s, player, Place(player, Hand), Place(player, Deck), WholeHand(s.heap, s.zones[Place(player, Hand)]),
                 -1, 0, false, grid, p);
    }
  }

  // ------------------------------------------------------------------ the other commands

  lemma SettingTracks(s: State, t: State, p: int)
    requires SameSetting(s, t) && HandTracks(s, p)
    ensures HandTracks(t, p)
  {
    forall c | c in s.heap
      ensures SameSpot(s.heap[c], t.heap[c])
    {
    }
    KeptTracks(s, t, p);
  }

  lemma AttachTracks(s: State, player: int, zone: ZoneName, id: int, goal: AttachTarget, grid: Grid, p: int)
    requires GameOk(s) && player in s.players && PlanOk(s, PlanAttach(s, player, zone, id, goal)) && HandTracks(s, p)
    ensures HandTracks(Attach(s, player, zone, id, goal, grid).0, p)
  {
    hide Inv; hide Seats; hide Tidy; hide SameSetting; hide PlanAttach; hide AttachCard; hide UnattachCommand;
    hide Attachable; hide HandTracks;
    match PlanAttach(s, player, zone, id, goal)
    case Refuse(_) =>
    case Hang(c, q) =>
      PlanIsAttachable(s, player, zone, id, goal);
      SettingTracks(s, AttachCard(s, c, q, grid), p);
    case Free(c) =>
      SettingTracks(s, UnattachCommand(s, c, grid), p);
  }

  lemma AddedTracks(s: State, t: State, ref: CardRef, zone: Place, p: int)
    requires zone in s.zones && zone.owner in s.players && Added(s, t, ref, zone) && HandTracks(s, p)
    ensures HandTracks(t, p)
  {
    KeptTracks(s, t, p);
  }

  lemma TokenTracks(s: State, cmd: Command, p: int)
    requires GameOk(s) && cmd.DoToken? && Allowed(s, cmd) && HandTracks(s, p)
    ensures HandTracks(ExecLinks(s, cmd), p)
  {
    hide Inv; hide Seats; hide Tidy; hide PlanAttach; hide HandTracks; hide Added; hide Attach; hide AddCard;
    var DoToken(player, zone, name, x, y, token, ref, replaced, grid) := cmd;
    if Refusal(s, player).None? && Place(player, zone) in s.zones {
      AddCardKeepsGame(s, ref, Place(player, zone), Positive(x), grid.column(ref), Positive(y), name, token);
      var t := PlaceToken(s, player, zone, name, x, y, token, ref, grid);
      AddedTracks(s, t, ref, Place(player, zone), p);
      AddedPlayers(s, t, ref, Place(player, zone));
      if replaced.Some? {
        AttachTracks(t, player, replaced.value.0, replaced.value.1, To(Place(player, zone), Some(t.heap[ref].id)), grid, p);
      }
    }
  }

  lemma AddedPlayers(s: State, t: State, ref: CardRef, zone: Place)
    requires zone in s.zones && zone.owner in s.players && Added(s, t, ref, zone)
    ensures t.players.Keys == s.players.Keys && ref in t.heap
  {
  }

  lemma LinksTrack(s: State, cmd: Command, p: int)
    requires GameOk(s) && Allowed(s, cmd) && AboutLinks(cmd) && HandTracks(s, p)
    ensures HandTracks(ExecLinks(s, cmd), p)
  {
    hide Inv; hide Seats; hide Tidy; hide PlanAttach; hide HandTracks; hide Attach; hide CreateToken; hide PlanOk;
    hide CreateArrow; hide DeleteArrow; hide TokenPlanOk; hide SameSetting;
    match cmd
    case DoFlip(player, c, faceDown) =>
      FlipKeeps(s, c, faceDown);
      SettingTracks(s, Flip(s, c, faceDown), p);
    case DoAttach(player, zone, id, goal, grid) => AttachTracks(s, player, zone, id, goal, grid, p);
    case DoToken(_, _, _, _, _, _, _, _, _) => TokenTracks(s, cmd, p);
    case DoArrow(player, from, id, end) => ArrowTracks(s, player, from, id, end, p);
    case DoDeleteArrow(player, arrow) => DeleteArrowTracks(s, player, arrow, p);
  }

  lemma ArrowTracks(s: State, player: int, from: Place, id: int, end: EndRequest, p: int)
    requires GameOk(s) && player in s.players && HandTracks(s, p)
    ensures HandTracks(CreateArrow(s, player, from, id, end).0, p)
  {
    hide Inv; hide Seats; hide Tidy; hide CreateArrow;
    var r := CreateArrow(s, player, from, id, end);
    if r.1 == RespOk {
      var i, a :| i !in s.players[player].arrows && r.0 == AddArrow(s, player, i, a);
      KeptTracks(s, r.0, p);
    }
  }

  lemma DeleteArrowTracks(s: State, player: int, arrow: int, p: int)
    requires GameOk(s) && player in s.players && HandTracks(s, p)
    ensures HandTracks(DeleteArrow(s, player, arrow).0, p)
  {
    hide Inv; hide Seats; hide Tidy;
    KeptTracks(s, DeleteArrow(s, player, arrow).0, p);
  }

  lemma ClearedTracks(s: State, t: State, player: int, p: int)
    requires Cleared(s, t, player) && HandTracks(s, p)
    ensures HandTracks(t, p)
  {
    if p in t.players && p != player {
      forall c | c in s.heap && s.heap[c].zone == Some(Place(p, Hand))
        ensures c in t.heap && t.heap[c].zone == s.heap[c].zone && t.heap[c].id == s.heap[c].id
      {
        assert !OwnedBy(s, c, player);
        assert SameSpot(s.heap[c], t.heap[c]);
      }
      KeptTracks(s, t, p);
    }
  }

  lemma LeavingTracks(s: State, cmd: Command, p: int)
    requires GameOk(s) && Allowed(s, cmd) && AboutSeats(cmd) && !AboutEntering(cmd) && HandTracks(s, p)
    ensures HandTracks(ExecLeaving(s, cmd), p)
  {
    hide Inv; hide Seats; hide Tidy; hide Cleared; hide ClearPlayer; hide TakeLeave;
    match cmd
    case DoPhase => KeptTracks(s, ClearArrows(s), p);
    case DoConcede(player, grid) =>
      AllZonesThere(s, player);
      var t := ClearPlayer(s, player, grid);
      ClearedTracks(s, t, player, p);
      ClearedPlayers(s, t, player);
      KeptTracks(t, SetConceded(t, player, true), p);
    case DoLeave(player, grid) =>
      var t := TakeLeave(s, player, grid);
      ClearedTracks(s, t, player, p);
      KeptTracks(t, DropPlayer(t, player), p);
    case DoStop =>
  }

  // ------------------------------------------------------------------ entering

  lemma FilledTracks(s: State, t: State, player: int, p: int)
    requires Inv(s, NoCard) && Inv(t, NoCard) && Filling(s, t, player) && HandTracks(s, p) && p != player
    ensures HandTracks(t, p)
  {
    hide Ids; hide Forest; hide Arrows;
    forall c | c in s.heap && s.heap[c].zone == Some(Place(p, Hand))
      ensures c in t.heap && t.heap[c].zone == s.heap[c].zone && t.heap[c].id == s.heap[c].id
    {
      assert c in s.zones[Place(p, Hand)] && t.zones[Place(p, Hand)] == s.zones[Place(p, Hand)];
    }
    if p in t.players {
      assert t.players[p].(nextCardId := s.players[p].nextCardId) == s.players[p];
    }
    KeptTracks(s, t, p);
  }

  lemma UnconcedeTracks(s: State, player: int, deck: DeckPlan, p: int)
    requires GameOk(s) && player in s.players && s.players[player].conceded && !s.players[player].spectator && s.started
    requires DeckFits(SetConceded(s, player, false), player, deck) && HandTracks(s, p)
    ensures HandTracks(Unconcede(s, player, deck), p)
  {
    hide Inv; hide Tidy; hide SetUp; hide Filling; hide Unshuffled; hide PlanFits; hide HandTracks; hide OpenZones;
    var s1 := SetConceded(s, player, false);
    var o := OpenZones(s1, player);
    OpenZonesKeepsInv(s1, player);
    OpenZonesRest(s1, player);
    var t := SetUp(s1, player, deck);
    if p == player {
      assert !Active(s, player);
      EmptyListStays(s, o, t, player);
    } else {
      SameHeapTracks(s, o, p);
      FilledTracks(o, t, player, p);
    }
  }

  lemma SameHeapTracks(s: State, t: State, p: int)
    requires t.heap == s.heap && t.players.Keys == s.players.Keys && HandTracks(s, p)
    requires p in s.players ==> t.players[p].lastDraw == s.players[p].lastDraw
    ensures HandTracks(t, p)
  {
    KeptTracks(s, t, p);
  }

  lemma EmptyListStays(s: State, o: State, t: State, p: int)
    requires p in s.players && s.players[p].lastDraw == [] && p in o.players && o.players[p].lastDraw == []
    requires Filling(o, t, p)
    ensures HandTracks(t, p)
  {
    assert t.players[p].(nextCardId := o.players[p].nextCardId) == o.players[p];
  }

  lemma StartTracks(s: State, seats: seq<(int, DeckPlan)>, p: int)
    requires GameOk(s) && !s.started && AllFit(s, seats)
    requires Owners(seats) == set q | q in s.players && !s.players[q].spectator
    ensures HandTracks(StartGame(s, seats), p)
  {
    hide Inv; hide Tidy; hide AllFit; hide Owners; hide SetUpAll;
    var t := SetUpAll(s, seats);
    if p in t.players {
      assert !Active(s, p) && s.players[p].lastDraw == [];
      assert t.players[p].(nextCardId := s.players[p].nextCardId) == s.players[p];
    }
  }

  lemma EnteringTracks(s: State, cmd: Command, p: int)
    requires GameOk(s) && Allowed(s, cmd) && AboutEntering(cmd) && HandTracks(s, p)
    ensures HandTracks(ExecEntering(s, cmd), p)
  {
    hide Inv; hide Seats; hide Tidy; hide AllFit; hide DeckFits; hide Owners; hide Unconcede; hide StartGame;
    match cmd
    case DoUnconcede(player, deck) => UnconcedeTracks(s, player, deck, p);
    case DoJoin(player, spectator, judge) => KeptTracks(s, Join(s, player, spectator, judge), p);
    case DoStart(seats) => StartTracks(s, seats, p);
  }

  // ------------------------------------------------------------------ runs

  /** p makes no crypt draw, and only p takes cards out of p's hand, into something that is no hand. */
  predicate Tame(cmd: Command, p: int)
  {
    && (cmd.DoDrawCrypt? ==> cmd.player != p)
    && (cmd.DoMove? ==> OwnHand(cmd.player, cmd.start, cmd.target, p))
  }

  lemma MovesTrack(s: State, cmd: Command, p: int)
    requires GameOk(s) && Allowed(s, cmd) && !AboutSeats(cmd) && !AboutLinks(cmd)
    requires Tame(cmd, p) && HandTracks(s, p)
    ensures HandTracks(ExecMoves(s, cmd), p)
  {
    hide Inv; hide Seats; hide Tidy; hide MoveCards; hide HandUnderDeck; hide HandTracks;
    hide DrawCards; hide DrawCryptCards; hide UndoDraw; hide Mulligan; hide Reorder;
    match cmd
    case DoDraw(player, n) => DrawTracks(s, player, n, p);
    case DoDrawCrypt(player, n) => CryptTracksOthers(s, player, n, p);
    case DoUndo(player, grid) => UndoTracks(s, player, grid, p);
    case DoMulligan(player, n, order, grid) => MulliganTracks(s, player, n, order, grid, p);
    case DoShuffle(player, order) =>
      NotRefused(s, player);
      ReorderTracks(s, Place(player, Deck), order, p);
    case DoMove(player, start, target, reqs, x, y, _, grid) =>
      MoveTracks(s, player, start, target, reqs, x, y, true, grid, p);
  }

  lemma ExecTracks(s: State, cmd: Command, p: int)
    requires GameOk(s) && Allowed(s, cmd) && Tame(cmd, p) && HandTracks(s, p)
    ensures HandTracks(Exec(s, cmd), p)
  {
    hide GameOk; hide Allowed; hide ExecMoves; hide ExecLinks; hide ExecEntering; hide ExecLeaving;
    if AboutSeats(cmd) {
      if AboutEntering(cmd) {
        EnteringTracks(s, cmd, p);
      } else {
        LeavingTracks(s, cmd, p);
      }
    } else if AboutLinks(cmd) {
      LinksTrack(s, cmd, p);
    } else {
      MovesTrack(s, cmd, p);
    }
  }

  ghost predicate AllTame(cmds: seq<Command>, p: int)
  {
    forall i :: 0 <= i < |cmds| ==> Tame(cmds[i], p)
  }

  /**
   Over every run in which p draws no crypt cards and nobody else empties p's hand, the undo list
   tracks the hand, however often cards are drawn, moved away and drawn again.
   */
  lemma {:induction false} UndoListTracksHand(s: State, cmds: seq<Command>, p: int)
    requires GameOk(s) && AllowedRun(s, cmds) && AllTame(cmds, p) && HandTracks(s, p)
    ensures HandTracks(Run(s, cmds), p)
    decreases |cmds|
  {
    hide GameOk; hide Allowed; hide Exec; hide HandTracks; hide Tame;
    if cmds != [] {
      assert Tame(cmds[0], p);
      ExecTracks(s, cmds[0], p);
      forall i | 0 <= i < |cmds[1..]|
        ensures Tame(cmds[1..][i], p)
      {
        assert cmds[1..][i] == cmds[i + 1];
      }
      UndoListTracksHand(Exec(s, cmds[0]), cmds[1..], p);
    }
  }

  lemma NewGameTracks(p: int)
    ensures HandTracks(NEW_GAME, p)
  {
  }

  /** So in every game without such commands the undo list tracks the hand from the start. */
  lemma UndoListTracksHandInGames(cmds: seq<Command>, p: int)
    requires (NewGameOk(); AllowedRun(NEW_GAME, cmds)) && AllTame(cmds, p)
    ensures GameOk(NEW_GAME) && HandTracks(Run(NEW_GAME, cmds), p)
  {
    hide GameOk; hide HandTracks; hide AllTame; hide AllowedRun; hide Run;
    NewGameOk();
    NewGameTracks(p);
    UndoListTracksHand(NEW_GAME, cmds, p);
  }
}

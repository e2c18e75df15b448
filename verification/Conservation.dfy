/** Which cards exist after a command, and after a run. */
module Conservation {
  import opened Wrappers
  import opened Cards
  import opened Shuffling
  import opened GameState
  import opened Movement
  import opened Commands
  import opened Attachments
  import opened Tokens
  import opened Lifecycle
  import opened Setup
  import opened DeckSetup
  import opened GameRuns

  /** Commands that neither set up nor clear anybody's zones nor create a token. */
  predicate Ordinary(cmd: Command)
  {
    !(cmd.DoToken? || cmd.DoConcede? || cmd.DoUnconcede? || cmd.DoLeave? || cmd.DoStart? || cmd.DoStop?)
  }

  /** No card is new, all keep name and kind, and only tokens may have gone. */
  ghost predicate KeptButTokens(s: State, t: State)
  {
    && (forall c :: c in t.heap ==>
          && c in s.heap && t.heap[c].name == s.heap[c].name
          && t.heap[c].destroyOnZoneChange == s.heap[c].destroyOnZoneChange)
    && (forall c :: c in s.heap && c !in t.heap ==> s.heap[c].destroyOnZoneChange)
  }

  lemma KeptThen(s: State, t: State, u: State)
    requires KeptButTokens(s, t) && KeptButTokens(t, u)
    ensures KeptButTokens(s, u)
  {
  }

  lemma PopulationKept(s: State, t: State)
    requires SamePopulation(s, t)
    ensures KeptButTokens(s, t)
  {
  }

  lemma ConservedKept(s: State, t: State, moved: set<CardRef>, start: Place, target: Place)
    requires Conserved(s, t, moved, start, target)
    ensures KeptButTokens(s, t)
  {
    forall c | c in s.heap && c !in moved
      ensures c in t.heap && Stays(s.heap[c], t.heap[c])
    {
    }
  }

  lemma MoveKept(
    s: State, player: int, start: Place, target: Place, reqs: seq<MoveRequest>, x: int, y: int,
    fixFreeSpaces: bool, undoing: bool, grid: Grid)
    requires GameOk(s) && Active(s, player) && start in s.zones && target in s.zones
    ensures KeptButTokens(s, MoveBetween(s, player, start, target, reqs, x, y, fixFreeSpaces, undoing, grid).0)
  {
    hide Inv; hide Seats; hide Tidy; hide MoveBetween; hide Conserved;
    var r := MoveBetween(s, player, start, target, reqs, x, y, fixFreeSpaces, undoing, grid);
    if r.1 == RespOk {
      var moved :| Conserved(s, r.0, moved, start, target);
      ConservedKept(s, r.0, moved, start, target);
    }
  }

  lemma UndoKept(s: State, p: int, grid: Grid)
    requires GameOk(s) && Active(s, p)
    ensures KeptButTokens(s, UndoDraw(s, p, grid).0)
  {
    hide Inv; hide Seats; hide Tidy; hide MoveBetween; hide KeptButTokens;
    var list := s.players[p].lastDraw;
    PopulationStays(s);
    PopulationKept(s, s);
    if list != [] {
      PopKeeps(s, p, list[..|list| - 1]);
      var u := WithLastDraw(s, p, list[..|list| - 1]);
      PopulationKept(s, u);
      MoveKept(u, p, Place(p, Hand), Place(p, Deck), [MoveRequest(list[|list| - 1], None)], 0, 0, false, true, grid);
      KeptThen(s, u, UndoDraw(s, p, grid).0);
    }
  }

  lemma MulliganKept(s: State, p: int, number: int, order: seq<CardRef>, grid: Grid)
    requires GameOk(s) && Active(s, p)
    requires multiset(order) == multiset(HandUnderDeck(s, p, grid).zones[Place(p, Deck)])
    ensures KeptButTokens(s, Mulligan(s, p, number, order, grid))
  {
    hide Inv; hide Seats; hide Tidy; hide MoveBetween; hide KeptButTokens; hide SamePopulation; hide HandUnderDeck;
    var s1 := HandUnderDeck(s, p, grid);
    HandKept(s, p, grid);
    ReorderKeeps(s1, Place(p, Deck), order);
    var s2 := Reorder(s1, Place(p, Deck), order);
    ReorderPopulation(s1, Place(p, Deck), order);
    PopulationThen(s1, s2, DrawCards(s2, p, number));
    PopulationKept(s1, DrawCards(s2, p, number));
    KeptThen(s, s1, DrawCards(s2, p, number));
  }

  lemma HandKept(s: State, p: int, grid: Grid)
    requires GameOk(s) && Active(s, p)
    ensures KeptButTokens(s, HandUnderDeck(s, p, grid))
  {
    hide Inv; hide Seats; hide Tidy; hide MoveBetween;
    NotRefused(s, p);
    ZonesKnown(s, Place(p, Hand), NoCard);
    if s.zones[Place(p, Hand)] != [] {
      MoveKept(s, p, Place(p, Hand), Place(p, Deck), WholeHand(s.heap, s.zones[Place(p, Hand)]), -1, 0, false, false, grid);
    }
  }

  lemma ReorderPopulation(s: State, zone: Place, order: seq<CardRef>)
    requires zone in s.zones
    ensures SamePopulation(s, Reorder(s, zone, order))
  {
  }

  lemma FlipKept(s: State, c: CardRef, faceDown: bool)
    requires c in s.heap
    ensures KeptButTokens(s, Flip(s, c, faceDown))
  {
  }

  /** Conservation for one command. */
  lemma OrdinaryKeeps(s: State, cmd: Command)
    requires GameOk(s) && Allowed(s, cmd) && Ordinary(cmd)
    ensures KeptButTokens(s, Exec(s, cmd))
  {
    hide Inv; hide Seats; hide Tidy; hide MoveBetween; hide KeptButTokens; hide SamePopulation;
    hide HandUnderDeck; hide PlanAttach; hide UndoDraw; hide Mulligan; hide DrawCards; hide DrawCryptCards; hide Attach;
    hide CreateArrow; hide DeleteArrow; hide PlanOk;
    PopulationStays(s);
    PopulationKept(s, s);
    match cmd
    case DoDraw(p, n) => PopulationKept(s, DrawCards(s, p, n));
    case DoDrawCrypt(p, n) => PopulationKept(s, DrawCryptCards(s, p, n));
    case DoUndo(p, grid) => UndoKept(s, p, grid);
    case DoMulligan(p, n, order, grid) => MulliganKept(s, p, n, order, grid);
    case DoShuffle(p, order) =>
      NotRefused(s, p);
      ReorderPopulation(s, Place(p, Deck), order);
      PopulationKept(s, Reorder(s, Place(p, Deck), order));
    case DoMove(p, start, target, reqs, x, y, _, grid) => MoveKept(s, p, start, target, reqs, x, y, true, false, grid);
    case DoFlip(p, c, faceDown) => FlipKept(s, c, faceDown);
    case DoAttach(p, zone, id, goal, grid) => PopulationKept(s, Attach(s, p, zone, id, goal, grid).0);
    case DoArrow(p, from, id, end) => SameHeapKept(s, CreateArrow(s, p, from, id, end).0);
    case DoDeleteArrow(p, arrow) => SameHeapKept(s, DeleteArrow(s, p, arrow).0);
    case DoPhase => SameHeapKept(s, ClearArrows(s));
    case DoJoin(p, spectator, judge) => SameHeapKept(s, Join(s, p, spectator, judge));
  }

  lemma SameHeapKept(s: State, t: State)
    requires t.heap == s.heap
    ensures KeptButTokens(s, t)
  {
  }

  // ------------------------------------------------------------------ all commands

  /** What never changes about a card: its name, and whether it is a token. */
  datatype Kind = Kind(name: string, token: bool)

  function KindOf(c: Card): Kind
  {
    Kind(c.name, c.destroyOnZoneChange)
  }

  /** The cards a deck brings into the game. */
  function DeckCards(deck: DeckPlan): map<CardRef, Kind>
  {
    map c | c in Refs(deck.base, |deck.entries|) :: Kind(deck.entries[c - deck.base].name, false)
  }

  function AllDecks(seats: seq<(int, DeckPlan)>): map<CardRef, Kind>
  {
    if seats == [] then map[] else DeckCards(seats[0].1) + AllDecks(seats[1..])
  }

  /** The cards that come with a command. */
  function MadeBy(s: State, cmd: Command): map<CardRef, Kind>
  {
    if cmd.DoUnconcede? then DeckCards(cmd.deck)
    else if cmd.DoStart? then AllDecks(cmd.seats)
    else if cmd.DoToken? && cmd.player in s.players && Refusal(s, cmd.player).None? && Place(cmd.player, cmd.zone) in s.zones
    then map[cmd.ref := Kind(cmd.name, cmd.token)]
    else map[]
  }

  /** Whose cards go with a command: a player's, everybody's, nobody's; any other command can remove tokens only. */
  predicate MayGo(s: State, cmd: Command, c: CardRef)
    requires c in s.heap
  {
    if cmd.DoConcede? || cmd.DoLeave? then OwnedBy(s, c, cmd.player)
    else if cmd.DoUnconcede? || cmd.DoStart? || cmd.DoToken? then false
    else cmd.DoStop? || s.heap[c].destroyOnZoneChange
  }

  /** The books balance: what is new is what the command made, what is gone may go, what is left keeps its kind. */
  ghost predicate Accounted(s: State, t: State, cmd: Command)
  {
    var made := MadeBy(s, cmd);
    && made.Keys !! s.heap.Keys
    && (forall c :: c in made ==> c in t.heap && KindOf(t.heap[c]) == made[c])
    && (forall c :: c in t.heap && c !in made ==> c in s.heap && KindOf(t.heap[c]) == KindOf(s.heap[c]))
    && (forall c :: c in s.heap && c !in t.heap ==> MayGo(s, cmd, c))
    && (forall c :: c in s.heap && MayGo(s, cmd, c) && !Ordinary(cmd) ==> c !in t.heap)
  }

  lemma KeptAccounts(s: State, t: State, cmd: Command)
    requires KeptButTokens(s, t) && Ordinary(cmd)
    ensures Accounted(s, t, cmd)
  {
    hide MadeBy; hide MayGo; hide OwnedBy; hide AllDecks; hide DeckCards;
    OrdinaryMakesNothing(s, cmd);
  }

  lemma OrdinaryMakesNothing(s: State, cmd: Command)
    requires Ordinary(cmd)
    ensures MadeBy(s, cmd) == map[]
    ensures forall c :: c in s.heap ==> MayGo(s, cmd, c) == s.heap[c].destroyOnZoneChange
  {
    hide OwnedBy; hide AllDecks; hide DeckCards; hide Refusal;
  }

  lemma DepartedAccounts(s: State, t: State, cmd: Command)
    requires (cmd.DoConcede? || cmd.DoLeave?) && Departed(s, t, cmd.player)
    ensures Accounted(s, t, cmd)
  {
    forall c | c in t.heap
      ensures c in s.heap && KindOf(t.heap[c]) == KindOf(s.heap[c])
    {
      assert SameSpot(s.heap[c], t.heap[c]);
    }
  }

  /** Setting up brings exactly the deck's cards, each of its kind; all others keep theirs. */
  ghost predicate Brought(s: State, t: State, made: map<CardRef, Kind>)
  {
    && made.Keys !! s.heap.Keys && t.heap.Keys == s.heap.Keys + made.Keys
    && (forall c :: c in made ==> c in t.heap && KindOf(t.heap[c]) == made[c])
    && (forall c :: c in s.heap ==> c in t.heap && KindOf(t.heap[c]) == KindOf(s.heap[c]))
  }

  lemma DealtBrings(s: State, o: State, t: State, p: int, deck: DeckPlan)
    requires o.heap == s.heap && FreshFrom(s, deck.base) && Filling(o, t, p)
    requires t.heap.Keys == s.heap.Keys + Refs(deck.base, |deck.entries|) && DealtTo(t, p, deck.entries, deck.base)
    ensures Brought(s, t, DeckCards(deck))
  {
    hide Filling; hide DealtTo; hide Brought; hide FreshFrom; hide NamedAs; hide DeckCards; hide Refs;
    AllNamed(t, p, deck.entries, deck.base);
    BringsDeck(s, o, t, p, deck);
  }

  lemma FitsFresh(s: State, p: int, deck: DeckPlan)
    requires p in s.players && PlanFits(s, deck)
    ensures FreshFrom(s, deck.base) && OpenZones(s, p).heap == s.heap
  {
  }

  lemma AllNamed(t: State, p: int, entries: seq<Entry>, base: CardRef)
    requires DealtTo(t, p, entries, base)
    ensures forall i :: 0 <= i < |entries| ==> NamedAs(t.heap, base + i, i, entries[i].name)
  {
  }

  lemma BringsDeck(s: State, o: State, t: State, p: int, deck: DeckPlan)
    requires o.heap == s.heap && Filling(o, t, p) && FreshFrom(s, deck.base)
    requires t.heap.Keys == s.heap.Keys + Refs(deck.base, |deck.entries|)
    requires forall i :: 0 <= i < |deck.entries| ==> NamedAs(t.heap, deck.base + i, i, deck.entries[i].name)
    ensures Brought(s, t, DeckCards(deck))
  {
    FilledKinds(o, t, p);
    NamedKinds(t.heap, deck);
    RefsAreFresh(s, deck);
    hide Filling; hide FreshFrom; hide DeckCards; hide NamedAs; hide Refs;
  }

  lemma FilledKinds(o: State, t: State, p: int)
    requires Filling(o, t, p)
    ensures forall c :: c in o.heap ==> c in t.heap && KindOf(t.heap[c]) == KindOf(o.heap[c])
  {
  }

  lemma NamedKinds(heap: Heap, deck: DeckPlan)
    requires forall i :: 0 <= i < |deck.entries| ==> NamedAs(heap, deck.base + i, i, deck.entries[i].name)
    ensures forall c :: c in DeckCards(deck) ==> c in heap && KindOf(heap[c]) == DeckCards(deck)[c]
  {
    hide Refs;
    forall c | c in DeckCards(deck)
      ensures c in heap && KindOf(heap[c]) == DeckCards(deck)[c]
    {
      assert NamedAs(heap, deck.base + (c - deck.base), c - deck.base, deck.entries[c - deck.base].name);
    }
  }

  lemma RefsAreFresh(s: State, deck: DeckPlan)
    requires FreshFrom(s, deck.base)
    ensures DeckCards(deck).Keys == Refs(deck.base, |deck.entries|) && DeckCards(deck).Keys !! s.heap.Keys
  {
    hide Refs;
  }

  lemma BroughtThen(s: State, t: State, u: State, a: map<CardRef, Kind>, b: map<CardRef, Kind>)
    requires Brought(s, t, a) && Brought(t, u, b)
    ensures Brought(s, u, a + b)
  {
  }

  lemma {:induction false} SetUpAllBrings(s: State, seats: seq<(int, DeckPlan)>)
    requires Inv(s, NoCard) && AllFit(s, seats)
    ensures Brought(s, SetUpAll(s, seats), AllDecks(seats))
    decreases |seats|
  {
    hide Inv; hide SetUp; hide AllFit; hide Filling; hide SeatsFilled; hide Owners; hide PlanFits; hide Unshuffled;
    hide Brought; hide DeckCards; hide NoZones;
    if seats == [] {
      NothingBrought(s);
    } else {
      FirstFits(s, seats);
      var s1 := SetUp(s, seats[0].0, seats[0].1);
      SetUpDeals(s, seats[0].0, seats[0].1);
      FitsFresh(s, seats[0].0, seats[0].1);
      DealtBrings(s, OpenZones(s, seats[0].0), s1, seats[0].0, seats[0].1);
      SetUpAllBrings(s1, seats[1..]);
      BroughtThen(s, s1, SetUpAll(s1, seats[1..]), DeckCards(seats[0].1), AllDecks(seats[1..]));
    }
  }

  lemma NothingBrought(s: State)
    ensures Brought(s, s, map[])
  {
  }

  lemma BroughtAccounts(s: State, t: State, cmd: Command, heap: Heap)
    requires (cmd.DoUnconcede? || cmd.DoStart? || cmd.DoToken?) && heap == s.heap && Brought(s, t, MadeBy(s, cmd))
    ensures Accounted(s, t, cmd)
  {
    hide MadeBy;
  }

  lemma SameHeapBrings(s: State, s': State, t: State, t': State, made: map<CardRef, Kind>)
    requires Brought(s, t, made) && s'.heap == s.heap && t'.heap == t.heap
    ensures Brought(s', t', made)
  {
  }

  lemma UnconcedeBrings(s: State, p: int, deck: DeckPlan)
    requires GameOk(s) && p in s.players && s.players[p].conceded && !s.players[p].spectator && s.started
    requires DeckFits(SetConceded(s, p, false), p, deck)
    ensures Brought(s, Unconcede(s, p, deck), DeckCards(deck))
  {
    hide Inv; hide Seats; hide Tidy; hide SetUp; hide Unshuffled; hide PlanFits; hide Filling; hide DealtTo; hide Brought;
    hide NoZones; hide DeckCards; hide OpenZones;
    var a := SetConceded(s, p, false);
    SetUpDeals(a, p, deck);
    FitsFresh(a, p, deck);
    DealtBrings(a, OpenZones(a, p), SetUp(a, p, deck), p, deck);
    SameHeapBrings(a, s, SetUp(a, p, deck), Unconcede(s, p, deck), DeckCards(deck));
  }

  lemma StartBrings(s: State, seats: seq<(int, DeckPlan)>)
    requires GameOk(s) && !s.started && AllFit(s, seats)
    requires Owners(seats) == set p | p in s.players && !s.players[p].spectator
    ensures Brought(s, StartGame(s, seats), AllDecks(seats))
  {
    hide Inv; hide Seats; hide Tidy; hide AllFit; hide SeatsFilled; hide Owners; hide SetUpAll; hide AllDecks;
    SetUpAllBrings(s, seats);
  }

  lemma TokenBrings(s: State, cmd: Command)
    requires GameOk(s) && cmd.DoToken? && Allowed(s, cmd)
    ensures Brought(s, ExecLinks(s, cmd), MadeBy(s, cmd))
  {
    hide Inv; hide Seats; hide Tidy; hide PlanAttach; hide Attach; hide SamePopulation;
    var DoToken(p, zone, name, x, y, token, ref, replaced, grid) := cmd;
    if Refusal(s, p).None? && Place(p, zone) in s.zones {
      AddCardKeepsGame(s, ref, Place(p, zone), Positive(x), grid.column(ref), Positive(y), name, token);
      var t := PlaceToken(s, p, zone, name, x, y, token, ref, grid);
      PlacedBrings(s, t, ref, Kind(name, token));
      PopulationStays(t);
      PopulationBrought(s, t, ExecLinks(s, cmd), map[ref := Kind(name, token)]);
    }
  }

  lemma PlacedBrings(s: State, t: State, ref: CardRef, kind: Kind)
    requires ref !in s.heap && ref in t.heap && KindOf(t.heap[ref]) == kind && t.heap == s.heap[ref := t.heap[ref]]
    ensures Brought(s, t, map[ref := kind])
  {
  }

  lemma PopulationBrought(s: State, t: State, u: State, made: map<CardRef, Kind>)
    requires Brought(s, t, made) && SamePopulation(t, u)
    ensures Brought(s, u, made)
  {
  }

  /** What every command does to the population, exactly but for which tokens an ordinary one removes. */
  lemma EveryCommandAccounts(s: State, cmd: Command)
    requires GameOk(s) && Allowed(s, cmd)
    ensures Accounted(s, Exec(s, cmd), cmd)
  {
    hide Inv; hide Seats; hide Tidy; hide KeptButTokens; hide Accounted; hide Brought; hide Departed; hide GameOk;
    hide Concede; hide Leave; hide Unconcede; hide StartGame; hide ExecMoves; hide ExecLinks; hide MadeBy;
    if Ordinary(cmd) {
      OrdinaryKeeps(s, cmd);
      KeptAccounts(s, Exec(s, cmd), cmd);
    } else {
      match cmd
      case DoConcede(_, _) => DepartedAccounts(s, Exec(s, cmd), cmd);
      case DoLeave(_, _) => DepartedAccounts(s, Exec(s, cmd), cmd);
      case DoStop => StopAccounts(s, cmd);
      case DoUnconcede(p, deck) =>
        UnconcedeBrings(s, p, deck);
        MadeIs(s, cmd);
        BroughtAccounts(s, Exec(s, cmd), cmd, s.heap);
      case DoStart(seats) =>
        StartBrings(s, seats);
        MadeIs(s, cmd);
        BroughtAccounts(s, Exec(s, cmd), cmd, s.heap);
      case DoToken(_, _, _, _, _, _, _, _, _) =>
        TokenBrings(s, cmd);
        BroughtAccounts(s, Exec(s, cmd), cmd, s.heap);
    }
  }

  lemma MadeIs(s: State, cmd: Command)
    ensures cmd.DoUnconcede? ==> MadeBy(s, cmd) == DeckCards(cmd.deck)
    ensures cmd.DoStart? ==> MadeBy(s, cmd) == AllDecks(cmd.seats)
  {
  }

  lemma StopAccounts(s: State, cmd: Command)
    requires GameOk(s) && Allowed(s, cmd) && cmd.DoStop?
    ensures Accounted(s, Exec(s, cmd), cmd)
  {
    hide Inv; hide Seats; hide Tidy;
  }

  // ------------------------------------------------------------------ all runs

  /** The i-th command of the run makes the card, of this kind. */
  ghost predicate MadeAt(s: State, cmds: seq<Command>, i: nat, c: CardRef, kind: Kind)
    requires GameOk(s) && AllowedRun(s, cmds) && i < |cmds|
    decreases i
  {
    if i == 0 then c in MadeBy(s, cmds[0]) && MadeBy(s, cmds[0])[c] == kind
    else MadeAt(Exec(s, cmds[0]), cmds[1..], i - 1, c, kind)
  }

  /** The card may go with the i-th command of the run. */
  ghost predicate GoesAt(s: State, cmds: seq<Command>, i: nat, c: CardRef)
    requires GameOk(s) && AllowedRun(s, cmds) && i < |cmds|
    decreases i
  {
    if i == 0 then c in s.heap && MayGo(s, cmds[0], c)
    else GoesAt(Exec(s, cmds[0]), cmds[1..], i - 1, c)
  }

  /** The card was there before the run, or came with a command of it, and is of the kind it was then. */
  ghost predicate Explained(s: State, cmds: seq<Command>, c: CardRef, kind: Kind)
    requires GameOk(s) && AllowedRun(s, cmds)
  {
    (c in s.heap && KindOf(s.heap[c]) == kind) || exists i: nat :: i < |cmds| && MadeAt(s, cmds, i, c, kind)
  }

  lemma ExplainedBefore(s: State, cmds: seq<Command>, c: CardRef, kind: Kind)
    requires GameOk(s) && AllowedRun(s, cmds) && cmds != [] && Explained(Exec(s, cmds[0]), cmds[1..], c, kind)
    ensures Explained(s, cmds, c, kind)
  {
    hide GameOk; hide Allowed; hide Exec; hide MadeBy; hide MayGo;
    var s1 := Exec(s, cmds[0]);
    EveryCommandAccounts(s, cmds[0]);
    if c in s1.heap && KindOf(s1.heap[c]) == kind {
      if c in MadeBy(s, cmds[0]) {
        assert MadeAt(s, cmds, 0, c, kind);
      }
    } else {
      var i: nat :| i < |cmds[1..]| && MadeAt(s1, cmds[1..], i, c, kind);
      assert MadeAt(s, cmds, i + 1, c, kind);
    }
  }

  /** The card may go with some command of the run. */
  ghost predicate Dismissed(s: State, cmds: seq<Command>, c: CardRef)
    requires GameOk(s) && AllowedRun(s, cmds)
  {
    exists i: nat :: i < |cmds| && GoesAt(s, cmds, i, c)
  }

  lemma DismissedBefore(s: State, cmds: seq<Command>, c: CardRef)
    requires GameOk(s) && AllowedRun(s, cmds) && cmds != [] && c in s.heap
    requires c in Exec(s, cmds[0]).heap ==> Dismissed(Exec(s, cmds[0]), cmds[1..], c)
    ensures Dismissed(s, cmds, c)
  {
    hide GameOk; hide Allowed; hide Exec; hide MadeBy; hide MayGo;
    var s1 := Exec(s, cmds[0]);
    if c in s1.heap {
      var i: nat :| i < |cmds[1..]| && GoesAt(s1, cmds[1..], i, c);
      assert GoesAt(s, cmds, i + 1, c);
    } else {
      EveryCommandAccounts(s, cmds[0]);
      assert GoesAt(s, cmds, 0, c);
    }
  }

  /**
   Over every run of commands whatsoever: a card alive at the end was alive at the start or was made by
   a command of the run, and is of the kind it was then; a card alive at the start that is not alive
   at the end went with a command that may remove it.
   */
  lemma {:induction false} EveryRunAccounts(s: State, cmds: seq<Command>)
    requires GameOk(s) && AllowedRun(s, cmds)
    ensures var t := Run(s, cmds);
            forall c :: c in t.heap ==> Explained(s, cmds, c, KindOf(t.heap[c]))
    ensures forall c :: c in s.heap && c !in Run(s, cmds).heap ==> Dismissed(s, cmds, c)
    decreases |cmds|
  {
    hide GameOk; hide Allowed; hide Exec; hide MadeBy; hide MayGo;
    if cmds != [] {
      hide Explained; hide Dismissed;
      var s1, t := Exec(s, cmds[0]), Run(s, cmds);
      EveryCommandAccounts(s, cmds[0]);
      EveryRunAccounts(s1, cmds[1..]);
      assert t == Run(s1, cmds[1..]);
      forall c | c in t.heap
        ensures Explained(s, cmds, c, KindOf(t.heap[c]))
      {
        ExplainedBefore(s, cmds, c, KindOf(t.heap[c]));
      }
      forall c | c in s.heap && c !in t.heap
        ensures Dismissed(s, cmds, c)
      {
        DismissedBefore(s, cmds, c);
      }
    }
  }

  // ------------------------------------------------------------------ ordinary runs

  ghost predicate AllOrdinary(cmds: seq<Command>)
  {
    forall i :: 0 <= i < |cmds| ==> Ordinary(cmds[i])
  }

  /** Conservation over runs; without tokens the very same cards exist throughout. */
  lemma {:induction false} RunsConserveCards(s: State, cmds: seq<Command>)
    requires GameOk(s) && AllowedRun(s, cmds) && AllOrdinary(cmds)
    ensures KeptButTokens(s, Run(s, cmds))
    ensures (forall c :: c in s.heap ==> !s.heap[c].destroyOnZoneChange) ==> SamePopulation(s, Run(s, cmds))
    decreases |cmds|
  {
    hide Inv; hide Seats; hide Tidy; hide Allowed; hide Exec;
    if cmds != [] {
      OrdinaryKeeps(s, cmds[0]);
      RunsConserveCards(Exec(s, cmds[0]), cmds[1..]);
      KeptThen(s, Exec(s, cmds[0]), Run(s, cmds));
    }
  }
}

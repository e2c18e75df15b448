/** What each command about seats and turns answers and changes, told by the fields of the seats. */
module TurnRules {
  import opened TurnOrder
  import opened TurnGame

  /** Those who have not conceded and do not just watch. */
  function StillPlaying(v: Table): set<int>
  {
    set p | p in v.seats && !v.seats[p].spectator && !v.seats[p].conceded
  }

  function Players(v: Table): set<int>
  {
    set p | p in v.seats && !v.seats[p].spectator
  }

  lemma SameSets(v: Table)
    ensures StillPlaying(v) == Eligible(v) && Players(v) == Participants(v)
  {
    forall p
      ensures p in StillPlaying(v) <==> p in Eligible(v)
    {
      assert p in v.seats ==> (Playing(v.seats[p]) <==> !v.seats[p].spectator && !v.seats[p].conceded);
    }
  }

  /** Without somebody who left or conceded, the others still play. */
  lemma OthersPlay(v: Table, t: Table, p: int)
    requires forall q :: q in t.seats && q != p ==> q in v.seats && t.seats[q] == v.seats[q]
    requires forall q :: q in v.seats && q != p ==> q in t.seats
    requires p in t.seats ==> t.seats[p].conceded || t.seats[p].spectator
    ensures Eligible(t) == StillPlaying(v) - {p}
  {
    SameSets(v);
    forall q
      ensures q in Eligible(t) <==> q in Eligible(v) - {p}
    {
    }
  }

  /** Just the one seat differs. */
  predicate OnlySeat(v: Table, t: Table, p: int, seat: Seat)
  {
    p in v.seats && t == v.(seats := v.seats[p := seat])
  }

  // ------------------------------------------------------------------ before the game

  /** Only players choose decks; a deck chosen stays chosen. */
  lemma DeckAnswer(v: Table, p: int)
    requires p in v.seats
    ensures var r := DeckChosen(v, p);
            if v.seats[p].spectator then r == (v, RespFunctionNotAllowed)
            else r.1 == RespOk && OnlySeat(v, r.0, p, v.seats[p].(hasDeck := true))
  {
  }

  /** Readiness needs a deck, is settled before the start, and has to change to count. */
  lemma ReadyAnswer(v: Table, p: int, ready: bool)
    requires p in v.seats
    ensures var r := ReadySet(v, p, ready);
            if v.seats[p].spectator then r == (v, RespFunctionNotAllowed)
            else if !v.seats[p].hasDeck || v.started || ready == v.seats[p].ready then r == (v, RespContextError)
            else r.1 == RespOk && OnlySeat(v, r.0, p, v.seats[p].(ready := ready))
  {
  }

  /**
   A game starts exactly when as many players as wanted are seated and every one of them is ready; then
   nobody has conceded or is ready any more, the first turn is that of the lowest id - reversed, of the
   highest -, in phase 0, and seats, host and order are as before.
   */
  lemma StartsIff(v: Table, settings: Settings)
    requires settings.maxPlayers >= 1 && forall p :: p in v.seats ==> p >= 0
    ensures var t := StartedIfReady(v, settings);
            if |Players(v)| >= settings.maxPlayers && forall p :: p in v.seats && !v.seats[p].spectator ==> v.seats[p].ready then
              && t.started && t.phase == 0 && t.active in Players(v)
              && (forall p :: p in Players(v) ==> if v.reversed then p <= t.active else t.active <= p)
              && t.seats.Keys == v.seats.Keys
              && (forall p :: p in v.seats ==> t.seats[p] == v.seats[p].(conceded := false, ready := false))
              && t.host == v.host && t.nextId == v.nextId && t.closed == v.closed && t.reversed == v.reversed
            else t == v
  {
    SameSets(v);
    AllBegin(v);
    if AllReady(v, settings) {
      var b := Begun(v);
      var e := Eligible(b);
      assert e == Players(v) && TurnFrom(b) == -1;
      assert Above(e, -1) == e && Below(e, -1) == {};
      hide Eligible; hide Participants; hide Players;
    }
  }

  /** When a game goes on after somebody has gone, and who has the turn then. */
  ghost predicate GoesOn(v: Table, t: Table, p: int)
  {
    && t.host == v.host && t.closed == v.closed && t.nextId == v.nextId && t.reversed == v.reversed
    && (t.started <==> v.started && |Eligible(v)| >= 2)
    && (|Eligible(v)| >= 2 ==> t.seats == v.seats)
    && (|Eligible(v)| < 2 ==>
          t.seats.Keys == v.seats.Keys && forall q :: q in v.seats ==> t.seats[q] == v.seats[q].(conceded := false))
    && (!(t.started && v.active == p) ==> t.active == v.active && t.phase == v.phase)
    && (t.started && v.active == p ==>
          Eligible(v) != {} && t.phase == 0 && t.active == NextActive(Eligible(v), TurnFrom(v), v.reversed))
  }

  lemma GoingOn(v: Table, p: int)
    ensures GoesOn(v, CarriedOn(v, p), p)
  {
    SomeEligible(v);
    hide Eligible; hide NextActive; hide TurnFrom;
  }

  // ------------------------------------------------------------------ leaving

  /** The leaver's seat is gone; those left are who they were, and concessions are forgotten only when the game stops. */
  lemma LeavingTakesASeat(v: Table, p: int)
    requires p in v.seats
    ensures var t := Left(v, p);
            && t.seats.Keys == v.seats.Keys - {p}
            && (forall q :: q in t.seats ==> t.seats[q] == v.seats[q] || (!t.started && t.seats[q] == v.seats[q].(conceded := false)))
            && t.nextId == v.nextId && t.reversed == v.reversed
  {
    var gone := v.(seats := v.seats - {p});
    var hosted := if v.host == p && Participants(gone) != {} then gone.(host := Least(Participants(gone))) else gone;
    GoingOn(hosted, p);
    hide Eligible; hide Participants; hide CarriedOn; hide NextActive;
  }

  /**
   The game closes exactly when its host leaves and only spectators remain; otherwise a host who leaves is
   followed by the player with the lowest id, and any other departure leaves the host alone.
   */
  lemma LeavingHandsOver(v: Table, p: int)
    requires p in v.seats && !v.closed
    ensures var t, others := Left(v, p), set q | q in v.seats && q != p && !v.seats[q].spectator;
            && (t.closed <==> v.host == p && others == {})
            && (v.host != p ==> t.host == v.host)
            && (v.host == p && others != {} ==> t.host in others && forall q :: q in others ==> t.host <= q)
  {
    var gone := v.(seats := v.seats - {p});
    assert Participants(gone) == set q | q in v.seats && q != p && !v.seats[q].spectator;
    hide Eligible; hide Participants;
  }

  /**
   A running game goes on exactly when a spectator left, or two are left to play it, or it closes at once; else it
   forgets all concessions.  The turn moves, to phase 0, exactly when the game goes on without the active player.
   */
  lemma LeavingStopsIff(v: Table, p: int)
    requires p in v.seats && !v.closed
    ensures var t := Left(v, p);
            && (t.started <==> v.started && (t.closed || v.seats[p].spectator || |StillPlaying(v) - {p}| >= 2))
            && (!t.closed && !t.started && v.started ==> forall q :: q in t.seats ==> !t.seats[q].conceded)
            && (t.started && !t.closed && v.active == p && !v.seats[p].spectator ==> t.phase == 0 && t.active in StillPlaying(v) - {p})
            && (!(t.started && !t.closed && v.active == p && !v.seats[p].spectator) ==> t.active == v.active && t.phase == v.phase)
  {
    var gone := v.(seats := v.seats - {p});
    OthersPlay(v, gone, p);
    var hosted := if v.host == p && Participants(gone) != {} then gone.(host := Least(Participants(gone))) else gone;
    OthersPlay(v, hosted, p);
    GoingOn(hosted, p);
    hide Eligible; hide Participants; hide StillPlaying; hide CarriedOn;
  }

  /** The host and moderators may put somebody out, who has to be there. */
  lemma KickAnswer(v: Table, kicker: int, isModerator: bool, p: int)
    requires kicker in v.seats
    ensures var r := Kicked(v, kicker, isModerator, p);
            if kicker != v.host && !isModerator then r == (v, RespFunctionNotAllowed)
            else if p !in v.seats then r == (v, RespNameNotFound)
            else r == (Left(v, p), RespOk)
  {
    hide Left;
  }

  /** A lost connection costs players the seat only if they are not registered. */
  lemma DisconnectKeepsSeat(v: Table, p: int, isRegistered: bool)
    requires p in v.seats
    ensures Disconnected(v, p, isRegistered) == if isRegistered && !v.seats[p].spectator then v else Left(v, p)
  {
    hide Left;
  }

  // ------------------------------------------------------------------ conceding

  /**
   A concession counts for players of a running game, once; the game goes on exactly when two others still
   play, with the turn passed on if it was p's, and else forgets all concessions.
   */
  lemma ConcedeAnswer(v: Table, p: int)
    requires p in v.seats
    ensures var r := Conceded(v, p);
            if v.seats[p].spectator then r == (v, RespFunctionNotAllowed)
            else if !v.started then r == (v, RespGameNotStarted)
            else if v.seats[p].conceded then r == (v, RespContextError)
            else r.1 == RespOk && Conceding(v, r.0, p)
  {
    hide Conceding; hide CarriedOn;
    if v.started && !v.seats[p].spectator && !v.seats[p].conceded {
      ConcessionCounts(v, p);
    }
  }

  lemma ConcessionCounts(v: Table, p: int)
    requires p in v.seats && v.started
    ensures Conceding(v, CarriedOn(v.(seats := v.seats[p := v.seats[p].(conceded := true)]), p), p)
  {
    var t := v.(seats := v.seats[p := v.seats[p].(conceded := true)]);
    OthersPlay(v, t, p);
    GoingOn(t, p);
    hide CarriedOn;
    ConcessionMeans(v, CarriedOn(t, p), p);
  }

  lemma ConcessionMeans(v: Table, t: Table, p: int)
    requires p in v.seats && v.started
    requires var u := v.(seats := v.seats[p := v.seats[p].(conceded := true)]);
             GoesOn(u, t, p) && Eligible(u) == StillPlaying(v) - {p}
    ensures Conceding(v, t, p)
  {
    hide Eligible; hide StillPlaying; hide NextActive;
    var u := v.(seats := v.seats[p := v.seats[p].(conceded := true)]);
    assert TurnFrom(u) == if v.active in v.seats then v.active else -1;
    assert forall q :: q in v.seats ==> u.seats[q] == v.seats[q].(conceded := q == p || v.seats[q].conceded);
  }

  ghost predicate Conceding(v: Table, t: Table, p: int)
    requires p in v.seats
  {
    var others := StillPlaying(v) - {p};
    && t.seats.Keys == v.seats.Keys && t.host == v.host && t.closed == v.closed && t.reversed == v.reversed
    && (t.started <==> |others| >= 2)
    && (forall q :: q in v.seats ==> t.seats[q] == v.seats[q].(conceded := t.started && (q == p || v.seats[q].conceded)))
    && (t.started && v.active == p ==> others != {} && t.phase == 0 && t.active == NextActive(others, p, v.reversed))
    && (!(t.started && v.active == p) ==> t.active == v.active && t.phase == v.phase)
  }

  /** It can be taken back while the game runs, by somebody who has conceded. */
  lemma UnconcedeAnswer(v: Table, p: int)
    requires p in v.seats
    ensures var r := Unconceded(v, p);
            if v.seats[p].spectator then r == (v, RespFunctionNotAllowed)
            else if !v.started then r == (v, RespGameNotStarted)
            else if !v.seats[p].conceded then r == (v, RespContextError)
            else r.1 == RespOk && OnlySeat(v, r.0, p, v.seats[p].(conceded := false))
  {
  }

  // ------------------------------------------------------------------ turns

  /** Why p may not touch turn or phase of a running game: watching or having conceded; judges may. */
  function NoTurnFor(v: Table, p: int): Response
    requires p in v.seats
  {
    if v.seats[p].judge then RespOk
    else if v.seats[p].spectator then RespFunctionNotAllowed
    else if v.seats[p].conceded then RespContextError
    else RespOk
  }

  /** Anybody playing, and any judge, may end the turn, which goes to the next in order and to phase 0. */
  lemma EndTurnAnswer(v: Table, settings: Settings, p: int)
    requires p in v.seats && Sound(v, settings) && !v.closed
    ensures v.started ==> StillPlaying(v) != {}
    ensures var r := TurnEnded(v, p);
            if !v.started then r == (v, RespGameNotStarted)
            else if NoTurnFor(v, p) != RespOk then r == (v, NoTurnFor(v, p))
            else r == (v.(active := NextActive(StillPlaying(v), v.active, v.reversed), phase := 0), RespOk)
  {
    SameSets(v);
    assert v.started ==> v.active in Eligible(v);
    hide Eligible;
  }

  /** The phase is set by the active player or a judge. */
  lemma PhaseAnswer(v: Table, p: int, phase: int)
    requires p in v.seats
    ensures var r := PhaseSet(v, p, phase);
            if !v.started then r == (v, RespGameNotStarted)
            else if NoTurnFor(v, p) != RespOk then r == (v, NoTurnFor(v, p))
            else if !v.seats[p].judge && v.active != p then r == (v, RespContextError)
            else r == (v.(phase := phase), RespOk)
  {
  }

  /** The order is turned round by anybody playing, a judge's seat being no help here. */
  lemma ReverseAnswer(v: Table, p: int)
    requires p in v.seats
    ensures var r := OrderReversed(v, p);
            if v.seats[p].spectator then r == (v, RespFunctionNotAllowed)
            else if !v.started then r == (v, RespGameNotStarted)
            else if v.seats[p].conceded then r == (v, RespContextError)
            else r == (v.(reversed := !v.reversed), RespOk)
  {
  }

  // ------------------------------------------------------------------ joining

  /** The newcomer's seat, under the next id; the creator who plays is host again. */
  lemma JoinedSeat(v: Table, settings: Settings, visitor: Visitor)
    requires Joined(v, settings, visitor).1 == RespOk
    ensures Joined(v, settings, visitor).0
         == v.(seats := v.seats[v.nextId := Seat(visitor.name, visitor.spectator, visitor.asJudge, false, false, false)],
               nextId := v.nextId + 1,
               host := if visitor.name == settings.creator && !visitor.spectator then v.nextId else v.host)
  {
    hide CheckJoin;
  }
}

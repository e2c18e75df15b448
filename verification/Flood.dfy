/** The flood limiter: bucket lists that stand for a sliding window over the full history. */
module Flood {

  function Sum(s: seq<nat>): nat
  {
    if s == [] then 0 else s[0] + Sum(s[1..])
  }

  function Min(a: nat, b: nat): nat
  {
    if a < b then a else b
  }

  /** How many ticks of the ping clock are counted together; never fewer than the current one. */
  function Window(interval: int, keepAlive: int): (w: nat)
    requires interval > 0
    ensures w >= 1
  {
    if keepAlive > 0 && interval / keepAlive >= 1 then interval / keepAlive else 1
  }

  // ------------------------------------------------------------------ one bucket list

  /** A tick of the ping clock opens a new bucket and drops the oldest beyond `room`. */
  function Shifted(buckets: seq<nat>, room: nat): seq<nat>
  {
    var longer := [0] + buckets;
    if |longer| > room then longer[..|longer| - 1] else longer
  }

  function Filled(buckets: seq<nat>, amount: nat): seq<nat>
  {
    var bucketed := if buckets == [] then [0] else buckets;
    bucketed[0 := bucketed[0] + amount]
  }

  datatype Event =
    | Tick
    | Use(amount: nat, otherwise: bool)

  /** The buckets beside what they abbreviate: per tick, newest first, all that was counted and all that was let through. */
  datatype Ledger = Ledger(buckets: seq<nat>, counted: seq<nat>, accepted: seq<nat>)

  const START := Ledger([], [0], [0])

  predicate LetThrough(buckets: seq<nat>, amount: nat, otherwise: bool, limit: nat)
  {
    otherwise && Sum(Filled(buckets, amount)) <= limit
  }

  /** `otherwise` is what else the request must pass; a request is counted whether it is let through or not. */
  function Step(l: Ledger, event: Event, room: nat, limit: nat): Ledger
    requires l.counted != [] && l.accepted != []
  {
    match event
    case Tick => Ledger(Shifted(l.buckets, room), [0] + l.counted, [0] + l.accepted)
    case Use(amount, otherwise) =>
      var passed := if LetThrough(l.buckets, amount, otherwise, limit) then amount else 0;
      Ledger(Filled(l.buckets, amount), l.counted[0 := l.counted[0] + amount], l.accepted[0 := l.accepted[0] + passed])
  }

  function Run(events: seq<Event>, room: nat, limit: nat): (l: Ledger)
    ensures l.counted != [] && |l.counted| == |l.accepted|
  {
    if events == [] then START
    else Step(Run(events[..|events| - 1], room, limit), events[|events| - 1], room, limit)
  }

  // ------------------------------------------------------------------ agreement with the history

  /** The newest `window` ticks of the history. */
  function Recent(history: seq<nat>, window: nat): seq<nat>
  {
    history[..Min(window, |history|)]
  }

  /** The buckets are the newest part of the history; what they lack of the window is zero. */
  predicate Agrees(buckets: seq<nat>, history: seq<nat>, window: nat)
  {
    && |buckets| <= Min(window, |history|)
    && buckets == history[..|buckets|]
    && forall i :: |buckets| <= i < Min(window, |history|) ==> history[i] == 0
  }

  lemma {:induction false} SumOfZeros(s: seq<nat>)
    requires forall i :: 0 <= i < |s| ==> s[i] == 0
    ensures Sum(s) == 0
  {
    if s != [] {
      SumOfZeros(s[1..]);
    }
  }

  lemma {:induction false} SumAppend(a: seq<nat>, b: seq<nat>)
    ensures Sum(a + b) == Sum(a) + Sum(b)
  {
    if a == [] {
      assert a + b == b;
    } else {
      SumAppend(a[1..], b);
      assert (a + b)[1..] == a[1..] + b;
    }
  }

  lemma AgreesSum(buckets: seq<nat>, history: seq<nat>, window: nat)
    requires Agrees(buckets, history, window)
    ensures Sum(buckets) == Sum(Recent(history, window))
  {
    var rest := Recent(history, window)[|buckets|..];
    assert Recent(history, window) == buckets + rest;
    SumAppend(buckets, rest);
    SumOfZeros(rest);
  }

  /** `room` is what the code divides out; below one it works as if it were one. */
  predicate Matches(room: nat, window: nat)
  {
    window == if room >= 1 then room else 1
  }

  lemma ShiftAgrees(buckets: seq<nat>, history: seq<nat>, room: nat, window: nat)
    requires Agrees(buckets, history, window) && Matches(room, window)
    ensures Agrees(Shifted(buckets, room), [0] + history, window)
  {
  }

  lemma FillAgrees(buckets: seq<nat>, history: seq<nat>, window: nat, amount: nat)
    requires Agrees(buckets, history, window) && history != [] && window >= 1
    ensures Agrees(Filled(buckets, amount), history[0 := history[0] + amount], window)
  {
  }

  lemma {:induction false} RunAgrees(events: seq<Event>, room: nat, window: nat, limit: nat)
    requires Matches(room, window)
    ensures var l := Run(events, room, limit); Agrees(l.buckets, l.counted, window)
  {
    if events != [] {
      var l := Run(events[..|events| - 1], room, limit);
      RunAgrees(events[..|events| - 1], room, window, limit);
      match events[|events| - 1]
      case Tick => ShiftAgrees(l.buckets, l.counted, room, window);
      case Use(amount, _) => FillAgrees(l.buckets, l.counted, window, amount);
    }
  }

  /**
   After every run of ticks and requests the bucket list has at most `window` entries, sums up
   exactly the current and the window - 1 previous ticks, and so decides by the true window.
   */
  lemma WindowIsExact(events: seq<Event>, room: nat, window: nat, limit: nat, amount: nat, otherwise: bool)
    requires Matches(room, window)
    ensures var l := Run(events, room, limit);
            && |l.buckets| <= window
            && Sum(l.buckets) == Sum(Recent(l.counted, window))
            && (LetThrough(l.buckets, amount, otherwise, limit)
                <==> otherwise && Sum(Recent(l.counted, window)) + amount <= limit)
  {
    var l := Run(events, room, limit);
    RunAgrees(events, room, window, limit);
    AgreesSum(l.buckets, l.counted, window);
    FillAgrees(l.buckets, l.counted, window, amount);
    var more := l.counted[0 := l.counted[0] + amount];
    AgreesSum(Filled(l.buckets, amount), more, window);
    assert Recent(more, window)[1..] == Recent(l.counted, window)[1..];
  }

  // ------------------------------------------------------------------ never too much in any window

  lemma {:induction false} SumMonotone(a: seq<nat>, b: seq<nat>)
    requires |a| == |b| && forall i :: 0 <= i < |a| ==> a[i] <= b[i]
    ensures Sum(a) <= Sum(b)
  {
    if a != [] {
      SumMonotone(a[1..], b[1..]);
    }
  }

  /** Any `window` consecutive ticks of the history, the last one possibly cut short by its beginning. */
  function Stretch(history: seq<nat>, from: nat, window: nat): seq<nat>
    requires from <= |history|
  {
    history[from..from + Min(window, |history| - from)]
  }

  predicate Bounded(l: Ledger, window: nat, limit: nat)
  {
    && |l.accepted| == |l.counted|
    && (forall i :: 0 <= i < |l.accepted| ==> l.accepted[i] <= l.counted[i])
    && (forall i :: 0 <= i <= |l.accepted| ==> Sum(Stretch(l.accepted, i, window)) <= limit)
  }

  /** A stretch that begins with the new, empty tick is no more than the stretch before it. */
  lemma NewestStretch(history: seq<nat>, window: nat)
    requires window >= 1
    ensures Sum(Stretch([0] + history, 0, window)) <= Sum(Stretch(history, 0, window))
  {
    var newer, older := Stretch([0] + history, 0, window), Stretch(history, 0, window);
    var n := |newer| - 1;
    assert newer[0] == 0 && newer[1..] == older[..n];
    assert older == older[..n] + older[n..];
    SumAppend(older[..n], older[n..]);
  }

  lemma TickBounded(l: Ledger, room: nat, window: nat, limit: nat)
    requires Bounded(l, window, limit) && Matches(room, window) && l.counted != [] && l.accepted != []
    ensures Bounded(Step(l, Tick, room, limit), window, limit)
  {
    hide Sum; hide Shifted;
    var t := Step(l, Tick, room, limit);
    forall i | 0 <= i <= |t.accepted|
      ensures Sum(Stretch(t.accepted, i, window)) <= limit
    {
      if i > 0 {
        assert Stretch(t.accepted, i, window) == Stretch(l.accepted, i - 1, window);
      } else {
        NewestStretch(l.accepted, window);
        assert Sum(Stretch(l.accepted, 0, window)) <= limit;
      }
    }
  }

  lemma UseBounded(l: Ledger, amount: nat, otherwise: bool, room: nat, window: nat, limit: nat)
    requires Bounded(l, window, limit) && Agrees(l.buckets, l.counted, window) && window >= 1
    requires l.counted != [] && l.accepted != []
    ensures Bounded(Step(l, Use(amount, otherwise), room, limit), window, limit)
  {
    var t := Step(l, Use(amount, otherwise), room, limit);
    forall i | 0 <= i <= |t.accepted|
      ensures Sum(Stretch(t.accepted, i, window)) <= limit
    {
      if i > 0 {
        assert Stretch(t.accepted, i, window) == Stretch(l.accepted, i, window);
      } else if LetThrough(l.buckets, amount, otherwise, limit) {
        FillAgrees(l.buckets, l.counted, window, amount);
        AgreesSum(t.buckets, t.counted, window);
        SumMonotone(Stretch(t.accepted, 0, window), Recent(t.counted, window));
      } else {
        assert t.accepted == l.accepted;
      }
    }
  }

  lemma {:induction false} RunBounded(events: seq<Event>, room: nat, window: nat, limit: nat)
    requires Matches(room, window)
    ensures Bounded(Run(events, room, limit), window, limit)
  {
    if events != [] {
      var l := Run(events[..|events| - 1], room, limit);
      RunBounded(events[..|events| - 1], room, window, limit);
      RunAgrees(events[..|events| - 1], room, window, limit);
      match events[|events| - 1]
      case Tick => TickBounded(l, room, window, limit);
      case Use(amount, otherwise) => UseBounded(l, amount, otherwise, room, window, limit);
    } else {
      assert Stretch([0], 1, window) == [];
      assert Stretch([0], 0, window) == [0];
      assert Sum([0]) == 0;
    }
  }

  /** In no `window` consecutive ticks of any run is more than the limit let through. */
  lemma NeverTooMuch(events: seq<Event>, room: nat, window: nat, limit: nat, from: nat)
    requires Matches(room, window) && from <= |Run(events, room, limit).accepted|
    ensures Sum(Stretch(Run(events, room, limit).accepted, from, window)) <= limit
  {
    RunBounded(events, room, window, limit);
  }

  // ------------------------------------------------------------------ the connection's counters

  datatype Limits = Limits(messageInterval: int, maxMessageSize: int, maxMessageCount: int,
                           commandInterval: int, maxCommandCount: int, keepAlive: int)

  /** What the server divides out as the number of buckets. */
  function Room(interval: int, keepAlive: int): (room: nat)
    requires interval > 0 && keepAlive > 0
    ensures Matches(room, Window(interval, keepAlive))
  {
    interval / keepAlive
  }

  datatype Command = Command(whitelisted: bool, text: string)

  /** Counted unless its kind is on the list of harmless bursts. */
  function Weight(cmd: Command): nat
  {
    if cmd.whitelisted then 0 else 1
  }

  function Flooded(limits: Limits, buckets: seq<nat>): bool
  {
    limits.commandInterval > 0 && limits.maxCommandCount > 0 && Sum(buckets) > limits.maxCommandCount
  }

  function Counted(limits: Limits, buckets: seq<nat>, cmd: Command): seq<nat>
  {
    if limits.commandInterval > 0 then Filled(buckets, Weight(cmd)) else buckets
  }

  /**
   What a container of commands does, the last one first: those carried out before the counter runs
   over, and the buckets afterwards.
   */
  function CarriedOut(limits: Limits, buckets: seq<nat>, cmds: seq<Command>): (r: (seq<Command>, seq<nat>))
    ensures r.0 <= Backwards(cmds)
    decreases |cmds|
  {
    if cmds == [] then ([], buckets)
    else
      var last := cmds[|cmds| - 1];
      var counted := Counted(limits, buckets, last);
      if Flooded(limits, counted) then ([], counted)
      else
        var rest := CarriedOut(limits, counted, cmds[..|cmds| - 1]);
        ([last] + rest.0, rest.1)
  }

  function Backwards(cmds: seq<Command>): (r: seq<Command>)
    ensures |r| == |cmds|
    decreases |cmds|
  {
    if cmds == [] then [] else [cmds[|cmds| - 1]] + Backwards(cmds[..|cmds| - 1])
  }

  /** What of a batch of commands counts towards the limit. */
  function Weights(cmds: seq<Command>): nat
  {
    if cmds == [] then 0 else Weight(cmds[0]) + Weights(cmds[1..])
  }

  predicate Accounted(l: Ledger, t: Ledger, done: (seq<Command>, seq<nat>))
    requires l.accepted != []
  {
    t.buckets == done.1 && t.accepted == l.accepted[0 := l.accepted[0] + Weights(done.0)]
  }

  lemma OneMore(l: Ledger, after: Ledger, t: Ledger, cmd: Command, done: (seq<Command>, seq<nat>))
    requires l.accepted != [] && after.accepted == l.accepted[0 := l.accepted[0] + Weight(cmd)]
    requires Accounted(after, t, done)
    ensures Accounted(l, t, ([cmd] + done.0, done.1))
  {
    assert ([cmd] + done.0)[1..] == done.0;
  }

  /**
   A container handled in some tick is a run of requests to the limiter: it leaves the same buckets,
   and exactly what it carried out is what was let through, so NeverTooMuch speaks about containers.
   */
  lemma {:induction false} ContainerIsUses(events: seq<Event>, limits: Limits, cmds: seq<Command>, room: nat)
    returns (uses: seq<Event>)
    requires limits.commandInterval > 0 && limits.maxCommandCount > 0
    ensures forall i :: 0 <= i < |uses| ==> uses[i].Use?
    ensures Accounted(Run(events, room, limits.maxCommandCount), Run(events + uses, room, limits.maxCommandCount),
                      CarriedOut(limits, Run(events, room, limits.maxCommandCount).buckets, cmds))
    decreases |cmds|
  {
    hide Sum; hide Filled; hide Backwards; hide Shifted; hide Weight; hide Run;
    var limit := limits.maxCommandCount;
    var l := Run(events, room, limit);
    if cmds == [] {
      uses := [];
      assert events + uses == events;
    } else {
      var last := cmds[|cmds| - 1];
      var first := Use(Weight(last), true);
      var longer := events + [first];
      RunOneMore(events, first, room, limit);
      var after := Step(l, first, room, limit);
      if Flooded(limits, Counted(limits, l.buckets, last)) {
        uses := [first];
      } else {
        var rest := ContainerIsUses(longer, limits, cmds[..|cmds| - 1], room);
        uses := [first] + rest;
        assert events + uses == longer + rest;
        var done := CarriedOut(limits, after.buckets, cmds[..|cmds| - 1]);
        OneMore(l, after, Run(longer + rest, room, limit), last, done);
      }
    }
  }

  lemma RunOneMore(events: seq<Event>, event: Event, room: nat, limit: nat)
    ensures Run(events + [event], room, limit) == Step(Run(events, room, limit), event, room, limit)
  {
    hide Step;
    assert (events + [event])[..|events|] == events;
  }

  // ------------------------------------------------------------------ which commands use up the limit

  /** How many of these commands are not on the list of harmless bursts. */
  function OffList(cmds: seq<Command>): nat
  {
    if cmds == [] then 0
    else OffList(cmds[..|cmds| - 1]) + if cmds[|cmds| - 1].whitelisted then 0 else 1
  }

  /** Those commands alone, in order. */
  function OffListOnly(cmds: seq<Command>): seq<Command>
  {
    if cmds == [] then []
    else OffListOnly(cmds[..|cmds| - 1]) + if cmds[|cmds| - 1].whitelisted then [] else [cmds[|cmds| - 1]]
  }

  lemma {:induction false} OffListAppend(a: seq<Command>, b: seq<Command>)
    ensures OffList(a + b) == OffList(a) + OffList(b)
    ensures OffListOnly(a + b) == OffListOnly(a) + OffListOnly(b)
    decreases |b|
  {
    if b == [] {
      assert a + b == a;
    } else {
      OffListAppend(a, b[..|b| - 1]);
      assert (a + b)[..|a + b| - 1] == a + b[..|b| - 1];
    }
  }

  lemma OffListOne(cmd: Command)
    ensures OffList([cmd]) == if cmd.whitelisted then 0 else 1
    ensures OffListOnly([cmd]) == if cmd.whitelisted then [] else [cmd]
  {
    assert [cmd][..0] == [];
  }

  lemma {:induction false} WeightsAreOffList(cmds: seq<Command>)
    ensures Weights(cmds) == OffList(cmds)
  {
    if cmds != [] {
      WeightsAreOffList(cmds[1..]);
      OffListOne(cmds[0]);
      OffListAppend([cmds[0]], cmds[1..]);
      assert cmds == [cmds[0]] + cmds[1..];
    }
  }

  /** The limiter is switched on. */
  predicate Limiting(limits: Limits)
  {
    limits.commandInterval > 0 && limits.maxCommandCount > 0
  }

  lemma FilledSum(buckets: seq<nat>, amount: nat)
    ensures Sum(Filled(buckets, amount)) == Sum(buckets) + amount
  {
    if buckets != [] {
      assert buckets[0 := buckets[0] + amount][1..] == buckets[1..];
    } else {
      assert Filled(buckets, amount) == [amount] && [amount][1..] == [];
    }
  }

  /**
   A whole container is carried out exactly if the limiter is off or what the buckets hold and its
   commands off the list together stay within the limit.
   */
  lemma {:induction false} AllCarriedOutIff(limits: Limits, buckets: seq<nat>, cmds: seq<Command>)
    ensures CarriedOut(limits, buckets, cmds).0 == Backwards(cmds)
            <==> cmds == [] || !Limiting(limits) || Sum(buckets) + OffList(cmds) <= limits.maxCommandCount
    decreases |cmds|
  {
    hide Sum; hide Filled;
    if cmds != [] {
      var last, others := cmds[|cmds| - 1], cmds[..|cmds| - 1];
      var counted := Counted(limits, buckets, last);
      FilledSum(buckets, Weight(last));
      AllCarriedOutIff(limits, counted, others);
      if !Flooded(limits, counted) {
        var rest := CarriedOut(limits, counted, others);
        assert ([last] + rest.0)[1..] == rest.0 && ([last] + Backwards(others))[1..] == Backwards(others);
      }
    }
  }

  lemma CarriedStep(limits: Limits, buckets: seq<nat>, others: seq<Command>, last: Command)
    ensures var counted := Counted(limits, buckets, last);
            CarriedOut(limits, buckets, others + [last]).0
            == if Flooded(limits, counted) then [] else [last] + CarriedOut(limits, counted, others).0
  {
    hide Sum; hide Filled; hide Flooded; hide Counted;
    assert (others + [last])[..|others|] == others;
  }

  /** Commands on the list never use up the limit: without them the same others are carried out. */
  lemma {:induction false} ListedAreFree(limits: Limits, buckets: seq<nat>, free: seq<nat>, cmds: seq<Command>)
    requires Sum(buckets) == Sum(free)
    ensures OffListOnly(CarriedOut(limits, buckets, cmds).0) == CarriedOut(limits, free, OffListOnly(cmds)).0
    decreases |cmds|
  {
    hide Sum; hide Filled;
    if cmds != [] {
      var last, others := cmds[|cmds| - 1], cmds[..|cmds| - 1];
      assert cmds == others + [last];
      var counted, counted' := Counted(limits, buckets, last), Counted(limits, free, last);
      FilledSum(buckets, Weight(last));
      FilledSum(free, Weight(last));
      assert Flooded(limits, counted) == Flooded(limits, counted');
      assert last.whitelisted ==> Sum(counted) == Sum(free) && OffListOnly(cmds) == OffListOnly(others);
      CarriedStep(limits, buckets, others, last);
      OffListOne(last);
      OffListAppend([last], CarriedOut(limits, counted, others).0);
      hide CarriedOut; hide Counted;
      if last.whitelisted {
        if Flooded(limits, counted) {
          FloodedCarriesNone(limits, free, OffListOnly(cmds));
        } else {
          ListedAreFree(limits, counted, free, others);
        }
      } else {
        CarriedStep(limits, free, OffListOnly(others), last);
        ListedAreFree(limits, counted, counted', others);
      }
    }
  }

  /** Once the buckets are over the limit, nothing is carried out. */
  lemma FloodedCarriesNone(limits: Limits, buckets: seq<nat>, cmds: seq<Command>)
    requires Flooded(limits, buckets)
    ensures CarriedOut(limits, buckets, cmds).0 == []
  {
    if cmds != [] {
      FilledSum(buckets, Weight(cmds[|cmds| - 1]));
    }
  }

  // ------------------------------------------------------------------ a connection over time

  datatype Happening = ClockTick | Container(cmds: seq<Command>)

  /** A connection's command buckets, and the commands carried out in each tick, newest first. */
  datatype Session = Session(buckets: seq<nat>, done: seq<seq<Command>>)

  function Ticked(limits: Limits, buckets: seq<nat>): seq<nat>
    requires limits.commandInterval > 0
  {
    if limits.keepAlive > 0 then Shifted(buckets, limits.commandInterval / limits.keepAlive) else buckets
  }

  /** What has happened to a connection so far, the latest last. */
  function After(limits: Limits, past: seq<Happening>): (t: Session)
    requires limits.commandInterval > 0
    ensures t.done != []
  {
    if past == [] then Session([], [[]])
    else
      var t := After(limits, past[..|past| - 1]);
      match past[|past| - 1]
      case ClockTick => Session(Ticked(limits, t.buckets), [[]] + t.done)
      case Container(cmds) =>
        var r := CarriedOut(limits, t.buckets, cmds);
        Session(r.1, t.done[0 := t.done[0] + r.0])
  }

  /** All that was carried out in these ticks. */
  function Together(ticks: seq<seq<Command>>): seq<Command>
  {
    if ticks == [] then [] else ticks[0] + Together(ticks[1..])
  }

  /** Tick by tick, the limiter has let through as many as there are commands off the list carried out. */
  predicate Mirrors(accepted: seq<nat>, done: seq<seq<Command>>)
  {
    |accepted| == |done| && forall i :: 0 <= i < |done| ==> accepted[i] == OffList(done[i])
  }

  lemma {:induction false} AfterIsRun(limits: Limits, past: seq<Happening>) returns (events: seq<Event>)
    requires Limiting(limits) && limits.keepAlive > 0
    ensures var l := Run(events, limits.commandInterval / limits.keepAlive, limits.maxCommandCount);
            l.buckets == After(limits, past).buckets && Mirrors(l.accepted, After(limits, past).done)
    decreases |past|
  {
    var room, limit := limits.commandInterval / limits.keepAlive, limits.maxCommandCount;
    if past == [] {
      events := [];
    } else {
      var before := past[..|past| - 1];
      var earlier := AfterIsRun(limits, before);
      var t := After(limits, before);
      match past[|past| - 1] {
        case ClockTick =>
          events := earlier + [Tick];
          assert events[..|events| - 1] == earlier;
        case Container(cmds) =>
          var uses := ContainerIsUses(earlier, limits, cmds, room);
          events := earlier + uses;
          var done := CarriedOut(limits, t.buckets, cmds).0;
          WeightsAreOffList(done);
          OffListAppend(t.done[0], done);
      }
    }
  }

  lemma {:induction false} TogetherSum(accepted: seq<nat>, done: seq<seq<Command>>)
    requires Mirrors(accepted, done)
    ensures Sum(accepted) == OffList(Together(done))
  {
    if done != [] {
      TogetherSum(accepted[1..], done[1..]);
      OffListAppend(done[0], Together(done[1..]));
    }
  }

  /** Without a clock nothing is ever forgotten. */
  lemma {:induction false} WithoutClock(limits: Limits, past: seq<Happening>)
    requires Limiting(limits) && limits.keepAlive <= 0
    ensures var t := After(limits, past);
            OffList(Together(t.done)) <= limits.maxCommandCount && OffList(Together(t.done)) <= Sum(t.buckets)
    decreases |past|
  {
    if past == [] {
      assert Together([[]]) == [];
    } else {
      var t := After(limits, past[..|past| - 1]);
      WithoutClock(limits, past[..|past| - 1]);
      match past[|past| - 1]
      case ClockTick => assert ([[]] + t.done)[1..] == t.done && Together([[]] + t.done) == Together(t.done);
      case Container(cmds) =>
        var r := CarriedOut(limits, t.buckets, cmds);
        CarriedWithin(limits, t.buckets, cmds);
        var first, others := t.done[0], Together(t.done[1..]);
        OffListAppend(first, others);
        OffListAppend(first, r.0);
        OffListAppend(first + r.0, others);
        assert t.done[0 := first + r.0][1..] == t.done[1..];
    }
  }

  /** What a container adds to the buckets is at least what it carries out, and that keeps within the limit. */
  lemma {:induction false} CarriedWithin(limits: Limits, buckets: seq<nat>, cmds: seq<Command>)
    requires Limiting(limits)
    ensures var r := CarriedOut(limits, buckets, cmds);
            && Sum(buckets) + OffList(r.0) <= Sum(r.1)
            && (OffList(r.0) == 0 || Sum(buckets) + OffList(r.0) <= limits.maxCommandCount)
    decreases |cmds|
  {
    hide Sum; hide Filled;
    if cmds != [] {
      var last := cmds[|cmds| - 1];
      var counted := Counted(limits, buckets, last);
      FilledSum(buckets, Weight(last));
      if !Flooded(limits, counted) {
        CarriedWithin(limits, counted, cmds[..|cmds| - 1]);
        OffListOne(last);
        OffListAppend([last], CarriedOut(limits, counted, cmds[..|cmds| - 1]).0);
      }
    }
  }

  lemma {:induction false} FewerTogether(done: seq<seq<Command>>, from: nat, to: nat)
    requires from <= to <= |done|
    ensures OffList(Together(done[from..to])) <= OffList(Together(done))
    decreases |done|
  {
    if done != [] {
      OffListAppend(done[0], Together(done[1..]));
      if to == 0 {
        assert done[from..to] == [];
      } else if from > 0 {
        FewerTogether(done[1..], from - 1, to - 1);
        assert done[from..to] == done[1..][from - 1..to - 1];
      } else {
        FewerTogether(done[1..], 0, to - 1);
        assert done[0..to][0] == done[0] && done[0..to][1..] == done[1..][0..to - 1];
        OffListAppend(done[0], Together(done[0..to][1..]));
      }
    }
  }

  /**
   Whatever happens to a connection: in no stretch of ticks as long as the counting window are more
   commands off the list carried out than the limit says, however they are spread over containers.
   */
  lemma BurstsAreBounded(limits: Limits, past: seq<Happening>, from: nat, to: nat)
    requires Limiting(limits)
    requires from <= to <= |After(limits, past).done| && to - from <= Window(limits.commandInterval, limits.keepAlive)
    ensures OffList(Together(After(limits, past).done[from..to])) <= limits.maxCommandCount
  {
    hide Sum;
    var done := After(limits, past).done;
    if limits.keepAlive > 0 {
      var room := Room(limits.commandInterval, limits.keepAlive);
      var window := Window(limits.commandInterval, limits.keepAlive);
      var events := AfterIsRun(limits, past);
      var accepted := Run(events, room, limits.maxCommandCount).accepted;
      NeverTooMuch(events, room, window, limits.maxCommandCount, from);
      var stretch := Stretch(accepted, from, window);
      assert stretch == accepted[from..to] + stretch[to - from..];
      SumAppend(accepted[from..to], stretch[to - from..]);
      TogetherSum(accepted[from..to], done[from..to]);
    } else {
      WithoutClock(limits, past);
      FewerTogether(done, from, to);
    }
  }

  class ProtocolHandler {
    const limits: Limits
    var messageSizeOverTime: seq<nat>
    var messageCountOverTime: seq<nat>
    var commandCountOverTime: seq<nat>

    constructor (limits: Limits)
      ensures this.limits == limits
      ensures messageSizeOverTime == messageCountOverTime == commandCountOverTime == START.buckets
    {
      this.limits := limits;
      messageSizeOverTime, messageCountOverTime, commandCountOverTime := [], [], [];
    }

    method PingClockTimeout()
      modifies this
      ensures limits.messageInterval > 0 && limits.keepAlive > 0 ==>
                var room := Room(limits.messageInterval, limits.keepAlive);
                && messageSizeOverTime == Shifted(old(messageSizeOverTime), room)
                && messageCountOverTime == Shifted(old(messageCountOverTime), room)
      ensures limits.messageInterval <= 0 || limits.keepAlive <= 0 ==>
                messageSizeOverTime == old(messageSizeOverTime) && messageCountOverTime == old(messageCountOverTime)
      ensures commandCountOverTime
              == if limits.commandInterval > 0 && limits.keepAlive > 0 then
                   Shifted(old(commandCountOverTime), Room(limits.commandInterval, limits.keepAlive))
                 else old(commandCountOverTime)
    {
      if limits.messageInterval > 0 {
        if limits.keepAlive > 0 {
          messageSizeOverTime := [0] + messageSizeOverTime;
          if |messageSizeOverTime| > limits.messageInterval / limits.keepAlive {
            messageSizeOverTime := messageSizeOverTime[..|messageSizeOverTime| - 1];
          }
          messageCountOverTime := [0] + messageCountOverTime;
          if |messageCountOverTime| > limits.messageInterval / limits.keepAlive {
            messageCountOverTime := messageCountOverTime[..|messageCountOverTime| - 1];
          }
        }
      }
      if limits.commandInterval > 0 {
        if limits.keepAlive > 0 {
          commandCountOverTime := [0] + commandCountOverTime;
          if |commandCountOverTime| > limits.commandInterval / limits.keepAlive {
            commandCountOverTime := commandCountOverTime[..|commandCountOverTime| - 1];
          }
        }
      }
    }

    /** A message passes when neither its size nor its count runs over; it is counted in both lists anyway. */
    method AddSaidMessageSize(size: nat) returns (ok: bool)
      modifies this`messageSizeOverTime, this`messageCountOverTime
      ensures limits.messageInterval <= 0 ==>
                && ok && messageSizeOverTime == old(messageSizeOverTime)
                && messageCountOverTime == old(messageCountOverTime)
      ensures limits.messageInterval > 0 ==>
                && messageSizeOverTime == Filled(old(messageSizeOverTime), size)
                && messageCountOverTime == Filled(old(messageCountOverTime), 1)
                && ok == (Sum(messageSizeOverTime) <= limits.maxMessageSize
                          && Sum(messageCountOverTime) <= limits.maxMessageCount)
    {
      if limits.messageInterval <= 0 {
        return true;
      }
      if messageSizeOverTime == [] {
        messageSizeOverTime := [0];
      }
      messageSizeOverTime := messageSizeOverTime[0 := messageSizeOverTime[0] + size];
      var totalSize := Total(messageSizeOverTime);
      if messageCountOverTime == [] {
        messageCountOverTime := [0];
      }
      messageCountOverTime := messageCountOverTime[0 := messageCountOverTime[0] + 1];
      var totalCount := Total(messageCountOverTime);
      return totalSize <= limits.maxMessageSize && totalCount <= limits.maxMessageCount;
    }

    method CountCommand(cmd: Command) returns (flooded: bool)
      modifies this`commandCountOverTime
      ensures commandCountOverTime == Counted(limits, old(commandCountOverTime), cmd)
      ensures flooded == Flooded(limits, commandCountOverTime)
    {
      if limits.commandInterval > 0 {
        if commandCountOverTime == [] {
          commandCountOverTime := [0];
        }
        if !cmd.whitelisted {
          commandCountOverTime := commandCountOverTime[0 := commandCountOverTime[0] + 1];
        }
        var totalCount := Total(commandCountOverTime);
        return limits.maxCommandCount > 0 && totalCount > limits.maxCommandCount;
      }
      return false;
    }

    /** processGameCommandContainer's loop: a flooding container answers at once and sends no events. */
    method ProcessContainer(cmds: seq<Command>) returns (carriedOut: seq<Command>, sent: bool)
      modifies this`commandCountOverTime
      ensures (carriedOut, commandCountOverTime) == CarriedOut(limits, old(commandCountOverTime), cmds)
      ensures sent <==> carriedOut == Backwards(cmds)
    {
      hide Counted; hide Flooded;
      carriedOut := [];
      var i := |cmds|;
      ghost var whole := CarriedOut(limits, commandCountOverTime, cmds);
      assert cmds[..i] == cmds;
      while i > 0
        invariant 0 <= i <= |cmds|
        invariant whole.0 == carriedOut + CarriedOut(limits, commandCountOverTime, cmds[..i]).0
        invariant whole.1 == CarriedOut(limits, commandCountOverTime, cmds[..i]).1
        invariant Backwards(cmds) == carriedOut + Backwards(cmds[..i])
      {
        i := i - 1;
        var rest := cmds[..i];
        assert cmds[..i + 1][..i] == rest;
        var flooded := CountCommand(cmds[i]);
        if flooded {
          assert whole.0 == carriedOut;
          return carriedOut, false;
        }
        assert whole.0 == carriedOut + ([cmds[i]] + CarriedOut(limits, commandCountOverTime, rest).0);
        carriedOut := carriedOut + [cmds[i]];
      }
      assert cmds[..0] == [] && whole.0 == carriedOut;
      return carriedOut, true;
    }
  }

  method Total(s: seq<nat>) returns (total: nat)
    ensures total == Sum(s)
  {
    total := 0;
    for i := 0 to |s|
      invariant total == Sum(s[..i])
    {
      assert s[..i + 1] == s[..i] + [s[i]];
      SumAppend(s[..i], [s[i]]);
      total := total + s[i];
    }
    assert s[..|s|] == s;
  }
}

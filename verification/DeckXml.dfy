/** Decks written as, and read back from, a stream of XML tokens. */
module DeckXml {
  import opened Decimal

  datatype Tree =
    | Zone(name: string, children: seq<Tree>)
    | Card(name: string, number: int)

  datatype Move = Move(cardName: string, startZone: string, targetZone: string)

  datatype Deck = Deck(name: string, comments: string, zones: seq<Tree>, plans: map<string, seq<Move>>)

  const EMPTY := Deck("", "", [], map[])

  /** `Aside` is whatever no reader looks at: the document's start and end, comments. */
  datatype Token =
    | Start(name: string, attributes: map<string, string>)
    | End(name: string)
    | Text(text: string)
    | Aside

  // ------------------------------------------------------------------ writing

  function TextElement(name: string, text: string): seq<Token>
  {
    [Start(name, map[])] + (if text == "" then [] else [Text(text)]) + [End(name)]
  }

  function Written(tree: Tree): seq<Token>
    decreases tree
  {
    match tree
    case Zone(name, children) => [Start("zone", map["name" := name])] + WrittenAll(children) + [End("zone")]
    case Card(name, number) => [Start("card", map["number" := Print(number), "name" := name]), End("card")]
  }

  function WrittenAll(trees: seq<Tree>): seq<Token>
    decreases trees
  {
    if trees == [] then [] else Written(trees[0]) + WrittenAll(trees[1..])
  }

  function WrittenMove(m: Move): seq<Token>
  {
    [Start("move_card_to_zone", map[])] + TextElement("card_name", m.cardName) + TextElement("start_zone", m.startZone)
    + TextElement("target_zone", m.targetZone) + [End("move_card_to_zone")]
  }

  function WrittenMoves(moves: seq<Move>): seq<Token>
  {
    if moves == [] then [] else WrittenMove(moves[0]) + WrittenMoves(moves[1..])
  }

  function WrittenPlan(name: string, moves: seq<Move>): seq<Token>
  {
    [Start("sideboard_plan", map[])] + TextElement("name", name) + WrittenMoves(moves) + [End("sideboard_plan")]
  }

  function WrittenPlans(plans: map<string, seq<Move>>, keys: seq<string>): seq<Token>
    requires forall k :: k in keys ==> k in plans
  {
    if keys == [] then [] else WrittenPlan(keys[0], plans[keys[0]]) + WrittenPlans(plans, keys[1..])
  }

  /** The whole document; `keys` is the order in which the map of plans is gone through. */
  function WrittenDeck(d: Deck, keys: seq<string>): seq<Token>
    requires forall k :: k in keys <==> k in d.plans
  {
    [Start("cockatrice_deck", map["version" := "1"])] + TextElement("deckname", d.name) + TextElement("comments", d.comments)
    + WrittenAll(d.zones) + WrittenPlans(d.plans, keys) + [End("cockatrice_deck")]
  }

  // ------------------------------------------------------------------ reading

  datatype Cursor = Cursor(rest: seq<Token>, failed: bool)

  predicate AtEnd(c: Cursor)
  {
    c.failed || c.rest == []
  }

  function Next(c: Cursor): (n: Cursor)
    requires !AtEnd(c)
    ensures |n.rest| == |c.rest| - 1 && !n.failed
  {
    Cursor(c.rest[1..], false)
  }

  function Attribute(token: Token, name: string): string
    requires token.Start?
  {
    if name in token.attributes then token.attributes[name] else ""
  }

  /** readElementText: the text up to the end tag; an element inside is an error. */
  function ReadText(c: Cursor, soFar: string): (r: (string, Cursor))
    requires !c.failed
    ensures |r.1.rest| <= |c.rest|
    decreases |c.rest|
  {
    if c.rest == [] then (soFar, Cursor([], true))
    else match c.rest[0]
      case Text(text) => ReadText(Next(c), soFar + text)
      case Aside => ReadText(Next(c), soFar)
      case End(_) => (soFar, Next(c))
      case Start(_, _) => (soFar, c.(failed := true))
  }

  /** A card is read up to its end tag. */
  function SkipCard(c: Cursor): (r: Cursor)
    ensures |r.rest| <= |c.rest|
    decreases |c.rest|
  {
    if AtEnd(c) then c
    else if c.rest[0] == End("card") then Next(c)
    else SkipCard(Next(c))
  }

  /** A zone's children, up to its end tag. */
  function ReadZone(c: Cursor, soFar: seq<Tree>): (r: (seq<Tree>, Cursor))
    ensures |r.1.rest| <= |c.rest|
    decreases |c.rest|
  {
    if AtEnd(c) then (soFar, c)
    else
      var token := c.rest[0];
      if token.Start? && token.name == "zone" then
        var inner := ReadZone(Next(c), []);
        ReadZone(inner.1, soFar + [Zone(Attribute(token, "name"), inner.0)])
      else if token.Start? && token.name == "card" then
        ReadZone(SkipCard(Next(c)), soFar + [Card(Attribute(token, "name"), ToInt(Attribute(token, "number")))])
      else if token == End("zone") then (soFar, Next(c))
      else ReadZone(Next(c), soFar)
  }

  function ReadMove(c: Cursor, m: Move): (r: (Move, bool, Cursor))
    ensures |r.2.rest| <= |c.rest|
    decreases |c.rest|
  {
    if AtEnd(c) then (m, false, c)
    else
      var token := c.rest[0];
      if token.Start? && token.name == "card_name" then
        var t := ReadText(Next(c), "");
        ReadMove(t.1, m.(cardName := t.0))
      else if token.Start? && token.name == "start_zone" then
        var t := ReadText(Next(c), "");
        ReadMove(t.1, m.(startZone := t.0))
      else if token.Start? && token.name == "target_zone" then
        var t := ReadText(Next(c), "");
        ReadMove(t.1, m.(targetZone := t.0))
      else if token == End("move_card_to_zone") then (m, true, Next(c))
      else ReadMove(Next(c), m)
  }

  datatype Plan = Plan(name: string, moves: seq<Move>)

  /** A sideboard plan; it counts only when its end tag was found. */
  function ReadPlan(c: Cursor, p: Plan): (r: (Plan, bool, Cursor))
    ensures |r.2.rest| <= |c.rest|
    decreases |c.rest|
  {
    if AtEnd(c) then (p, false, c)
    else
      var token := c.rest[0];
      if token.Start? && token.name == "name" then
        var t := ReadText(Next(c), "");
        ReadPlan(t.1, p.(name := t.0))
      else if token.Start? && token.name == "move_card_to_zone" then
        var m := ReadMove(Next(c), Move("", "", ""));
        ReadPlan(m.2, if m.1 then p.(moves := p.moves + [m.0]) else p)
      else if token == End("sideboard_plan") then (p, true, Next(c))
      else ReadPlan(Next(c), p)
  }

  /** A zone met again at the top level continues the first of that name. */
  function Continued(zones: seq<Tree>, name: string, children: seq<Tree>): seq<Tree>
    requires forall z :: z in zones ==> z.Zone?
  {
    if zones == [] then [Zone(name, children)]
    else if zones[0].name == name then [Zone(name, zones[0].children + children)] + zones[1..]
    else [zones[0]] + Continued(zones[1..], name, children)
  }

  lemma {:induction false} ContinuedZones(zones: seq<Tree>, name: string, children: seq<Tree>)
    requires forall z :: z in zones ==> z.Zone?
    ensures forall z :: z in Continued(zones, name, children) ==> z.Zone?
  {
    if zones != [] && zones[0].name != name {
      ContinuedZones(zones[1..], name, children);
    }
  }

  predicate ZonesOnly(d: Deck)
  {
    forall z :: z in d.zones ==> z.Zone?
  }

  /** One step of the deck's reader; false when the deck's end tag was found. */
  function ReadElement(c: Cursor, d: Deck): (r: (Deck, bool, Cursor))
    requires !AtEnd(c) && ZonesOnly(d)
    ensures |r.2.rest| < |c.rest| && ZonesOnly(r.0)
  {
    var token := c.rest[0];
    if token.Start? && token.name == "deckname" then
      var t := ReadText(Next(c), "");
      (d.(name := t.0), true, t.1)
    else if token.Start? && token.name == "comments" then
      var t := ReadText(Next(c), "");
      (d.(comments := t.0), true, t.1)
    else if token.Start? && token.name == "zone" then
      var z := ReadZone(Next(c), []);
      ContinuedZones(d.zones, Attribute(token, "name"), z.0);
      (d.(zones := Continued(d.zones, Attribute(token, "name"), z.0)), true, z.1)
    else if token.Start? && token.name == "sideboard_plan" then
      var p := ReadPlan(Next(c), Plan("", []));
      (if p.1 then d.(plans := d.plans[p.0.name := p.0.moves]) else d, true, p.2)
    else
      (d, token != End("cockatrice_deck"), Next(c))
  }

  function ReadElements(c: Cursor, d: Deck): (r: (Deck, Cursor))
    requires ZonesOnly(d)
    ensures |r.1.rest| <= |c.rest| && ZonesOnly(r.0)
    decreases |c.rest|
  {
    if AtEnd(c) then (d, c)
    else
      var r := ReadElement(c, d);
      if r.1 then ReadElements(r.2, r.0) else (r.0, r.2)
  }

  /** loadFromXml after the list was emptied; false for a foreign root element or a reader error. */
  function ReadDocument(c: Cursor, d: Deck): (r: (Deck, bool))
    requires ZonesOnly(d)
    ensures ZonesOnly(r.0)
    decreases |c.rest|
  {
    if AtEnd(c) then (d, !c.failed)
    else if !c.rest[0].Start? then ReadDocument(Next(c), d)
    else if c.rest[0].name != "cockatrice_deck" then (d, false)
    else
      var r := ReadElements(Next(c), d);
      ReadDocument(r.1, r.0)
  }

  /** cleanList: the sideboard plans stay. */
  function Cleaned(d: Deck): (c: Deck)
    ensures ZonesOnly(c)
  {
    Deck("", "", [], d.plans)
  }

  // ------------------------------------------------------------------ round trips

  /** Every number in the tree fits 32 bits, as an int does. */
  predicate Fits(tree: Tree)
    decreases tree
  {
    match tree
    case Zone(_, children) => AllFit(children)
    case Card(_, number) => MIN_INT <= number <= MAX_INT
  }

  predicate AllFit(trees: seq<Tree>)
    decreases trees
  {
    trees == [] || (Fits(trees[0]) && AllFit(trees[1..]))
  }

  lemma TextRoundTrip(name: string, text: string, tail: seq<Token>)
    ensures var c := Cursor(TextElement(name, text) + tail, false);
            c.rest[0] == Start(name, map[]) && ReadText(Next(c), "") == (text, Cursor(tail, false))
  {
    var c := Cursor(TextElement(name, text) + tail, false);
    if text == "" {
      assert Next(c).rest == [End(name)] + tail;
    } else {
      assert Next(c).rest == [Text(text), End(name)] + tail;
      assert Next(Next(c)).rest == [End(name)] + tail;
      assert "" + text == text;
    }
    assert ([End(name)] + tail)[1..] == tail;
  }

  lemma CardRoundTrip(card: Tree, tail: seq<Token>, soFar: seq<Tree>)
    requires card.Card? && Fits(card)
    ensures ReadZone(Cursor(Written(card) + tail, false), soFar) == ReadZone(Cursor(tail, false), soFar + [card])
  {
    var c := Cursor(Written(card) + tail, false);
    PrintThenRead(card.number);
    assert Next(c).rest == [End("card")] + tail;
    assert SkipCard(Next(c)).rest == tail;
  }

  /** Reading what was written of some trees appends just those trees, and goes on after them. */
  lemma {:induction false} TreesRoundTrip(trees: seq<Tree>, tail: seq<Token>, soFar: seq<Tree>)
    requires AllFit(trees)
    ensures ReadZone(Cursor(WrittenAll(trees) + tail, false), soFar) == ReadZone(Cursor(tail, false), soFar + trees)
    decreases trees
  {
    if trees == [] {
      assert WrittenAll(trees) + tail == tail && soFar + trees == soFar;
    } else {
      var first, rest := trees[0], WrittenAll(trees[1..]) + tail;
      assert WrittenAll(trees) + tail == Written(first) + rest;
      match first {
        case Card(_, _) => CardRoundTrip(first, rest, soFar);
        case Zone(_, children) =>
          ZoneRoundTrip(first, rest);
          var c := Cursor(Written(first) + rest, false);
          assert c.rest[0] == Start("zone", map["name" := first.name]);
      }
      TreesRoundTrip(trees[1..], tail, soFar + [first]);
      assert soFar + [first] + trees[1..] == soFar + trees;
    }
  }

  /** Past a zone's start tag the reader finds its children and stops behind its end tag. */
  lemma {:induction false} ZoneRoundTrip(zone: Tree, tail: seq<Token>)
    requires zone.Zone? && Fits(zone)
    ensures var c := Cursor(Written(zone) + tail, false);
            && c.rest[0] == Start("zone", map["name" := zone.name])
            && ReadZone(Next(c), []) == (zone.children, Cursor(tail, false))
    decreases zone, 0
  {
    hide WrittenAll; hide SkipCard; hide ToInt;
    var c := Cursor(Written(zone) + tail, false);
    assert Next(c).rest == WrittenAll(zone.children) + ([End("zone")] + tail);
    TreesRoundTrip(zone.children, [End("zone")] + tail, []);
    assert [] + zone.children == zone.children;
    assert ([End("zone")] + tail)[1..] == tail;
  }

  lemma MoveRoundTrip(m: Move, tail: seq<Token>)
    ensures var c := Cursor(WrittenMove(m) + tail, false);
            && c.rest[0] == Start("move_card_to_zone", map[])
            && ReadMove(Next(c), Move("", "", "")) == (m, true, Cursor(tail, false))
  {
    var t3 := [End("move_card_to_zone")] + tail;
    var t2 := TextElement("target_zone", m.targetZone) + t3;
    var t1 := TextElement("start_zone", m.startZone) + t2;
    var t0 := TextElement("card_name", m.cardName) + t1;
    var c := Cursor(WrittenMove(m) + tail, false);
    assert Next(c).rest == t0;
    TextRoundTrip("card_name", m.cardName, t1);
    assert ReadMove(Cursor(t0, false), Move("", "", "")) == ReadMove(Cursor(t1, false), Move(m.cardName, "", ""));
    TextRoundTrip("start_zone", m.startZone, t2);
    assert ReadMove(Cursor(t1, false), Move(m.cardName, "", "")) == ReadMove(Cursor(t2, false), m.(targetZone := ""));
    TextRoundTrip("target_zone", m.targetZone, t3);
    assert ReadMove(Cursor(t2, false), m.(targetZone := "")) == ReadMove(Cursor(t3, false), m);
    assert t3[1..] == tail;
  }

  lemma OneMove(c: Cursor, m: Move, after: Cursor, p: Plan)
    requires !AtEnd(c) && c.rest[0] == Start("move_card_to_zone", map[])
    requires ReadMove(Next(c), Move("", "", "")) == (m, true, after)
    ensures ReadPlan(c, p) == ReadPlan(after, p.(moves := p.moves + [m]))
  {
    hide ReadMove; hide ReadText;
  }

  lemma {:induction false} MovesRoundTrip(moves: seq<Move>, tail: seq<Token>, p: Plan)
    ensures ReadPlan(Cursor(WrittenMoves(moves) + tail, false), p) == ReadPlan(Cursor(tail, false), p.(moves := p.moves + moves))
    decreases |moves|
  {
    hide ReadMove; hide ReadText; hide WrittenMove;
    if moves == [] {
      assert WrittenMoves(moves) + tail == tail && p.moves + moves == p.moves;
    } else {
      var rest := WrittenMoves(moves[1..]) + tail;
      assert WrittenMoves(moves) + tail == WrittenMove(moves[0]) + rest;
      MoveRoundTrip(moves[0], rest);
      OneMove(Cursor(WrittenMove(moves[0]) + rest, false), moves[0], Cursor(rest, false), p);
      MovesRoundTrip(moves[1..], tail, p.(moves := p.moves + [moves[0]]));
      assert p.moves + [moves[0]] + moves[1..] == p.moves + moves;
    }
  }

  lemma PlanRoundTrip(name: string, moves: seq<Move>, tail: seq<Token>)
    ensures var c := Cursor(WrittenPlan(name, moves) + tail, false);
            && c.rest[0] == Start("sideboard_plan", map[])
            && ReadPlan(Next(c), Plan("", [])) == (Plan(name, moves), true, Cursor(tail, false))
  {
    var t2 := [End("sideboard_plan")] + tail;
    var t1 := WrittenMoves(moves) + t2;
    var t0 := TextElement("name", name) + t1;
    var c := Cursor(WrittenPlan(name, moves) + tail, false);
    assert Next(c).rest == t0;
    TextRoundTrip("name", name, t1);
    assert ReadPlan(Cursor(t0, false), Plan("", [])) == ReadPlan(Cursor(t1, false), Plan(name, []));
    MovesRoundTrip(moves, t2, Plan(name, []));
    assert [] + moves == moves;
    assert t2[1..] == tail;
  }

  // ------------------------------------------------------------------ the whole deck

  /** The zones one after the other, each continuing an earlier one of its name. */
  function Merged(soFar: seq<Tree>, zones: seq<Tree>): (m: seq<Tree>)
    requires (forall z :: z in soFar ==> z.Zone?) && (forall z :: z in zones ==> z.Zone?)
    ensures forall z :: z in m ==> z.Zone?
    decreases |zones|
  {
    if zones == [] then soFar
    else
      ContinuedZones(soFar, zones[0].name, zones[0].children);
      Merged(Continued(soFar, zones[0].name, zones[0].children), zones[1..])
  }

  predicate DistinctNames(zones: seq<Tree>)
  {
    forall i, j :: 0 <= i < j < |zones| ==> zones[i].name != zones[j].name
  }

  lemma {:induction false} ContinuedNew(zones: seq<Tree>, name: string, children: seq<Tree>)
    requires forall z :: z in zones ==> z.Zone? && z.name != name
    ensures Continued(zones, name, children) == zones + [Zone(name, children)]
  {
    if zones != [] {
      ContinuedNew(zones[1..], name, children);
    }
  }

  lemma {:induction false} MergedDistinct(soFar: seq<Tree>, zones: seq<Tree>)
    requires (forall z :: z in soFar ==> z.Zone?) && (forall z :: z in zones ==> z.Zone?)
    requires DistinctNames(soFar + zones)
    ensures Merged(soFar, zones) == soFar + zones
    decreases |zones|
  {
    if zones == [] {
      assert soFar + zones == soFar;
    } else {
      forall z | z in soFar
        ensures z.name != zones[0].name
      {
        var i :| 0 <= i < |soFar| && soFar[i] == z;
        assert (soFar + zones)[i] == z && (soFar + zones)[|soFar|] == zones[0];
      }
      ContinuedNew(soFar, zones[0].name, zones[0].children);
      assert Zone(zones[0].name, zones[0].children) == zones[0];
      assert soFar + [zones[0]] + zones[1..] == soFar + zones;
      MergedDistinct(soFar + [zones[0]], zones[1..]);
    }
  }

  lemma {:induction false} ZonesRoundTrip(zones: seq<Tree>, tail: seq<Token>, d: Deck)
    requires AllFit(zones) && (forall z :: z in zones ==> z.Zone?) && ZonesOnly(d)
    ensures ZonesOnly(d.(zones := Merged(d.zones, zones)))
    ensures ReadElements(Cursor(WrittenAll(zones) + tail, false), d)
         == ReadElements(Cursor(tail, false), d.(zones := Merged(d.zones, zones)))
    decreases |zones|
  {
    if zones == [] {
      assert WrittenAll(zones) + tail == tail;
    } else {
      var rest := WrittenAll(zones[1..]) + tail;
      var c := Cursor(Written(zones[0]) + rest, false);
      assert WrittenAll(zones) + tail == c.rest;
      ZoneRoundTrip(zones[0], rest);
      ContinuedZones(d.zones, zones[0].name, zones[0].children);
      ZonesRoundTrip(zones[1..], tail, d.(zones := Continued(d.zones, zones[0].name, zones[0].children)));
    }
  }

  function Added(plans: map<string, seq<Move>>, more: map<string, seq<Move>>, keys: seq<string>): map<string, seq<Move>>
    requires forall k :: k in keys ==> k in more
    decreases |keys|
  {
    if keys == [] then plans
    else Added(plans[keys[0] := more[keys[0]]], more, keys[1..])
  }

  lemma {:induction false} AddedAll(plans: map<string, seq<Move>>, more: map<string, seq<Move>>, keys: seq<string>)
    requires forall k :: k in keys ==> k in more
    ensures var a := Added(plans, more, keys);
            && (forall k :: k in a <==> k in plans || k in keys)
            && (forall k :: k in a ==> a[k] == if k in keys then more[k] else plans[k])
    decreases |keys|
  {
    if keys != [] {
      AddedAll(plans[keys[0] := more[keys[0]]], more, keys[1..]);
      assert forall k :: k in keys <==> k == keys[0] || k in keys[1..];
    }
  }

  lemma {:induction false} PlansRoundTrip(more: map<string, seq<Move>>, keys: seq<string>, tail: seq<Token>, d: Deck)
    requires (forall k :: k in keys ==> k in more) && ZonesOnly(d)
    ensures ReadElements(Cursor(WrittenPlans(more, keys) + tail, false), d)
         == ReadElements(Cursor(tail, false), d.(plans := Added(d.plans, more, keys)))
    decreases |keys|
  {
    if keys == [] {
      assert WrittenPlans(more, keys) + tail == tail;
    } else {
      var rest := WrittenPlans(more, keys[1..]) + tail;
      var c := Cursor(WrittenPlan(keys[0], more[keys[0]]) + rest, false);
      assert WrittenPlans(more, keys) + tail == c.rest;
      PlanRoundTrip(keys[0], more[keys[0]], rest);
      PlansRoundTrip(more, keys[1..], tail, d.(plans := d.plans[keys[0] := more[keys[0]]]));
    }
  }

  lemma HeadRoundTrip(d: Deck, tail: seq<Token>, d0: Deck)
    requires ZonesOnly(d0)
    ensures ReadElements(Cursor(TextElement("deckname", d.name) + (TextElement("comments", d.comments) + tail), false), d0)
         == ReadElements(Cursor(tail, false), d0.(name := d.name, comments := d.comments))
  {
    hide ReadZone; hide ReadPlan; hide ReadText; hide TextElement;
    var t1 := TextElement("comments", d.comments) + tail;
    var d1 := d0.(name := d.name);
    TextRoundTrip("deckname", d.name, t1);
    assert ReadElements(Cursor(TextElement("deckname", d.name) + t1, false), d0) == ReadElements(Cursor(t1, false), d1);
    TextRoundTrip("comments", d.comments, tail);
  }

  lemma BodyRoundTrip(d: Deck, keys: seq<string>, tail: seq<Token>, d0: Deck)
    requires ZonesOnly(d) && AllFit(d.zones) && (forall k :: k in keys <==> k in d.plans) && d0.zones == []
    ensures ReadElements(Cursor(WrittenAll(d.zones) + (WrittenPlans(d.plans, keys) + ([End("cockatrice_deck")] + tail)), false), d0)
         == (d0.(zones := Merged([], d.zones), plans := d0.plans + d.plans), Cursor(tail, false))
  {
    hide ReadZone; hide ReadPlan; hide ReadText; hide WrittenAll; hide WrittenPlans; hide Merged; hide Added; hide AllFit;
    var t4 := [End("cockatrice_deck")] + tail;
    ZonesRoundTrip(d.zones, WrittenPlans(d.plans, keys) + t4, d0);
    var d3 := d0.(zones := Merged([], d.zones));
    PlansRoundTrip(d.plans, keys, t4, d3);
    AddedAll(d0.plans, d.plans, keys);
    assert Added(d0.plans, d.plans, keys) == d0.plans + d.plans;
    assert t4[1..] == tail;
  }

  /**
   A written deck, read into a list in use: its name, comments and merged zones take the place of
   what was there, but sideboard plans of the old list survive unless the deck has one of their name.
   */
  lemma DocumentRoundTrip(d: Deck, keys: seq<string>, before: Deck)
    requires ZonesOnly(d) && AllFit(d.zones) && forall k :: k in keys <==> k in d.plans
    ensures ReadDocument(Cursor([Aside] + WrittenDeck(d, keys) + [Aside], false), Cleaned(before))
         == (Deck(d.name, d.comments, Merged([], d.zones), before.plans + d.plans), true)
  {
    hide ReadElements; hide TextElement; hide WrittenAll; hide WrittenPlans; hide Merged;
    var t3 := WrittenPlans(d.plans, keys) + ([End("cockatrice_deck")] + [Aside]);
    var t2 := WrittenAll(d.zones) + t3;
    var t0 := TextElement("deckname", d.name) + (TextElement("comments", d.comments) + t2);
    var c := Cursor([Aside] + WrittenDeck(d, keys) + [Aside], false);
    assert c.rest == [Aside, Start("cockatrice_deck", map["version" := "1"])] + t0;
    assert Next(Next(c)).rest == t0;
    HeadRoundTrip(d, t2, Cleaned(before));
    BodyRoundTrip(d, keys, [Aside], Cleaned(before).(name := d.name, comments := d.comments));
    var r := Deck(d.name, d.comments, Merged([], d.zones), before.plans + d.plans);
    assert ReadElements(Cursor(t0, false), Cleaned(before)) == (r, Cursor([Aside], false));
    assert ReadDocument(c, Cleaned(before)) == ReadDocument(Next(c), Cleaned(before));
    assert ReadDocument(Next(c), Cleaned(before)) == ReadDocument(Cursor([Aside], false), r);
    assert Next(Cursor([Aside], false)).rest == [];
  }

  lemma {:induction false} ContinuedDistinct(zones: seq<Tree>, name: string, children: seq<Tree>)
    requires (forall z :: z in zones ==> z.Zone?) && DistinctNames(zones)
    ensures DistinctNames(Continued(zones, name, children))
    ensures forall z :: z in Continued(zones, name, children) ==> z.name == name || exists y :: y in zones && y.name == z.name
  {
    if zones != [] && zones[0].name != name {
      ContinuedDistinct(zones[1..], name, children);
      var rest := Continued(zones[1..], name, children);
      forall z | z in rest
        ensures z.name != zones[0].name
        ensures z.name == name || exists y :: y in zones && y.name == z.name
      {
        if z.name != name {
          var y :| y in zones[1..] && y.name == z.name;
          var i :| 0 <= i < |zones[1..]| && zones[1..][i] == y;
          assert zones[i + 1] == y;
        }
      }
    }
  }

  lemma {:induction false} MergedNames(soFar: seq<Tree>, zones: seq<Tree>)
    requires (forall z :: z in soFar ==> z.Zone?) && (forall z :: z in zones ==> z.Zone?) && DistinctNames(soFar)
    ensures DistinctNames(Merged(soFar, zones))
    decreases |zones|
  {
    if zones != [] {
      ContinuedDistinct(soFar, zones[0].name, zones[0].children);
      ContinuedZones(soFar, zones[0].name, zones[0].children);
      MergedNames(Continued(soFar, zones[0].name, zones[0].children), zones[1..]);
    }
  }

  /**
   Writing a deck and reading the tokens into an empty list gives the deck back exactly when its
   top-level zones have distinct names; otherwise zones of one name come back as one.
   */
  lemma RoundTripIff(d: Deck, keys: seq<string>)
    requires ZonesOnly(d) && AllFit(d.zones) && forall k :: k in keys <==> k in d.plans
    ensures ReadDocument(Cursor([Aside] + WrittenDeck(d, keys) + [Aside], false), EMPTY) == (d, true)
            <==> DistinctNames(d.zones)
  {
    hide ReadDocument; hide WrittenDeck; hide Merged;
    DocumentRoundTrip(d, keys, EMPTY);
    assert Cleaned(EMPTY) == EMPTY;
    assert map[] + d.plans == d.plans;
    MergedNames([], d.zones);
    if DistinctNames(d.zones) {
      assert [] + d.zones == d.zones;
      MergedDistinct([], d.zones);
    }
  }
}

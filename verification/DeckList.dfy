/** The deck list object: its tree is read, edited and hashed in place. */
module DeckLists {
  import opened Decimal
  import opened DeckXml
  import opened DeckHash
  import opened DeckEdit

  class XmlReader {
    var rest: seq<Token>
    var failed: bool

    constructor (tokens: seq<Token>)
      ensures Here() == Cursor(tokens, false)
    {
      rest, failed := tokens, false;
    }

    function Here(): Cursor
      reads this
    {
      Cursor(rest, failed)
    }

    method ReadNext() returns (token: Token)
      requires !AtEnd(Here())
      modifies this
      ensures token == old(rest[0]) && Here() == Next(old(Here()))
    {
      token := rest[0];
      rest := rest[1..];
    }

    method ReadElementText() returns (text: string)
      requires !failed
      modifies this
      ensures (text, Here()) == ReadText(old(Here()), "")
    {
      text := "";
      ghost var start := Here();
      while true
        invariant !failed && ReadText(Here(), text) == ReadText(start, "")
        decreases |rest|
      {
        if rest == [] {
          failed := true;
          return;
        }
        match rest[0] {
          case Start(_, _) =>
            failed := true;
            return;
          case End(_) =>
            rest := rest[1..];
            return;
          case Text(more) =>
            text := text + more;
            rest := rest[1..];
          case Aside =>
            rest := rest[1..];
        }
      }
    }

    /** The readElement of a card. */
    method SkipCardElement()
      modifies this
      ensures Here() == SkipCard(old(Here()))
    {
      ghost var start := Here();
      while !failed && rest != []
        invariant SkipCard(Here()) == SkipCard(start)
        decreases |rest|
      {
        var token := ReadNext();
        if token == End("card") {
          return;
        }
      }
    }
  }

  class XmlWriter {
    var out: seq<Token>

    constructor ()
      ensures out == []
    {
      out := [];
    }

    method WriteTextElement(name: string, text: string)
      modifies this
      ensures out == old(out) + TextElement(name, text)
    {
      out := out + [Start(name, map[])];
      if text != "" {
        out := out + [Text(text)];
      }
      out := out + [End(name)];
    }

    /** The writeElement of zones and cards. */
    method WriteNode(n: Node)
      modifies this
      ensures out == old(out) + Written(Plain(n))
      decreases n
    {
      match n {
        case Leaf(_, name, number) =>
          out := out + [Start("card", map["number" := Print(number), "name" := name]), End("card")];
        case Inner(_, name, children) =>
          out := out + [Start("zone", map["name" := name])];
          WriteNodes(children);
          out := out + [End("zone")];
      }
    }

    method WriteNodes(ns: seq<Node>)
      modifies this
      ensures out == old(out) + WrittenAll(PlainAll(ns))
      decreases ns
    {
      ghost var trees := PlainAll(ns);
      assert trees[..0] == [] && WrittenAll([]) == [];
      for i := 0 to |ns|
        invariant out == old(out) + WrittenAll(trees[..i])
      {
        WriteNode(ns[i]);
        assert trees[..i + 1] == trees[..i] + [trees[i]];
        WrittenParts(trees[..i], [trees[i]]);
        assert [trees[i]][1..] == [] && Written(trees[i]) + [] == Written(trees[i]);
      }
      assert trees[..|trees|] == trees;
    }

    /** SideboardPlan::write. */
    method WritePlan(name: string, moves: seq<Move>)
      modifies this
      ensures out == old(out) + WrittenPlan(name, moves)
    {
      hide TextElement; hide WrittenMoves; hide WrittenMove;
      out := out + [Start("sideboard_plan", map[])];
      WriteTextElement("name", name);
      WriteMoves(moves);
      out := out + [End("sideboard_plan")];
    }

    method WriteMoves(moves: seq<Move>)
      modifies this
      ensures out == old(out) + WrittenMoves(moves)
    {
      hide WrittenMoves; hide WrittenMove;
      NoMoves(moves);
      for i := 0 to |moves|
        invariant out == old(out) + WrittenMoves(moves[..i])
      {
        WriteMove(moves[i]);
        assert moves[..i + 1] == moves[..i] + [moves[i]];
        MovesParts(moves[..i], moves[i]);
      }
      assert moves[..|moves|] == moves;
    }

    method WriteMove(m: Move)
      modifies this
      ensures out == old(out) + WrittenMove(m)
    {
      hide TextElement;
      out := out + [Start("move_card_to_zone", map[])];
      WriteTextElement("card_name", m.cardName);
      WriteTextElement("start_zone", m.startZone);
      WriteTextElement("target_zone", m.targetZone);
      out := out + [End("move_card_to_zone")];
    }
  }

  lemma {:induction false} WrittenParts(a: seq<Tree>, b: seq<Tree>)
    ensures WrittenAll(a + b) == WrittenAll(a) + WrittenAll(b)
  {
    hide Written;
    if a == [] {
      assert a + b == b;
    } else {
      WrittenParts(a[1..], b);
      assert (a + b)[0] == a[0] && (a + b)[1..] == a[1..] + b;
      assert WrittenAll(a + b) == Written(a[0]) + (WrittenAll(a[1..]) + WrittenAll(b));
    }
  }

  lemma NoMoves(moves: seq<Move>)
    ensures WrittenMoves(moves[..0]) == []
  {
  }

  lemma {:induction false} MovesParts(moves: seq<Move>, m: Move)
    ensures WrittenMoves(moves + [m]) == WrittenMoves(moves) + WrittenMove(m)
  {
    hide WrittenMove;
    if moves == [] {
      assert [] + [m] == [m] && [m][1..] == [];
      assert WrittenMove(m) + [] == WrittenMove(m);
    } else {
      MovesParts(moves[1..], m);
      assert (moves + [m])[0] == moves[0] && (moves + [m])[1..] == moves[1..] + [m];
      assert WrittenMoves(moves + [m]) == WrittenMove(moves[0]) + (WrittenMoves(moves[1..]) + WrittenMove(m));
    }
  }

  // ------------------------------------------------------------------ trees that grow

  lemma PlainParts(a: seq<Node>, b: seq<Node>)
    ensures PlainAll(a + b) == PlainAll(a) + PlainAll(b)
  {
    hide Plain; hide PlainAll;
    var whole := PlainAll(a) + PlainAll(b);
    assert forall i :: 0 <= i < |a + b| ==> whole[i] == Plain((a + b)[i]);
    assert PlainAll(a + b) == whole;
  }

  /** All identities in use are ones given out from `low` up to below `high`. */
  predicate Within(ns: seq<Node>, low: int, high: int)
  {
    forall id :: id in Ids(ns) ==> low <= id < high
  }

  lemma OneUnique(n: Node)
    requires UniqueNode(n)
    ensures Unique([n])
  {
    assert [n][1..] == [] && Nodes([]) == [] && Ids([]) == {};
  }

  lemma Appended(ns: seq<Node>, n: Node, low: int, middle: int, high: int)
    requires Unique(ns) && Within(ns, low, middle) && low <= middle <= n.id < high
    requires n.Inner? ==> Unique(n.children) && Within(n.children, n.id + 1, high)
    ensures Unique(ns + [n]) && Within(ns + [n], low, high)
    ensures PlainAll(ns + [n]) == PlainAll(ns) + [Plain(n)]
  {
    OneNode(n);
    LeafIds(n);
    if n.Inner? {
      IdsBelow(n);
    }
    OneUnique(n);
    NodesParts(ns, [n]);
    UniqueTogether(ns, [n]);
    PlainParts(ns, [n]);
    assert PlainAll([n]) == [Plain(n)];
  }

  lemma {:induction false} ContinuedUnique(ns: seq<Node>, name: string, children: seq<Node>, id: int)
    requires (forall n :: n in ns ==> n.Inner?) && Unique(ns) && Unique(children)
    requires id !in Ids(ns) && id !in Ids(children) && Ids(ns) !! Ids(children)
    ensures var t := ContinuedNodes(ns, name, children, id);
            && (forall n :: n in t ==> n.Inner?) && Unique(t) && Ids(t) <= Ids(ns) + {id} + Ids(children)
  {
    hide NodesOf; hide IdsOf; hide Ids; hide Nodes;
    if ns == [] {
      OneUnique(Inner(id, name, children));
      OneNode(Inner(id, name, children));
      IdsBelow(Inner(id, name, children));
    } else {
      IdsHead(ns);
      IdsBelow(ns[0]);
      var t := ContinuedNodes(ns, name, children, id);
      IdsHead(t);
      if ns[0].name == name {
        NodesParts(ns[0].children, children);
        UniqueTogether(ns[0].children, children);
        IdsBelow(t[0]);
        assert t[1..] == ns[1..];
      } else {
        ContinuedUnique(ns[1..], name, children, id);
        assert t[1..] == ContinuedNodes(ns[1..], name, children, id);
      }
    }
  }

  lemma {:induction false} ContinuedPlain(ns: seq<Node>, name: string, children: seq<Node>, id: int)
    requires forall n :: n in ns ==> n.Inner?
    ensures forall z :: z in PlainAll(ns) ==> z.Zone?
    ensures PlainAll(ContinuedNodes(ns, name, children, id)) == Continued(PlainAll(ns), name, PlainAll(children))
  {
    InnerArePlainZones(ns);
    if ns != [] {
      assert PlainAll(ns)[1..] == PlainAll(ns[1..]);
      if ns[0].name == name {
        PlainParts(ns[0].children, children);
        var t := ContinuedNodes(ns, name, children, id);
        assert t[1..] == ns[1..];
      } else {
        ContinuedPlain(ns[1..], name, children, id);
        assert ([ns[0]] + ContinuedNodes(ns[1..], name, children, id))[1..] == ContinuedNodes(ns[1..], name, children, id);
      }
    } else {
      assert [Inner(id, name, children)][1..] == [];
    }
  }

  lemma InnerArePlainZones(ns: seq<Node>)
    requires forall n :: n in ns ==> n.Inner?
    ensures forall z :: z in PlainAll(ns) ==> z.Zone?
  {
  }

  lemma NoZones(lower: string -> string)
    ensures Hashable([]) && CardList([], lower) == [] && ValidDeck([])
  {
  }

  lemma ZoneAdded(zones: seq<Tree>, i: nat, lower: string -> string)
    requires Hashable(zones) && i < |zones|
    ensures zones[i].Zone? && Hashable(zones[..i]) && Hashable(zones[..i + 1])
    ensures Hashed(zones[i].name) ==> forall t :: t in zones[i].children ==> t.Card?
    ensures CardList(zones[..i + 1], lower)
         == CardList(zones[..i], lower)
            + if Hashed(zones[i].name) then RowEntries(zones[i].name, zones[i].children, lower) else []
    ensures ValidDeck(zones[..i + 1]) <==> ValidDeck(zones[..i]) && ValidZone(zones[i])
  {
    assert zones[..i + 1] == zones[..i] + [zones[i]];
    assert zones[..i + 1][..i] == zones[..i];
    assert zones[i] in zones;
    assert forall z :: z in zones[..i + 1] <==> z in zones[..i] || z == zones[i];
  }

  // ------------------------------------------------------------------ the deck list

  class DeckList {
    const lower: string -> string
    const digest: string -> Digest
    var name: string
    var comments: string
    var root: seq<Node>
    var sideboardPlans: map<string, seq<Move>>
    var deckHash: string
    var nextId: int

    ghost predicate Valid()
      reads this
    {
      nextId >= 0 && Unique(root) && Within(root, 0, nextId) && forall n :: n in root ==> n.Inner?
    }

    /** The deck that is held, whatever its nodes' identities. */
    function View(): Deck
      reads this
    {
      Deck(name, comments, PlainAll(root), sideboardPlans)
    }

    constructor (lower: string -> string, digest: string -> Digest)
      ensures Valid() && View() == EMPTY && this.lower == lower && this.digest == digest
    {
      this.lower, this.digest := lower, digest;
      name, comments, root, sideboardPlans, deckHash, nextId := "", "", [], map[], "", 0;
    }

    // ---------------------------------------------------------------- reading

    method ReadZoneElement(xml: XmlReader) returns (children: seq<Node>)
      requires nextId >= 0
      modifies this`nextId, xml
      ensures (PlainAll(children), xml.Here()) == ReadZone(old(xml.Here()), [])
      ensures old(nextId) <= nextId && Unique(children) && Within(children, old(nextId), nextId)
      decreases |xml.rest|
    {
      children := [];
      ghost var start := xml.Here();
      while !xml.failed && xml.rest != []
        invariant 0 <= old(nextId) <= nextId && Unique(children) && Within(children, old(nextId), nextId)
        invariant ReadZone(xml.Here(), PlainAll(children)) == ReadZone(start, [])
        invariant |xml.rest| <= |start.rest|
        decreases |xml.rest|
      {
        var token := xml.ReadNext();
        var id := nextId;
        if token.Start? && token.name == "zone" {
          nextId := nextId + 1;
          var inner := ReadZoneElement(xml);
          var n := Inner(id, Attribute(token, "name"), inner);
          Appended(children, n, old(nextId), id, nextId);
          children := children + [n];
        } else if token.Start? && token.name == "card" {
          nextId := nextId + 1;
          xml.SkipCardElement();
          var n := Leaf(id, Attribute(token, "name"), ToInt(Attribute(token, "number")));
          Appended(children, n, old(nextId), id, nextId);
          children := children + [n];
        } else if token == End("zone") {
          return;
        }
      }
    }

    /** getZoneObjFromName and what is appended to the zone it gives. */
    method ContinueZone(zoneName: string, children: seq<Node>, id: int)
      requires forall n :: n in root ==> n.Inner?
      modifies this`root
      ensures root == ContinuedNodes(old(root), zoneName, children, id)
    {
      hide Unique; hide Plain; hide PlainAll;
      var before := root;
      for i := 0 to |before|
        invariant root == before
        invariant ContinuedNodes(before, zoneName, children, id)
               == before[..i] + ContinuedNodes(before[i..], zoneName, children, id)
      {
        if before[i].name == zoneName {
          root := before[i := before[i].(children := before[i].children + children)];
          assert root == before[..i] + ([root[i]] + before[i..][1..]);
          return;
        }
        assert before[i..][1..] == before[i + 1..];
        assert before[..i + 1] == before[..i] + [before[i]];
      }
      root := before + [Inner(id, zoneName, children)];
      assert before[..|before|] == before;
    }

    method ReadTopZone(xml: XmlReader, zoneName: string)
      requires Valid()
      modifies this`root, this`nextId, xml
      ensures Valid() && (forall z :: z in old(PlainAll(root)) ==> z.Zone?)
      ensures var z := ReadZone(old(xml.Here()), []);
              xml.Here() == z.1 && PlainAll(root) == Continued(old(PlainAll(root)), zoneName, z.0)
    {
      hide ReadZone; hide Unique; hide ContinuedNodes; hide Continued;
      var id := nextId;
      nextId := nextId + 1;
      var children := ReadZoneElement(xml);
      ContinuedUnique(root, zoneName, children, id);
      ContinuedPlain(root, zoneName, children, id);
      ContinueZone(zoneName, children, id);
    }

    method ReadDeckElement(xml: XmlReader) returns (goOn: bool)
      requires Valid() && !AtEnd(xml.Here())
      modifies this, xml
      ensures Valid() && deckHash == old(deckHash) && ZonesOnly(old(View()))
      ensures (View(), goOn, xml.Here()) == ReadElement(old(xml.Here()), old(View()))
    {
      hide ReadZone; hide ReadPlan; hide ReadText; hide Unique; hide Within; hide Continued;
      InnerArePlainZones(root);
      var token := xml.ReadNext();
      goOn := true;
      if token.Start? && token.name == "deckname" {
        name := xml.ReadElementText();
      } else if token.Start? && token.name == "comments" {
        comments := xml.ReadElementText();
      } else if token.Start? && token.name == "zone" {
        ReadTopZone(xml, Attribute(token, "name"));
      } else if token.Start? && token.name == "sideboard_plan" {
        var p, found := ReadPlanElement(xml);
        if found {
          sideboardPlans := sideboardPlans[p.name := p.moves];
        }
      } else if token == End("cockatrice_deck") {
        goOn := false;
      }
    }

    method ReadPlanElement(xml: XmlReader) returns (p: Plan, found: bool)
      modifies xml
      ensures (p, found, xml.Here()) == ReadPlan(old(xml.Here()), Plan("", []))
    {
      p := Plan("", []);
      ghost var start := xml.Here();
      while !xml.failed && xml.rest != []
        invariant ReadPlan(xml.Here(), p) == ReadPlan(start, Plan("", []))
        decreases |xml.rest|
      {
        var token := xml.ReadNext();
        if token.Start? && token.name == "name" {
          var text := xml.ReadElementText();
          p := p.(name := text);
        } else if token.Start? && token.name == "move_card_to_zone" {
          var m, complete := ReadMoveElement(xml);
          if complete {
            p := p.(moves := p.moves + [m]);
          }
        } else if token == End("sideboard_plan") {
          return p, true;
        }
      }
      found := false;
    }

    method ReadMoveElement(xml: XmlReader) returns (m: Move, complete: bool)
      modifies xml
      ensures (m, complete, xml.Here()) == ReadMove(old(xml.Here()), Move("", "", ""))
    {
      m := Move("", "", "");
      ghost var start := xml.Here();
      while !xml.failed && xml.rest != []
        invariant ReadMove(xml.Here(), m) == ReadMove(start, Move("", "", ""))
        decreases |xml.rest|
      {
        var token := xml.ReadNext();
        if token.Start? && token.name == "card_name" {
          var text := xml.ReadElementText();
          m := m.(cardName := text);
        } else if token.Start? && token.name == "start_zone" {
          var text := xml.ReadElementText();
          m := m.(startZone := text);
        } else if token.Start? && token.name == "target_zone" {
          var text := xml.ReadElementText();
          m := m.(targetZone := text);
        } else if token == End("move_card_to_zone") {
          return m, true;
        }
      }
      complete := false;
    }

    method CleanList()
      modifies this
      ensures Valid() && View() == Cleaned(old(View())) && nextId == 0
    {
      name, comments, root, deckHash, nextId := "", "", [], "", 0;
    }

    /** The inner loop of loadFromXml. */
    method ReadDeckElements(xml: XmlReader)
      requires Valid()
      modifies this, xml
      ensures Valid() && ZonesOnly(old(View())) && (View(), xml.Here()) == ReadElements(old(xml.Here()), old(View()))
    {
      InnerArePlainZones(root);
      ghost var start, before := xml.Here(), View();
      while !xml.failed && xml.rest != []
        invariant Valid() && ZonesOnly(before) && ZonesOnly(View())
        invariant ReadElements(xml.Here(), View()) == ReadElements(start, before)
        decreases |xml.rest|
      {
        var goOn := ReadDeckElement(xml);
        if !goOn {
          return;
        }
      }
    }

    /** Reads a deck; what a nested zone inside library or crypt would do to the hash is excluded. */
    method LoadFromXml(xml: XmlReader) returns (ok: bool)
      requires Valid() && (!xml.failed ==> Hashable(ReadDocument(xml.Here(), Cleaned(View())).0.zones))
      modifies this, xml
      ensures Valid()
      ensures old(xml.failed) ==> !ok && View() == old(View()) && deckHash == old(deckHash) && xml.Here() == old(xml.Here())
      ensures !old(xml.failed) ==> (View(), ok) == ReadDocument(old(xml.Here()), Cleaned(old(View())))
      ensures ok ==> Hashable(View().zones) && deckHash == Hash(View().zones, lower, digest)
    {
      if xml.failed {
        return false;
      }
      ghost var start, before := xml.Here(), Cleaned(View());
      CleanList();
      while !xml.failed && xml.rest != []
        invariant Valid() && ZonesOnly(View())
        invariant ReadDocument(xml.Here(), View()) == ReadDocument(start, before)
        decreases |xml.rest|
      {
        var token := xml.ReadNext();
        if token.Start? {
          if token.name != "cockatrice_deck" {
            return false;
          }
          ReadDeckElements(xml);
          InnerArePlainZones(root);
        }
      }
      UpdateDeckHash();
      ok := !xml.failed;
    }

    // ---------------------------------------------------------------- writing

    /** `keys` is the order in which the map of plans is gone through. */
    method Write(xml: XmlWriter, keys: seq<string>)
      requires Valid() && forall k :: k in keys <==> k in sideboardPlans
      modifies xml
      ensures xml.out == old(xml.out) + WrittenDeck(View(), keys)
    {
      hide TextElement; hide WrittenAll; hide WrittenPlans; hide PlainAll;
      xml.out := xml.out + [Start("cockatrice_deck", map["version" := "1"])];
      xml.WriteTextElement("deckname", name);
      xml.WriteTextElement("comments", comments);
      xml.WriteNodes(root);
      WritePlans(xml, keys);
      xml.out := xml.out + [End("cockatrice_deck")];
    }

    method WritePlans(xml: XmlWriter, keys: seq<string>)
      requires forall k :: k in keys ==> k in sideboardPlans
      modifies xml
      ensures xml.out == old(xml.out) + WrittenPlans(sideboardPlans, keys)
    {
      hide WrittenPlan;
      assert keys[0..] == keys;
      for i := 0 to |keys|
        invariant old(xml.out) + WrittenPlans(sideboardPlans, keys) == xml.out + WrittenPlans(sideboardPlans, keys[i..])
      {
        assert keys[i..][0] == keys[i] && keys[i..][1..] == keys[i + 1..];
        ghost var rest := WrittenPlans(sideboardPlans, keys[i + 1..]);
        assert WrittenPlans(sideboardPlans, keys[i..]) == WrittenPlan(keys[i], sideboardPlans[keys[i]]) + rest;
        xml.WritePlan(keys[i], sideboardPlans[keys[i]]);
      }
      assert keys[|keys|..] == [];
    }

    // ---------------------------------------------------------------- hashing

    method UpdateDeckHash()
      requires Valid() && Hashable(View().zones)
      modifies this`deckHash
      ensures deckHash == Hash(View().zones, lower, digest)
    {
      hide CardList; hide ValidDeck; hide Hashable;
      var cardList: seq<string>, isValid := [], true;
      ghost var zones := PlainAll(root);
      NoZones(lower);
      for i := 0 to |root|
        invariant Hashable(zones[..i]) && cardList == CardList(zones[..i], lower)
        invariant isValid == ValidDeck(zones[..i])
      {
        ZoneAdded(zones, i, lower);
        var zone := root[i];
        assert zones[i] == Plain(zone);
        if zone.name == LIBRARY || zone.name == CRYPT {
          var entries := ZoneEntries(zone);
          cardList := cardList + entries;
        } else if zone.name != TOKENS && zone.children != [] {
          isValid := false;
        }
      }
      assert zones[..|zones|] == zones;
      deckHash := if isValid then Shown(digest(Joined(Sorted(cardList)))) else "INVALID";
    }

    method ZoneEntries(zone: Node) returns (entries: seq<string>)
      requires zone.Inner? && forall t :: t in Plain(zone).children ==> t.Card?
      ensures entries == RowEntries(zone.name, Plain(zone).children, lower)
    {
      entries := [];
      ghost var rows := PlainAll(zone.children);
      for j := 0 to |zone.children|
        invariant forall t :: t in rows[..j] ==> t.Card?
        invariant entries == RowEntries(zone.name, rows[..j], lower)
      {
        assert rows[..j + 1][..j] == rows[..j] && rows[j] in rows;
        var card := zone.children[j];
        assert rows[j] == Plain(card);
        var entry := (if zone.name == CRYPT then "SB:" else "") + lower(card.name);
        entries := AppendCopies(entries, entry, card.number);
      }
      assert rows[..|rows|] == rows;
    }

    /** The innermost loop: the entry once for each copy. */
    method AppendCopies(entries: seq<string>, entry: string, number: int) returns (longer: seq<string>)
      ensures longer == entries + Copies(entry, number)
    {
      longer := entries;
      var k := 0;
      while k < number
        invariant 0 <= k && (k <= number || k == 0)
        invariant longer == entries + Copies(entry, k)
      {
        assert entries + Copies(entry, k) + [entry] == entries + (Copies(entry, k) + [entry]);
        longer := longer + [entry];
        k := k + 1;
      }
    }

    // ---------------------------------------------------------------- editing

    /** Children are looked through first; then the inner ones are entered, in order. */
    method Prune(ns: seq<Node>, target: int) returns (found: bool, left: seq<Node>)
      ensures (found, left) == Pruned(ns, target)
      decreases ns, 1
    {
      hide PrunedInside;
      for i := 0 to |ns|
        invariant forall j :: 0 <= j < i ==> ns[j].id != target
      {
        if ns[i].id == target {
          return true, ns[..i] + ns[i + 1..];
        }
      }
      found, left := PruneInside(ns, target);
    }

    method PruneInside(ns: seq<Node>, target: int) returns (found: bool, left: seq<Node>)
      ensures (found, left) == PrunedInside(ns, target)
      decreases ns, 0
    {
      hide Pruned; hide Shrunk;
      assert ns[0..] == ns;
      for i := 0 to |ns|
        invariant PrunedInside(ns, target).0 == PrunedInside(ns[i..], target).0
        invariant PrunedInside(ns, target).1 == ns[..i] + PrunedInside(ns[i..], target).1
      {
        assert ns[i..][0] == ns[i] && ns[i..][1..] == ns[i + 1..];
        if ns[i].Inner? {
          var inside, rest := Prune(ns[i].children, target);
          if inside {
            found, left := true, ns[..i] + (Shrunk(ns[i], rest) + ns[i + 1..]);
            return;
          }
        }
        ghost var tail := PrunedInside(ns[i + 1..], target).1;
        assert PrunedInside(ns[i..], target).1 == [ns[i]] + tail;
        assert ns[..i] + ([ns[i]] + tail) == ns[..i + 1] + tail;
      }
      assert ns[..|ns|] == ns && ns[|ns|..] == [] && PrunedInside(ns, target).1 == ns;
      return false, ns;
    }

    /** The node the deck hangs from; it is no node of the list below it. */
    const ROOT := -1

    method DeleteNode(target: int) returns (found: bool)
      requires Valid() && Hashable(View().zones)
      modifies this`root, this`deckHash
      ensures Valid() && found == (target == ROOT || target in Ids(old(root)))
      ensures root == if target == ROOT then old(root) else Pruned(old(root), target).1
      ensures found && target != ROOT ==> Hashable(View().zones) && deckHash == Hash(View().zones, lower, digest)
      ensures !found || target == ROOT ==> deckHash == old(deckHash)
    {
      hide Unique; hide Pruned; hide Ids; hide Plain; hide PlainAll; hide CardList;
      if target == ROOT {
        return true;
      }
      PrunedFinds(root, target);
      PrunedUnique(root, target);
      PrunedZones(root, target);
      var left;
      found, left := Prune(root, target);
      if found {
        root := left;
        UpdateDeckHash();
      }
    }

    method AddCard(cardName: string, zoneName: string) returns (card: int)
      requires Valid() && Hashable(View().zones)
      modifies this`root, this`nextId, this`deckHash
      ensures Valid() && root == CardAdded(old(root), cardName, zoneName, old(nextId)) && card == old(nextId) + 1
      ensures Hashable(View().zones) && deckHash == Hash(View().zones, lower, digest)
    {
      hide Unique; hide ContinuedNodes; hide Ids; hide CardList; hide Plain; hide PlainAll; hide Continued; hide Hashable;
      hide Hash; hide Hashed; hide Entry;
      var id := nextId;
      card := id + 1;
      nextId := nextId + 2;
      var leaf := Leaf(card, cardName, 1);
      LeafAlone(leaf);
      ContinuedUnique(root, zoneName, [leaf], id);
      ContinuedPlain(root, zoneName, [leaf], id);
      OneCopyMore(PlainAll(root), cardName, zoneName, lower);
      ContinueZone(zoneName, [leaf], id);
      UpdateDeckHash();
    }
  }

  lemma LeafAlone(leaf: Node)
    requires leaf.Leaf?
    ensures Unique([leaf]) && Ids([leaf]) == {leaf.id} && PlainAll([leaf]) == [Card(leaf.name, leaf.number)]
  {
    OneNode(leaf);
    OneUnique(leaf);
    LeafIds(leaf);
    assert [leaf][1..] == [];
  }

  /** Pruning leaves zones at the top, and only cards in the zones that are hashed. */
  lemma {:induction false} PrunedZones(ns: seq<Node>, target: int)
    requires (forall n :: n in ns ==> n.Inner?) && Hashable(PlainAll(ns))
    ensures var t := Pruned(ns, target).1;
            (forall n :: n in t ==> n.Inner?) && Hashable(PlainAll(t))
  {
    var i := Position(ns, target);
    if i != -1 {
      var t := ns[..i] + ns[i + 1..];
      forall z | z in PlainAll(t)
        ensures z in PlainAll(ns)
      {
        var k :| 0 <= k < |t| && PlainAll(t)[k] == z;
        assert PlainAll(ns)[if k < i then k else k + 1] == z;
      }
    } else {
      InsideZones(ns, target);
    }
  }

  lemma {:induction false} InsideZones(ns: seq<Node>, target: int)
    requires (forall n :: n in ns ==> n.Inner?) && Hashable(PlainAll(ns))
    ensures var t := PrunedInside(ns, target).1;
            (forall n :: n in t ==> n.Inner?) && Hashable(PlainAll(t))
  {
    if ns != [] {
      assert PlainAll(ns) == [Plain(ns[0])] + PlainAll(ns[1..]);
      HashableParts([Plain(ns[0])], PlainAll(ns[1..]));
      InsideZones(ns[1..], target);
      var children := Pruned(ns[0].children, target).1;
      if Pruned(ns[0].children, target).0 {
        if children != [] {
          var n := ns[0].(children := children);
          CardsPruned(ns[0], target);
          assert ([n] + ns[1..])[1..] == ns[1..];
          HashableParts([Plain(n)], PlainAll(ns[1..]));
        } else {
          assert [] + ns[1..] == ns[1..];
        }
      } else {
        var rest := PrunedInside(ns[1..], target).1;
        assert ([ns[0]] + rest)[1..] == rest;
        HashableParts([Plain(ns[0])], PlainAll(rest));
      }
    }
  }

  lemma CardsPruned(n: Node, target: int)
    requires n.Inner? && Hashable([Plain(n)])
    ensures Hashable([Plain(n.(children := Pruned(n.children, target).1))])
  {
    var z := Plain(n);
    assert z in [z];
    var t := Pruned(n.children, target).1;
    if Hashed(n.name) {
      forall k | 0 <= k < |n.children|
        ensures n.children[k].Leaf?
      {
        assert z.children[k] in z.children;
      }
      LeavesPruned(n.children, target);
      forall c | c in PlainAll(t)
        ensures c.Card?
      {
        var k :| 0 <= k < |t| && PlainAll(t)[k] == c;
        assert t[k] in t;
      }
    }
  }

  lemma LeavesPruned(ns: seq<Node>, target: int)
    requires forall k :: 0 <= k < |ns| ==> ns[k].Leaf?
    ensures forall n :: n in Pruned(ns, target).1 ==> n.Leaf?
  {
    if Position(ns, target) == -1 {
      LeavesInside(ns, target);
    }
  }

  lemma {:induction false} LeavesInside(ns: seq<Node>, target: int)
    requires forall k :: 0 <= k < |ns| ==> ns[k].Leaf?
    ensures PrunedInside(ns, target) == (false, ns)
  {
    if ns != [] {
      LeavesInside(ns[1..], target);
      assert [ns[0]] + ns[1..] == ns;
    }
  }
}

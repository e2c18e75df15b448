/** The comparison functions deck nodes are sorted by. */
module DeckSort {
  import opened DeckHash
  import opened DeckEdit

  datatype SortMethod = ByNumber | ByName | Default

  /** QString's operator>. */
  predicate Greater(a: string, b: string)
  {
    !Leq(a, b)
  }

  predicate CompareName(a: Node, b: Node)
  {
    if a.Inner? then b.Inner? && Greater(a.name, b.name)
    else b.Inner? || Greater(a.name, b.name)
  }

  predicate CompareNumber(a: Node, b: Node)
  {
    var n1, n2 := CountOf(a, true), CountOf(b, true);
    if a.Inner? then b.Inner? && (if n1 != n2 then n1 > n2 else CompareName(a, b))
    else b.Inner? || (if n1 != n2 then n1 > n2 else CompareName(a, b))
  }

  /** `compare`, when all nodes have been given one sort method. */
  predicate Compare(a: Node, b: Node, sortMethod: SortMethod)
  {
    match sortMethod
    case ByNumber => CompareNumber(a, b)
    case ByName => CompareName(a, b)
    case Default => false
  }

  lemma GreaterIsStrictTotal(a: string, b: string, c: string)
    ensures !Greater(a, a)
    ensures Greater(a, b) && Greater(b, c) ==> Greater(a, c)
    ensures !Greater(a, b) && !Greater(b, a) ==> a == b
  {
    LeqTotal(a, a);
    LeqTotal(a, b);
    LeqTotal(b, c);
    LeqTotal(a, c);
    if Greater(a, b) && Greater(b, c) && Leq(a, c) {
      LeqTransitive(b, a, c);
    }
  }

  /**
   What std::sort asks of its comparison, over nodes of both kinds: never before itself, transitive,
   and "neither before the other" transitive as well. Cards come before zones, more copies before
   fewer, later names before earlier ones.
   */
  lemma CompareIsStrictWeakOrder(a: Node, b: Node, c: Node, sortMethod: SortMethod)
    ensures !Compare(a, a, sortMethod)
    ensures Compare(a, b, sortMethod) && Compare(b, c, sortMethod) ==> Compare(a, c, sortMethod)
    ensures !Compare(a, b, sortMethod) && !Compare(b, a, sortMethod) && !Compare(b, c, sortMethod) && !Compare(c, b, sortMethod)
            ==> !Compare(a, c, sortMethod) && !Compare(c, a, sortMethod)
  {
    hide CountOf; hide Greater;
    GreaterIsStrictTotal(a.name, b.name, c.name);
    GreaterIsStrictTotal(b.name, c.name, a.name);
    GreaterIsStrictTotal(c.name, a.name, b.name);
    GreaterIsStrictTotal(c.name, b.name, a.name);
    GreaterIsStrictTotal(a.name, c.name, b.name);
    GreaterIsStrictTotal(b.name, a.name, c.name);
  }
}

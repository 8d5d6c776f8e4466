/** The semantic order of function denotations: a total order whose equality is structural. */
module DenotationOrder {
  import opened Options
  import opened Orders
  import opened Bitstrings
  import opened Denotations

  function CompareNames(a: seq<seq<Byte>>, b: seq<seq<Byte>>): Ordering
    decreases |a|
  {
    if a == [] then (if b == [] then Equal else Less)
    else if b == [] then Greater
    else Then(Lex(a[0], b[0]), CompareNames(a[1..], b[1..]))
  }

  function CompareModules(a: Option<Module>, b: Option<Module>): Ordering {
    match (a, b)
    case (None, None) => Equal
    case (None, Some(_)) => Less
    case (Some(_), None) => Greater
    case (Some(NamedModule(m)), Some(NamedModule(n))) => CompareNames(m, n)
    case (Some(NamedModule(_)), Some(ProtocolImpl(_, _))) => Less
    case (Some(ProtocolImpl(_, _)), Some(NamedModule(_))) => Greater
    case (Some(ProtocolImpl(p, t)), Some(ProtocolImpl(q, u))) => Then(CompareNames(p, q), CompareNames(t, u))
  }

  function SemanticCmp(a: Denotation, b: Denotation): Ordering
    decreases a
  {
    Then(
      match (a, b)
      case (Named(m, s, _), Named(n, t, _)) => Then(CompareModules(m, n), Lex(s, t))
      case (Named(_, _, _), Generated(_, _, _)) => Less
      case (Generated(_, _, _), Named(_, _, _)) => Greater
      case (Generated(p, i, _), Generated(q, j, _)) => Then(SemanticCmp(p, q), Cmp(i, j)),
      Cmp(a.arity, b.arity))
  }

  lemma {:induction false} NamesOrdered(a: seq<seq<Byte>>, b: seq<seq<Byte>>)
    ensures CompareNames(b, a) == Reverse(CompareNames(a, b))
    ensures CompareNames(a, b) == Equal <==> a == b
    decreases |a|
  {
    if a != [] && b != [] {
      LexReverses(a[0], b[0]);
      LexEqual(a[0], b[0]);
      NamesOrdered(a[1..], b[1..]);
      assert a == [a[0]] + a[1..] && b == [b[0]] + b[1..];
    }
  }

  lemma {:induction false} NamesTransit(a: seq<seq<Byte>>, b: seq<seq<Byte>>, c: seq<seq<Byte>>)
    ensures Transits(CompareNames(a, b), CompareNames(b, c), CompareNames(a, c))
    decreases |a|
  {
    if a != [] && b != [] && c != [] {
      LexTransits(a[0], b[0], c[0]);
      NamesTransit(a[1..], b[1..], c[1..]);
    }
  }

  lemma ModulesOrdered(a: Option<Module>, b: Option<Module>)
    ensures CompareModules(b, a) == Reverse(CompareModules(a, b))
    ensures CompareModules(a, b) == Equal <==> a == b
  {
    match (a, b)
    case (Some(NamedModule(m)), Some(NamedModule(n))) => NamesOrdered(m, n);
    case (Some(ProtocolImpl(p, t)), Some(ProtocolImpl(q, u))) => NamesOrdered(p, q); NamesOrdered(t, u);
    case _ =>
  }

  lemma ModulesTransit(a: Option<Module>, b: Option<Module>, c: Option<Module>)
    ensures Transits(CompareModules(a, b), CompareModules(b, c), CompareModules(a, c))
  {
    match (a, b, c)
    case (Some(NamedModule(m)), Some(NamedModule(n)), Some(NamedModule(o))) => NamesTransit(m, n, o);
    case (Some(ProtocolImpl(p, t)), Some(ProtocolImpl(q, u)), Some(ProtocolImpl(r, v))) =>
      NamesTransit(p, q, r);
      NamesTransit(t, u, v);
    case _ =>
  }

  /** Swapping operands reverses the result, and equal means structurally equal. */
  lemma {:induction false} SemanticCmpIsTotal(a: Denotation, b: Denotation)
    ensures SemanticCmp(b, a) == Reverse(SemanticCmp(a, b))
    ensures SemanticCmp(a, b) == Equal <==> a == b
    decreases a
  {
    match (a, b)
    case (Named(m, s, _), Named(n, t, _)) =>
      ModulesOrdered(m, n);
      LexReverses(s, t);
      LexEqual(s, t);
    case (Generated(p, _, _), Generated(q, _, _)) => SemanticCmpIsTotal(p, q);
    case _ =>
  }

  lemma {:induction false} SemanticCmpTransits(a: Denotation, b: Denotation, c: Denotation)
    ensures Transits(SemanticCmp(a, b), SemanticCmp(b, c), SemanticCmp(a, c))
    decreases a
  {
    match (a, b, c)
    case (Named(m, s, _), Named(n, t, _), Named(o, u, _)) =>
      ModulesTransit(m, n, o);
      LexTransits(s, t, u);
    case (Generated(p, _, _), Generated(q, _, _), Generated(r, _, _)) => SemanticCmpTransits(p, q, r);
    case _ =>
  }

  // ------------------------------------------------------------------ priority

  /** The owner decides before the name, the name before the arity; and likewise parent, occurrence, arity. */
  lemma OwnerThenNameThenArity(a: Denotation, b: Denotation)
    ensures a.Named? && b.Named? && a.owner != b.owner ==> SemanticCmp(a, b) == CompareModules(a.owner, b.owner)
    ensures a.Named? && b.Named? && a.owner == b.owner && a.name != b.name ==> SemanticCmp(a, b) == Lex(a.name, b.name)
    ensures a.Named? && b.Named? && a.owner == b.owner && a.name == b.name ==>
      SemanticCmp(a, b) == Cmp(a.arity, b.arity)
    ensures a.Named? && b.Generated? ==> SemanticCmp(a, b) == Less
    ensures a.Generated? && b.Generated? && a.parent != b.parent ==>
      SemanticCmp(a, b) == SemanticCmp(a.parent, b.parent)
    ensures a.Generated? && b.Generated? && a.parent == b.parent && a.occurrence != b.occurrence ==>
      SemanticCmp(a, b) == Cmp(a.occurrence, b.occurrence)
    ensures a.Generated? && b.Generated? && a.parent == b.parent && a.occurrence == b.occurrence ==>
      SemanticCmp(a, b) == Cmp(a.arity, b.arity)
  {
    if a.Named? && b.Named? {
      ModulesOrdered(a.owner, b.owner);
      LexEqual(a.name, b.name);
    } else if a.Generated? && b.Generated? {
      SemanticCmpIsTotal(a.parent, b.parent);
    }
  }

  /** No owner comes first, then modules by name, then implementations by protocol before target. */
  lemma OwnersInOrder(m: Module, n: Module)
    ensures CompareModules(None, Some(m)) == Less
    ensures m.NamedModule? && n.ProtocolImpl? ==> CompareModules(Some(m), Some(n)) == Less
    ensures m.ProtocolImpl? && n.ProtocolImpl? && m.protocol != n.protocol ==>
      CompareModules(Some(m), Some(n)) == CompareNames(m.protocol, n.protocol)
    ensures m.ProtocolImpl? && n.ProtocolImpl? && m.protocol == n.protocol ==>
      CompareModules(Some(m), Some(n)) == CompareNames(m.target, n.target)
  {
    if m.ProtocolImpl? && n.ProtocolImpl? { NamesOrdered(m.protocol, n.protocol); }
  }

  /** Names compare at their first different segment, and that segment at its first different byte. */
  lemma {:induction false} SegmentDecides(
      p: seq<seq<Byte>>, a: seq<Byte>, b: seq<Byte>, s: seq<seq<Byte>>, t: seq<seq<Byte>>)
    requires a != b
    ensures CompareNames(p + ([a] + s), p + ([b] + t)) == Lex(a, b)
    ensures CompareNames(p, p + ([b] + t)) == Less
    decreases |p|
  {
    LexEqual(a, b);
    if p == [] {
      assert p + ([a] + s) == [a] + s && p + ([b] + t) == [b] + t;
    } else {
      LexEqual(p[0], p[0]);
      SegmentDecides(p[1..], a, b, s, t);
      assert (p + ([a] + s))[1..] == p[1..] + ([a] + s) && (p + ([b] + t))[1..] == p[1..] + ([b] + t);
    }
  }
}

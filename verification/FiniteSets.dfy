/**
 A finite-or-cofinite set: `cofinite == false` is "exactly these values",
 `cofinite == true` is "every value except these".
 */
module FiniteSets {

  datatype FiniteSet<T(==)> = FiniteSet(values: set<T>, cofinite: bool) {

    predicate Contains(x: T) {
      (x in values) != cofinite
    }

    predicate IsNone() {
      !cofinite && values == {}
    }

    predicate IsAny() {
      cofinite && values == {}
    }

    function Union(other: FiniteSet<T>): FiniteSet<T> {
      match (cofinite, other.cofinite)
      case (false, false) => FiniteSet(values + other.values, false)
      case (true, false) => FiniteSet(values - other.values, true)
      case (false, true) => FiniteSet(other.values - values, true)
      case (true, true) => FiniteSet(values * other.values, true)
    }

    function Intersect(other: FiniteSet<T>): FiniteSet<T> {
      match (cofinite, other.cofinite)
      case (false, false) => FiniteSet(values * other.values, false)
      case (true, false) => FiniteSet(other.values - values, false)
      case (false, true) => FiniteSet(values - other.values, false)
      case (true, true) => FiniteSet(values + other.values, true)
    }

    function Negate(): FiniteSet<T> {
      FiniteSet(values, !cofinite)
    }

    predicate ContainsAll(other: FiniteSet<T>) {
      match (cofinite, other.cofinite)
      case (false, false) => other.values <= values
      case (false, true) => false
      case (true, false) => other.values !! values
      case (true, true) => values <= other.values
    }

    predicate Overlaps(other: FiniteSet<T>) {
      match (cofinite, other.cofinite)
      case (false, false) => exists x :: x in values && x in other.values
      case (false, true) => exists x :: x in values && x !in other.values
      case (true, false) => exists x :: x in other.values && x !in values
      case (true, true) => true
    }
  }

  function None<T>(): FiniteSet<T> { FiniteSet({}, false) }
  function Any<T>(): FiniteSet<T> { FiniteSet({}, true) }
  function Lit<T>(x: T): FiniteSet<T> { FiniteSet({x}, false) }

  /** No finite set exhausts the element domain: `beyond` escapes every one. */
  ghost predicate Escapes<T(!new)>(beyond: set<T> -> T) {
    forall s: set<T> :: beyond(s) !in s
  }

  /** A reported containment is a real one, on every element domain. */
  lemma ContainsAllSound<T>(a: FiniteSet<T>, b: FiniteSet<T>, x: T)
    requires a.ContainsAll(b) && b.Contains(x)
    ensures a.Contains(x)
  {}

  /** A shared element is always reported, on every element domain. */
  lemma OverlapsComplete<T>(a: FiniteSet<T>, b: FiniteSet<T>, x: T)
    requires a.Contains(x) && b.Contains(x)
    ensures a.Overlaps(b)
  {}

  /**
   On an infinite domain both relations are exact: containment is inclusion of
   the denoted sets, and overlap is a non-empty intersection.
   */
  lemma ExactOnInfiniteDomains<T(!new)>(a: FiniteSet<T>, b: FiniteSet<T>, beyond: set<T> -> T)
    requires Escapes(beyond)
    ensures a.ContainsAll(b) <==> forall x :: b.Contains(x) ==> a.Contains(x)
    ensures a.Overlaps(b) <==> exists x :: a.Contains(x) && b.Contains(x)
    ensures a.Overlaps(b) <==> !a.Intersect(b).IsNone()
  {
    var out := beyond(a.values + b.values);
    assert out !in a.values + b.values;
    if !a.ContainsAll(b) {
      if !a.cofinite && b.cofinite {
        assert b.Contains(out) && !a.Contains(out);
      } else if !a.cofinite {
        var x :| x in b.values && x !in a.values;
        assert b.Contains(x) && !a.Contains(x);
      } else if !b.cofinite {
        var x :| x in b.values && x in a.values;
        assert b.Contains(x) && !a.Contains(x);
      } else {
        var x :| x in a.values && x !in b.values;
        assert b.Contains(x) && !a.Contains(x);
      }
    }
    if a.cofinite && b.cofinite {
      assert a.Contains(out) && b.Contains(out);
    }
    if a.Overlaps(b) && !(a.cofinite && b.cofinite) {
      var x :| (a.Contains(x) && b.Contains(x)) && (x in a.values || x in b.values);
      AlgebraIsBoolean(a, b, x);
    }
    if x :| a.Contains(x) && b.Contains(x) {
      OverlapsComplete(a, b, x);
    }
  }

  /** On a finite domain a finite set that enumerates everything is missed. */
  lemma ContainmentMissedOnAFiniteDomain()
    ensures forall x: bool :: Any<bool>().Contains(x) ==> FiniteSet({true, false}, false).Contains(x)
    ensures !FiniteSet({true, false}, false).ContainsAll(Any<bool>())
  {}

  lemma ContainsAllTransitive<T>(a: FiniteSet<T>, b: FiniteSet<T>, c: FiniteSet<T>)
    requires a.ContainsAll(b) && b.ContainsAll(c)
    ensures a.ContainsAll(c)
  {}

  /** The algebra computes the Boolean operations on the denoted sets. */
  lemma AlgebraIsBoolean<T>(a: FiniteSet<T>, b: FiniteSet<T>, x: T)
    ensures a.Union(b).Contains(x) <==> a.Contains(x) || b.Contains(x)
    ensures a.Intersect(b).Contains(x) <==> a.Contains(x) && b.Contains(x)
    ensures a.Negate().Contains(x) <==> !a.Contains(x)
    ensures a.Negate().Negate() == a
  {}
}

/** Three-way comparison results and what makes them an order. */
module Orders {

  datatype Ordering = Less | Equal | Greater

  function Cmp(a: int, b: int): Ordering {
    if a < b then Less else if a == b then Equal else Greater
  }

  function CmpReal(a: real, b: real): Ordering {
    if a < b then Less else if a == b then Equal else Greater
  }

  function Reverse(o: Ordering): Ordering {
    match o
    case Less => Greater
    case Equal => Equal
    case Greater => Less
  }

  /** The second result decides where the first does not. */
  function Then(first: Ordering, second: Ordering): Ordering {
    if first == Equal then second else first
  }

  /** What a transitive comparison gives on a and c, from a and b, and b and c. */
  predicate Transits(ab: Ordering, bc: Ordering, ac: Ordering) {
    (ab == Equal ==> ac == bc) && (bc == Equal ==> ac == ab) && (ab == bc ==> ac == ab)
  }

  lemma ThenTransits(ab: Ordering, bc: Ordering, ac: Ordering, ab': Ordering, bc': Ordering, ac': Ordering)
    requires Transits(ab, bc, ac)
    requires ab == Equal && bc == Equal ==> Transits(ab', bc', ac')
    ensures Transits(Then(ab, ab'), Then(bc, bc'), Then(ac, ac'))
  {}

  // ----------------------------------------------------------- lexicographic

  /** Element by element; a proper prefix comes first. */
  function Lex(a: seq<int>, b: seq<int>): Ordering
    decreases |a|
  {
    if a == [] then (if b == [] then Equal else Less)
    else if b == [] then Greater
    else Then(Cmp(a[0], b[0]), Lex(a[1..], b[1..]))
  }

  lemma {:induction false} LexReverses(a: seq<int>, b: seq<int>)
    ensures Lex(b, a) == Reverse(Lex(a, b))
    decreases |a|
  {
    if a != [] && b != [] { LexReverses(a[1..], b[1..]); }
  }

  lemma {:induction false} LexTransits(a: seq<int>, b: seq<int>, c: seq<int>)
    ensures Transits(Lex(a, b), Lex(b, c), Lex(a, c))
    decreases |a|
  {
    if a != [] && b != [] && c != [] { LexTransits(a[1..], b[1..], c[1..]); }
  }

  lemma {:induction false} LexEqual(a: seq<int>, b: seq<int>)
    ensures Lex(a, b) == Equal <==> a == b
    decreases |a|
  {
    if a != [] && b != [] {
      LexEqual(a[1..], b[1..]);
      assert a == [a[0]] + a[1..] && b == [b[0]] + b[1..];
    }
  }

  /** Sequences split at equal lengths compare part by part. */
  lemma {:induction false} LexSplits(a: seq<int>, a': seq<int>, b: seq<int>, b': seq<int>)
    requires |a| == |b|
    ensures Lex(a + a', b + b') == Then(Lex(a, b), Lex(a', b'))
    decreases |a|
  {
    if a == [] {
      assert a + a' == a' && b + b' == b';
    } else {
      LexSplits(a[1..], a', b[1..], b');
      assert (a + a')[1..] == a[1..] + a' && (b + b')[1..] == b[1..] + b';
    }
  }

  /** The first difference decides, and a proper prefix comes first. */
  lemma FirstDifference(p: seq<int>, a: int, b: int, s: seq<int>, t: seq<int>)
    requires a != b
    ensures Lex(p + ([a] + s), p + ([b] + t)) == (if a < b then Less else Greater)
    ensures Lex(p, p + ([b] + t)) == Less
  {
    LexEqual(p, p);
    LexSplits(p, [a] + s, p, [b] + t);
    LexSplits(p, [], p, [b] + t);
    assert p + [] == p;
  }
}

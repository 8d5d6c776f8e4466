/**
 The order on language terms: a recursive comparator with a strict and a
 widening numeric mode. A term is the value a published carrier denotes; a
 struct's raw fields are the integer, float or binary they hold.
 */
module Terms {
  import opened Orders
  import opened Binary64
  import opened Bitstrings

  datatype Mode = Strict | Widening

  /** A binary's bytes may lie inline or in a shared buffer. */
  datatype Storage = Inline | Shared

  datatype Stored = Stored(storage: Storage, bytes: seq<Byte>, bitLen: nat)

  type Bitstring = b: Stored | Stores(b.bytes, b.bitLen) witness Stored(Inline, [], 0)

  /** Schema identities and closure denotations are elements of their own total orders. */
  datatype Term =
    | Int(i: I64)
    | Flt(x: Float)
    | Atom(name: seq<int>)
    | Resource(id: nat)
    | Closure(denotation: int, captures: Terms)
    | Struct(identity: int, fields: Terms)
    | Map(entries: Entries)
    | List(items: Terms)
    | Binary(b: Bitstring)

  datatype Terms = Nil | Cons(head: Term, tail: Terms)

  /** Map entries in stored key order. */
  datatype Entries = NoEntries | Entry(key: Term, value: Term, rest: Entries)

  function Rank(t: Term): int {
    match t
    case Int(_) => 0
    case Flt(_) => 0
    case Atom(_) => 1
    case Resource(_) => 2
    case Closure(_, _) => 3
    case Struct(_, _) => 4
    case Map(_) => 5
    case List(_) => 6
    case Binary(_) => 7
  }

  function Count(ts: Terms): nat { if ts.Nil? then 0 else 1 + Count(ts.tail) }

  function Size(es: Entries): nat { if es.NoEntries? then 0 else 1 + Size(es.rest) }

  function FloatCmp(a: Float, b: Float, mode: Mode): Ordering {
    if mode.Strict? then TotalCmp(a, b) else PartialCmp(a, b)
  }

  /** Numbers: by value; in strict mode an integer precedes an equal float. */
  function NumberCmp(a: Term, b: Term, mode: Mode): Ordering
    requires (a.Int? || a.Flt?) && (b.Int? || b.Flt?)
  {
    match (a, b)
    case (Int(i), Int(j)) => Cmp(i, j)
    case (Flt(x), Flt(y)) => FloatCmp(x, y, mode)
    case (Int(i), Flt(y)) => if mode.Strict? then Then(CompareIntFloat(i, y), Less) else CompareIntFloat(i, y)
    case (Flt(x), Int(j)) =>
      if mode.Strict? then Then(Reverse(CompareIntFloat(j, x)), Greater) else Reverse(CompareIntFloat(j, x))
  }

  function Compare(a: Term, b: Term, mode: Mode): Ordering
    decreases a
  {
    if Rank(a) != Rank(b) then Cmp(Rank(a), Rank(b))
    else
      match a
      case Int(_) => NumberCmp(a, b, mode)
      case Flt(_) => NumberCmp(a, b, mode)
      case Atom(name) => Lex(name, b.name)
      case Resource(id) => Cmp(id, b.id)
      case Closure(denotation, captures) =>
        Then(Cmp(denotation, b.denotation),
             Then(Cmp(Count(captures), Count(b.captures)), CompareAll(captures, b.captures, Strict)))
      case Struct(identity, fields) => Then(Cmp(identity, b.identity), CompareAll(fields, b.fields, mode))
      case Map(entries) =>
        Then(Cmp(Size(entries), Size(b.entries)),
             Then(CompareKeys(entries, b.entries), CompareValues(entries, b.entries, mode)))
      case List(items) => CompareAll(items, b.items, mode)
      case Binary(s) => BitstringCmp(s.bytes, s.bitLen, b.b.bytes, b.b.bitLen)
  }

  /** Element by element; a proper prefix comes first. */
  function CompareAll(xs: Terms, ys: Terms, mode: Mode): Ordering
    decreases xs
  {
    match (xs, ys)
    case (Nil, Nil) => Equal
    case (Nil, Cons(_, _)) => Less
    case (Cons(_, _), Nil) => Greater
    case (Cons(x, xt), Cons(y, yt)) => Then(Compare(x, y, mode), CompareAll(xt, yt, mode))
  }

  /** Map keys always compare strictly. */
  function CompareKeys(xs: Entries, ys: Entries): Ordering
    decreases xs
  {
    match (xs, ys)
    case (NoEntries, NoEntries) => Equal
    case (NoEntries, Entry(_, _, _)) => Less
    case (Entry(_, _, _), NoEntries) => Greater
    case (Entry(k, _, xt), Entry(l, _, yt)) => Then(Compare(k, l, Strict), CompareKeys(xt, yt))
  }

  function CompareValues(xs: Entries, ys: Entries, mode: Mode): Ordering
    decreases xs
  {
    match (xs, ys)
    case (NoEntries, NoEntries) => Equal
    case (NoEntries, Entry(_, _, _)) => Less
    case (Entry(_, _, _), NoEntries) => Greater
    case (Entry(_, v, xt), Entry(_, w, yt)) => Then(Compare(v, w, mode), CompareValues(xt, yt, mode))
  }

  // ------------------------------------------------------------------ numbers

  function NumberOf(t: Term): real
    requires t.Int? || t.Flt?
  {
    if t.Int? then t.i as real else Value(t.x)
  }

  /** Among numbers of one value: the integer, then negative zero, then the float. */
  function Flavour(t: Term): int
    requires t.Int? || t.Flt?
  {
    if t.Int? then -1 else Sign(t.x)
  }

  /** Both numeric modes are orders on exact values; strict mode breaks ties by flavour. */
  lemma NumbersByValue(a: Term, b: Term, mode: Mode)
    requires (a.Int? || a.Flt?) && (b.Int? || b.Flt?)
    ensures NumberCmp(a, b, mode) ==
      Then(CmpReal(NumberOf(a), NumberOf(b)), if mode.Strict? then Cmp(Flavour(a), Flavour(b)) else Equal)
    ensures mode.Strict? ==> (NumberCmp(a, b, mode) == Equal <==> a == b)
  {
    if a.Flt? && b.Flt? { TotalCmpIsValueThenSign(a.x, b.x); }
    if a.Int? && b.Flt? { MixedComparisonIsExact(a.i, b.x); }
    if a.Flt? && b.Int? { MixedComparisonIsExact(b.i, a.x); }
  }

  // ------------------------------------------------------------ antisymmetry

  /** Swapping the operands reverses the result. */
  lemma {:induction false} CompareReverses(a: Term, b: Term, mode: Mode)
    ensures Compare(b, a, mode) == Reverse(Compare(a, b, mode))
    decreases a
  {
    if Rank(a) == Rank(b) {
      match a
      case Int(_) => NumbersByValue(a, b, mode); NumbersByValue(b, a, mode);
      case Flt(_) => NumbersByValue(a, b, mode); NumbersByValue(b, a, mode);
      case Atom(name) => LexReverses(name, b.name);
      case Resource(_) =>
      case Closure(_, captures) => AllReverse(captures, b.captures, Strict);
      case Struct(_, fields) => AllReverse(fields, b.fields, mode);
      case Map(entries) => EntriesReverse(entries, b.entries, mode);
      case List(items) => AllReverse(items, b.items, mode);
      case Binary(s) =>
        BitstringCmpIsLexicographic(s.bytes, s.bitLen, b.b.bytes, b.b.bitLen);
        BitstringCmpIsLexicographic(b.b.bytes, b.b.bitLen, s.bytes, s.bitLen);
        LexReverses(Bits(s.bytes, s.bitLen), Bits(b.b.bytes, b.b.bitLen));
    }
  }

  lemma {:induction false} AllReverse(xs: Terms, ys: Terms, mode: Mode)
    ensures CompareAll(ys, xs, mode) == Reverse(CompareAll(xs, ys, mode))
    decreases xs
  {
    if xs.Cons? && ys.Cons? {
      CompareReverses(xs.head, ys.head, mode);
      AllReverse(xs.tail, ys.tail, mode);
    }
  }

  lemma {:induction false} EntriesReverse(xs: Entries, ys: Entries, mode: Mode)
    ensures CompareKeys(ys, xs) == Reverse(CompareKeys(xs, ys))
    ensures CompareValues(ys, xs, mode) == Reverse(CompareValues(xs, ys, mode))
    decreases xs
  {
    if xs.Entry? && ys.Entry? {
      CompareReverses(xs.key, ys.key, Strict);
      CompareReverses(xs.value, ys.value, mode);
      EntriesReverse(xs.rest, ys.rest, mode);
    }
  }

  // ------------------------------------------------------------ transitivity

  lemma NumbersTransit(a: Term, b: Term, c: Term, mode: Mode)
    requires (a.Int? || a.Flt?) && (b.Int? || b.Flt?) && (c.Int? || c.Flt?)
    ensures Transits(NumberCmp(a, b, mode), NumberCmp(b, c, mode), NumberCmp(a, c, mode))
  {
    NumbersByValue(a, b, mode);
    NumbersByValue(b, c, mode);
    NumbersByValue(a, c, mode);
  }

  lemma BinariesTransit(a: Bitstring, b: Bitstring, c: Bitstring)
    ensures Transits(BitstringCmp(a.bytes, a.bitLen, b.bytes, b.bitLen),
                     BitstringCmp(b.bytes, b.bitLen, c.bytes, c.bitLen),
                     BitstringCmp(a.bytes, a.bitLen, c.bytes, c.bitLen))
  {
    BitstringCmpIsLexicographic(a.bytes, a.bitLen, b.bytes, b.bitLen);
    BitstringCmpIsLexicographic(b.bytes, b.bitLen, c.bytes, c.bitLen);
    BitstringCmpIsLexicographic(a.bytes, a.bitLen, c.bytes, c.bitLen);
    LexTransits(Bits(a.bytes, a.bitLen), Bits(b.bytes, b.bitLen), Bits(c.bytes, c.bitLen));
  }

  /** Comparison is transitive in both modes, with equality a congruence. */
  lemma {:induction false} CompareTransits(a: Term, b: Term, c: Term, mode: Mode)
    ensures Transits(Compare(a, b, mode), Compare(b, c, mode), Compare(a, c, mode))
    decreases a, 1
  {
    if Rank(a) == Rank(b) && Rank(b) == Rank(c) {
      SameRankTransits(a, b, c, mode);
    } else {
      ByRank(a, b, mode);
      ByRank(b, c, mode);
      ByRank(a, c, mode);
      RanksTransit(Rank(a), Rank(b), Rank(c), Compare(a, b, mode), Compare(b, c, mode), Compare(a, c, mode));
    }
  }

  lemma ByRank(a: Term, b: Term, mode: Mode)
    ensures Rank(a) != Rank(b) ==> Compare(a, b, mode) == Cmp(Rank(a), Rank(b))
  {}

  /** Where the ranks are not all equal, they decide. */
  lemma RanksTransit(ra: int, rb: int, rc: int, ab: Ordering, bc: Ordering, ac: Ordering)
    requires !(ra == rb == rc)
    requires (ra != rb ==> ab == Cmp(ra, rb)) && (rb != rc ==> bc == Cmp(rb, rc)) && (ra != rc ==> ac == Cmp(ra, rc))
    ensures Transits(ab, bc, ac)
  {}

  lemma {:induction false} SameRankTransits(a: Term, b: Term, c: Term, mode: Mode)
    requires Rank(a) == Rank(b) == Rank(c)
    ensures Transits(Compare(a, b, mode), Compare(b, c, mode), Compare(a, c, mode))
    decreases a, 0
  {
    match a
    case Int(_) => NumbersTransit(a, b, c, mode);
    case Flt(_) => NumbersTransit(a, b, c, mode);
    case Atom(name) => LexTransits(name, b.name, c.name);
    case Resource(_) =>
    case Closure(_, captures) =>
      AllTransit(captures, b.captures, c.captures, Strict);
      CountedTransit(a, b, c);
    case Struct(_, fields) =>
      AllTransit(fields, b.fields, c.fields, mode);
      ThenTransits(
        Cmp(a.identity, b.identity), Cmp(b.identity, c.identity), Cmp(a.identity, c.identity),
        CompareAll(fields, b.fields, mode), CompareAll(b.fields, c.fields, mode), CompareAll(fields, c.fields, mode));
    case Map(entries) =>
      KeysTransit(entries, b.entries, c.entries);
      ValuesTransit(entries, b.entries, c.entries, mode);
      MapsTransit(entries, b.entries, c.entries, mode);
    case List(items) => AllTransit(items, b.items, c.items, mode);
    case Binary(s) => BinariesTransit(s, b.b, c.b);
  }

  lemma CountedTransit(a: Term, b: Term, c: Term)
    requires a.Closure? && b.Closure? && c.Closure?
    requires Transits(CompareAll(a.captures, b.captures, Strict), CompareAll(b.captures, c.captures, Strict),
                      CompareAll(a.captures, c.captures, Strict))
    ensures forall mode :: Transits(Compare(a, b, mode), Compare(b, c, mode), Compare(a, c, mode))
  {
    var ab, bc, ac := CompareAll(a.captures, b.captures, Strict), CompareAll(b.captures, c.captures, Strict),
      CompareAll(a.captures, c.captures, Strict);
    var m, n, k := Count(a.captures), Count(b.captures), Count(c.captures);
    ThenTransits(Cmp(m, n), Cmp(n, k), Cmp(m, k), ab, bc, ac);
    ThenTransits(Cmp(a.denotation, b.denotation), Cmp(b.denotation, c.denotation), Cmp(a.denotation, c.denotation),
                 Then(Cmp(m, n), ab), Then(Cmp(n, k), bc), Then(Cmp(m, k), ac));
  }

  lemma MapsTransit(xs: Entries, ys: Entries, zs: Entries, mode: Mode)
    requires Transits(CompareKeys(xs, ys), CompareKeys(ys, zs), CompareKeys(xs, zs))
    requires Transits(CompareValues(xs, ys, mode), CompareValues(ys, zs, mode), CompareValues(xs, zs, mode))
    ensures Transits(Compare(Map(xs), Map(ys), mode), Compare(Map(ys), Map(zs), mode), Compare(Map(xs), Map(zs), mode))
  {
    ThenTransits(CompareKeys(xs, ys), CompareKeys(ys, zs), CompareKeys(xs, zs),
                 CompareValues(xs, ys, mode), CompareValues(ys, zs, mode), CompareValues(xs, zs, mode));
    ThenTransits(Cmp(Size(xs), Size(ys)), Cmp(Size(ys), Size(zs)), Cmp(Size(xs), Size(zs)),
                 Then(CompareKeys(xs, ys), CompareValues(xs, ys, mode)),
                 Then(CompareKeys(ys, zs), CompareValues(ys, zs, mode)),
                 Then(CompareKeys(xs, zs), CompareValues(xs, zs, mode)));
  }

  lemma {:induction false} AllTransit(xs: Terms, ys: Terms, zs: Terms, mode: Mode)
    ensures Transits(CompareAll(xs, ys, mode), CompareAll(ys, zs, mode), CompareAll(xs, zs, mode))
    decreases xs, 0
  {
    if xs.Cons? && ys.Cons? && zs.Cons? {
      CompareTransits(xs.head, ys.head, zs.head, mode);
      AllTransit(xs.tail, ys.tail, zs.tail, mode);
    }
  }

  lemma {:induction false} KeysTransit(xs: Entries, ys: Entries, zs: Entries)
    ensures Transits(CompareKeys(xs, ys), CompareKeys(ys, zs), CompareKeys(xs, zs))
    decreases xs, 0
  {
    if xs.Entry? && ys.Entry? && zs.Entry? {
      CompareTransits(xs.key, ys.key, zs.key, Strict);
      KeysTransit(xs.rest, ys.rest, zs.rest);
    }
  }

  lemma {:induction false} ValuesTransit(xs: Entries, ys: Entries, zs: Entries, mode: Mode)
    ensures Transits(CompareValues(xs, ys, mode), CompareValues(ys, zs, mode), CompareValues(xs, zs, mode))
    decreases xs, 0
  {
    if xs.Entry? && ys.Entry? && zs.Entry? {
      CompareTransits(xs.value, ys.value, zs.value, mode);
      ValuesTransit(xs.rest, ys.rest, zs.rest, mode);
    }
  }

  // ---------------------------------------------------------------- equality

  /** Equality of language values: binaries by their bits, wherever stored; floats by their bit patterns. */
  predicate Same(a: Term, b: Term)
    decreases a
  {
    match (a, b)
    case (Closure(d, xs), Closure(e, ys)) => d == e && SameAll(xs, ys)
    case (Struct(d, xs), Struct(e, ys)) => d == e && SameAll(xs, ys)
    case (Map(xs), Map(ys)) => SameEntries(xs, ys)
    case (List(xs), List(ys)) => SameAll(xs, ys)
    case (Binary(s), Binary(t)) => Bits(s.bytes, s.bitLen) == Bits(t.bytes, t.bitLen)
    case _ => a == b
  }

  predicate SameAll(xs: Terms, ys: Terms)
    decreases xs
  {
    match (xs, ys)
    case (Nil, Nil) => true
    case (Cons(x, xt), Cons(y, yt)) => Same(x, y) && SameAll(xt, yt)
    case _ => false
  }

  predicate SameEntries(xs: Entries, ys: Entries)
    decreases xs
  {
    match (xs, ys)
    case (NoEntries, NoEntries) => true
    case (Entry(k, v, xt), Entry(l, w, yt)) => Same(k, l) && Same(v, w) && SameEntries(xt, yt)
    case _ => false
  }

  /** Strict comparison is equal exactly on equal language values. */
  lemma {:induction false} StrictEqualIsSame(a: Term, b: Term)
    ensures Compare(a, b, Strict) == Equal <==> Same(a, b)
    decreases a
  {
    if Rank(a) == Rank(b) {
      match a
      case Int(_) => NumbersByValue(a, b, Strict);
      case Flt(_) => NumbersByValue(a, b, Strict);
      case Atom(name) => LexEqual(name, b.name);
      case Resource(_) =>
      case Closure(_, captures) => StrictEqualAll(captures, b.captures);
      case Struct(_, fields) => StrictEqualAll(fields, b.fields);
      case Map(entries) => StrictEqualEntries(entries, b.entries);
      case List(items) => StrictEqualAll(items, b.items);
      case Binary(s) =>
        BitstringCmpIsLexicographic(s.bytes, s.bitLen, b.b.bytes, b.b.bitLen);
        LexEqual(Bits(s.bytes, s.bitLen), Bits(b.b.bytes, b.b.bitLen));
    }
  }

  lemma {:induction false} StrictEqualAll(xs: Terms, ys: Terms)
    ensures CompareAll(xs, ys, Strict) == Equal <==> SameAll(xs, ys)
    ensures SameAll(xs, ys) ==> Count(xs) == Count(ys)
    decreases xs
  {
    if xs.Cons? && ys.Cons? {
      StrictEqualIsSame(xs.head, ys.head);
      StrictEqualAll(xs.tail, ys.tail);
    }
  }

  lemma {:induction false} StrictEqualEntries(xs: Entries, ys: Entries)
    ensures CompareKeys(xs, ys) == Equal && CompareValues(xs, ys, Strict) == Equal <==> SameEntries(xs, ys)
    ensures SameEntries(xs, ys) ==> Size(xs) == Size(ys)
    decreases xs
  {
    if xs.Entry? && ys.Entry? {
      StrictEqualIsSame(xs.key, ys.key);
      StrictEqualIsSame(xs.value, ys.value);
      StrictEqualEntries(xs.rest, ys.rest);
    }
  }

  /** Equality under widening: numbers by value, map keys and captures as they are. */
  predicate Alike(a: Term, b: Term)
    decreases a
  {
    if IsNumber(a) && IsNumber(b) then NumberOf(a) == NumberOf(b)
    else
      match (a, b)
      case (Struct(d, xs), Struct(e, ys)) => d == e && AlikeAll(xs, ys)
      case (Map(xs), Map(ys)) => AlikeEntries(xs, ys)
      case (List(xs), List(ys)) => AlikeAll(xs, ys)
      case _ => Same(a, b)
  }

  predicate AlikeAll(xs: Terms, ys: Terms)
    decreases xs
  {
    match (xs, ys)
    case (Nil, Nil) => true
    case (Cons(x, xt), Cons(y, yt)) => Alike(x, y) && AlikeAll(xt, yt)
    case _ => false
  }

  predicate AlikeEntries(xs: Entries, ys: Entries)
    decreases xs
  {
    match (xs, ys)
    case (NoEntries, NoEntries) => true
    case (Entry(k, v, xt), Entry(l, w, yt)) => Same(k, l) && Alike(v, w) && AlikeEntries(xt, yt)
    case _ => false
  }

  /** Widening comparison is equal exactly on terms alike: {1} and {1.0} are, and maps with such keys are not. */
  lemma {:induction false} WideningEqualIsAlike(a: Term, b: Term)
    ensures Compare(a, b, Widening) == Equal <==> Alike(a, b)
    decreases a
  {
    if Rank(a) == Rank(b) {
      match a
      case Int(_) => NumbersByValue(a, b, Widening);
      case Flt(_) => NumbersByValue(a, b, Widening);
      case Struct(_, fields) => WideningEqualAll(fields, b.fields);
      case Map(entries) => WideningEqualEntries(entries, b.entries);
      case List(items) => WideningEqualAll(items, b.items);
      case _ => StrictEqualIsSame(a, b);
    }
  }

  lemma {:induction false} WideningEqualAll(xs: Terms, ys: Terms)
    ensures CompareAll(xs, ys, Widening) == Equal <==> AlikeAll(xs, ys)
    decreases xs
  {
    if xs.Cons? && ys.Cons? {
      WideningEqualIsAlike(xs.head, ys.head);
      WideningEqualAll(xs.tail, ys.tail);
    }
  }

  lemma {:induction false} WideningEqualEntries(xs: Entries, ys: Entries)
    ensures CompareKeys(xs, ys) == Equal && CompareValues(xs, ys, Widening) == Equal <==> AlikeEntries(xs, ys)
    ensures AlikeEntries(xs, ys) ==> Size(xs) == Size(ys)
    decreases xs
  {
    if xs.Entry? && ys.Entry? {
      StrictEqualIsSame(xs.key, ys.key);
      WideningEqualIsAlike(xs.value, ys.value);
      WideningEqualEntries(xs.rest, ys.rest);
    }
  }

  predicate IsNumber(t: Term) { t.Int? || t.Flt? }

  /** Across kinds: numbers, atoms, resources, closures, structs, maps, lists, binaries. */
  lemma KindsInOrder(a: Term, b: Term, mode: Mode)
    ensures IsNumber(a) && !IsNumber(b) ==> Compare(a, b, mode) == Less
    ensures a.Atom? && (b.Resource? || b.Closure? || b.Struct? || b.Map? || b.List? || b.Binary?) ==>
      Compare(a, b, mode) == Less
    ensures a.Resource? && (b.Closure? || b.Struct? || b.Map? || b.List? || b.Binary?) ==> Compare(a, b, mode) == Less
    ensures a.Closure? && (b.Struct? || b.Map? || b.List? || b.Binary?) ==> Compare(a, b, mode) == Less
    ensures a.Struct? && (b.Map? || b.List? || b.Binary?) ==> Compare(a, b, mode) == Less
    ensures a.Map? && (b.List? || b.Binary?) ==> Compare(a, b, mode) == Less
    ensures a.List? && b.Binary? ==> Compare(a, b, mode) == Less
  {}

  function Append(xs: Terms, ys: Terms): Terms {
    if xs.Nil? then ys else Cons(xs.head, Append(xs.tail, ys))
  }

  /** Lists compare at their first difference, and a proper prefix comes first. */
  lemma {:induction false} FirstItemDecides(xs: Terms, xs': Terms, a: Term, b: Term, ys: Terms, zs: Terms, mode: Mode)
    requires CompareAll(xs, xs', mode) == Equal && Compare(a, b, mode) != Equal
    ensures CompareAll(Append(xs, Cons(a, ys)), Append(xs', Cons(b, zs)), mode) == Compare(a, b, mode)
    ensures CompareAll(xs, Append(xs', Cons(b, zs)), mode) == Less
    decreases xs
  {
    if xs.Cons? { FirstItemDecides(xs.tail, xs'.tail, a, b, ys, zs, mode); }
  }

  /** Maps: size, then keys strictly, then values. */
  lemma MapsInOrder(xs: Entries, ys: Entries, mode: Mode)
    ensures Size(xs) < Size(ys) ==> Compare(Map(xs), Map(ys), mode) == Less
    ensures Size(xs) == Size(ys) && CompareKeys(xs, ys) != Equal ==>
      Compare(Map(xs), Map(ys), mode) == CompareKeys(xs, ys)
    ensures Size(xs) == Size(ys) && CompareKeys(xs, ys) == Equal ==>
      Compare(Map(xs), Map(ys), mode) == CompareValues(xs, ys, mode)
  {}

  /** Closures: denotation, then how many captures, then the captures, strictly in either mode. */
  lemma ClosuresInOrder(d: int, e: int, xs: Terms, ys: Terms, mode: Mode)
    ensures d < e ==> Compare(Closure(d, xs), Closure(e, ys), mode) == Less
    ensures d == e && Count(xs) < Count(ys) ==> Compare(Closure(d, xs), Closure(e, ys), mode) == Less
    ensures d == e && Count(xs) == Count(ys) ==>
      Compare(Closure(d, xs), Closure(e, ys), mode) == CompareAll(xs, ys, Strict)
  {}

  /** Structs: schema identity, then the fields in the mode asked. */
  lemma StructsInOrder(d: int, e: int, xs: Terms, ys: Terms, mode: Mode)
    ensures d < e ==> Compare(Struct(d, xs), Struct(e, ys), mode) == Less
    ensures d == e ==> Compare(Struct(d, xs), Struct(e, ys), mode) == CompareAll(xs, ys, mode)
  {}

  // ---------------------------------------------------- strict and widening

  /** Equal terms stay equal when numbers widen. */
  lemma {:induction false} StrictEqualWidens(a: Term, b: Term)
    requires Compare(a, b, Strict) == Equal
    ensures Compare(a, b, Widening) == Equal
    decreases a
  {
    match a
    case Int(_) => NumbersByValue(a, b, Strict); NumbersByValue(a, b, Widening);
    case Flt(_) => NumbersByValue(a, b, Strict); NumbersByValue(a, b, Widening);
    case Struct(_, fields) => StrictAllWidens(fields, b.fields);
    case Map(entries) => StrictValuesWiden(entries, b.entries);
    case List(items) => StrictAllWidens(items, b.items);
    case _ =>
  }

  lemma {:induction false} StrictAllWidens(xs: Terms, ys: Terms)
    requires CompareAll(xs, ys, Strict) == Equal
    ensures CompareAll(xs, ys, Widening) == Equal
    decreases xs
  {
    if xs.Cons? && ys.Cons? {
      StrictEqualWidens(xs.head, ys.head);
      StrictAllWidens(xs.tail, ys.tail);
    }
  }

  lemma {:induction false} StrictValuesWiden(xs: Entries, ys: Entries)
    requires CompareValues(xs, ys, Strict) == Equal
    ensures CompareValues(xs, ys, Widening) == Equal
    decreases xs
  {
    if xs.Entry? && ys.Entry? {
      StrictEqualWidens(xs.value, ys.value);
      StrictValuesWiden(xs.rest, ys.rest);
    }
  }

  function Zero(negative: bool): Term { Flt(Fields(negative, 0, 0)) }

  /** Strict order does not refine the widening one: [-0.0, 2] and [0.0, 1] are ordered both ways. */
  lemma StrictDoesNotRefineWidening()
    ensures
      var a := List(Cons(Zero(true), Cons(Int(2), Nil)));
      var b := List(Cons(Zero(false), Cons(Int(1), Nil)));
      Compare(a, b, Strict) == Less && Compare(a, b, Widening) == Greater
  {
    NumbersByValue(Zero(true), Zero(false), Strict);
    NumbersByValue(Zero(true), Zero(false), Widening);
    MagnitudeSign(Fields(true, 0, 0));
    MagnitudeSign(Fields(false, 0, 0));
    var tail2, tail1 := Cons(Int(2), Nil), Cons(Int(1), Nil);
    assert CompareAll(tail2, tail1, Widening) == Greater;
  }

  // -------------------------------------------------------------- with loops

  /** The comparator as the runtime runs it, walking lists, captures, fields and entries in loops. */
  method CompareTerms(a: Term, b: Term, mode: Mode) returns (order: Ordering)
    ensures order == Compare(a, b, mode)
    decreases a, 0
  {
    if Rank(a) != Rank(b) {
      return Cmp(Rank(a), Rank(b));
    }
    match a
    case Int(_) => order := NumberCmp(a, b, mode);
    case Flt(_) => order := NumberCmp(a, b, mode);
    case Atom(name) => order := Lex(name, b.name);
    case Resource(id) => order := Cmp(id, b.id);
    case Closure(denotation, captures) =>
      order := Cmp(denotation, b.denotation);
      if order == Equal {
        order := Cmp(Count(captures), Count(b.captures));
        if order == Equal {
          order := WalkTerms(captures, b.captures, Strict);
        }
      }
    case Struct(identity, fields) =>
      order := Cmp(identity, b.identity);
      if order == Equal {
        order := WalkTerms(fields, b.fields, mode);
      }
    case Map(entries) =>
      order := WalkMap(entries, b.entries, mode);
    case List(items) => order := WalkTerms(items, b.items, mode);
    case Binary(s) => order := BitstringCmp(s.bytes, s.bitLen, b.b.bytes, b.b.bitLen);
  }

  method WalkTerms(xs: Terms, ys: Terms, mode: Mode) returns (order: Ordering)
    ensures order == CompareAll(xs, ys, mode)
    decreases xs, 1
  {
    var a, b := xs, ys;
    while a.Cons? && b.Cons?
      invariant CompareAll(xs, ys, mode) == CompareAll(a, b, mode)
      invariant a == xs || a < xs
      decreases a
    {
      order := CompareTerms(a.head, b.head, mode);
      if order != Equal {
        return;
      }
      a, b := a.tail, b.tail;
    }
    order := if a.Nil? && b.Nil? then Equal else if a.Nil? then Less else Greater;
  }

  method WalkMap(xs: Entries, ys: Entries, mode: Mode) returns (order: Ordering)
    ensures order == Then(Cmp(Size(xs), Size(ys)), Then(CompareKeys(xs, ys), CompareValues(xs, ys, mode)))
    decreases xs, 1
  {
    order := Cmp(Size(xs), Size(ys));
    if order != Equal {
      return;
    }
    var a, b := xs, ys;
    while a.Entry?
      invariant Size(a) == Size(b) && CompareKeys(xs, ys) == CompareKeys(a, b)
      invariant a == xs || a < xs
      decreases a
    {
      order := CompareTerms(a.key, b.key, Strict);
      if order != Equal {
        return;
      }
      a, b := a.rest, b.rest;
    }
    a, b := xs, ys;
    while a.Entry?
      invariant Size(a) == Size(b) && CompareValues(xs, ys, mode) == CompareValues(a, b, mode)
      invariant a == xs || a < xs
      decreases a
    {
      order := CompareTerms(a.value, b.value, mode);
      if order != Equal {
        return;
      }
      a, b := a.rest, b.rest;
    }
    order := Equal;
  }
}

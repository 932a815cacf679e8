/**
 A level-of-detail tier: a name, a decimation step and a distance threshold,
 together with a cached squared threshold so that callers compare squared
 distances without taking square roots.

 The single-precision `distance` is modelled as a `real`; the cache invariant
 is `sqrDst == distance * distance`.
 */
module ChunkLod {
  import opened Wrappers
  import opened Runtime

  datatype ChunkLOD = ChunkLOD(name: string, step: int, distance: real, sqrDst: real)

  /** The cache invariant every public write path re-establishes. */
  predicate CacheConsistent(l: ChunkLOD) {
    l.sqrDst == l.distance * l.distance
  }

  /** Everything but the cache: what a serialiser stores and restores. */
  predicate SameSerialisedFields(a: ChunkLOD, b: ChunkLOD) {
    a.name == b.name && a.step == b.step && a.distance == b.distance
  }

  /** The constructor: stores the three fields and derives the cache. */
  function New(name: string, step: int, distance: real): (l: ChunkLOD)
    ensures l.name == name && l.step == step && l.distance == distance
    ensures CacheConsistent(l)
  {
    ChunkLOD(name, step, distance, distance * distance)
  }

  /** Recomputes the cache from the stored distance. */
  function UpdateSqrDst(l: ChunkLOD): (r: ChunkLOD)
    ensures SameSerialisedFields(r, l)
    ensures CacheConsistent(r)
    ensures CacheConsistent(l) ==> r == l
  {
    l.(sqrDst := l.distance * l.distance)
  }

  /** The `Distance` setter: overwrite the distance, then refresh the cache. */
  function SetDistance(l: ChunkLOD, value: real): (r: ChunkLOD)
    ensures r.distance == value
    ensures r.name == l.name && r.step == l.step
    ensures CacheConsistent(r)
  {
    UpdateSqrDst(l.(distance := value))
  }

  /**
   A write of the serialised `distance` field that bypasses the setter, as the
   engine's deserialiser and inspector do: the cache is left as it was.
   */
  function RawWrite(l: ChunkLOD, value: real): (r: ChunkLOD)
    ensures r.distance == value && r.sqrDst == l.sqrDst
    ensures r.name == l.name && r.step == l.step
    ensures CacheConsistent(r) <==> l.sqrDst == value * value
  {
    l.(distance := value)
  }

  /** Repairing a raw write gives exactly what the setter would have given. */
  lemma RepairAfterRawWrite(l: ChunkLOD, value: real)
    ensures UpdateSqrDst(RawWrite(l, value)) == SetDistance(l, value)
  {
  }

  /**
   An illustration of `RawWrite`'s consistency condition on concrete values:
   moving a tier from 10 to 50 by a raw write leaves the cache at 100.
   */
  lemma RawWriteCanBreakCache()
    ensures var l := New("near", 1, 10.0);
            && CacheConsistent(l)
            && !CacheConsistent(RawWrite(l, 50.0))
            && UpdateSqrDst(RawWrite(l, 50.0)).sqrDst == 2500.0
  {
  }

  /** The identity of a tier: its step and its distance; the name takes no part. */
  function Key(l: ChunkLOD): (int, real) {
    (l.step, l.distance)
  }

  /** `Equals`: a null argument is dereferenced and throws. */
  function Equals(a: ChunkLOD, other: Option<ChunkLOD>): (r: Result<bool, Fault>)
    ensures other.None? ==> r == Failure(NullReference)
    ensures other.Some? ==> r == Success(Key(a) == Key(other.value))
  {
    if other.None? then Failure(NullReference)
    else Success(a.step == other.value.step && a.distance == other.value.distance)
  }

  /** `Equals` on two non-null tiers. */
  predicate SameTier(a: ChunkLOD, b: ChunkLOD) {
    Equals(a, Some(b)).value
  }

  /** `Equals` is an equivalence relation on non-null tiers. */
  lemma EqualsIsEquivalence(a: ChunkLOD, b: ChunkLOD, c: ChunkLOD)
    ensures SameTier(a, a)
    ensures SameTier(a, b) <==> SameTier(b, a)
    ensures SameTier(a, b) && SameTier(b, c) ==> SameTier(a, c)
  {
  }

  /** Renaming either side never changes the outcome of `Equals`. */
  lemma EqualsIgnoresName(a: ChunkLOD, b: ChunkLOD, n: string, m: string)
    ensures Equals(a.(name := n), Some(b.(name := m))) == Equals(a, Some(b))
  {
  }

  /** Equal tiers whose caches are consistent cache the same squared threshold. */
  lemma EqualTiersShareCache(a: ChunkLOD, b: ChunkLOD)
    requires CacheConsistent(a) && CacheConsistent(b)
    requires SameTier(a, b)
    ensures a.sqrDst == b.sqrDst
  {
  }

  /** Two tiers built from the same step and distance are equal whatever their names. */
  lemma ConstructedTiersEqual(n: string, m: string, step: int, step': int, d: real)
    ensures SameTier(New(n, step, d), New(m, step', d)) <==> step == step'
  {
  }

  /** `operator ==` as written: it calls `a.Equals(b)`, so a null on either side throws. */
  function OpEqAsWritten(a: Option<ChunkLOD>, b: Option<ChunkLOD>): (r: Result<bool, Fault>)
    ensures r.Success? <==> a.Some? && b.Some?
    ensures r.Success? ==> r.value == SameTier(a.value, b.value)
  {
    if a.None? then Failure(NullReference) else Equals(a.value, b)
  }

  /** `operator !=` as written: the negation of `a.Equals(b)`, with the same faults. */
  function OpNeAsWritten(a: Option<ChunkLOD>, b: Option<ChunkLOD>): (r: Result<bool, Fault>)
    ensures r.Success? <==> OpEqAsWritten(a, b).Success?
    ensures r.Success? ==> r.value == !OpEqAsWritten(a, b).value
  {
    if a.None? then Failure(NullReference)
    else match Equals(a.value, b)
      case Success(e) => Success(!e)
      case Failure(f) => Failure(f)
  }

  /** Comparing with null throws instead of answering. */
  lemma NullComparisonFaults(l: ChunkLOD)
    ensures OpEqAsWritten(Some(l), None) == Failure(NullReference)
    ensures OpEqAsWritten(None, None) == Failure(NullReference)
    ensures OpEq(Some(l), None) == false && OpEq(None, None) == true
  {
  }

  /** `operator ==` with the usual null handling: null equals only null. */
  function OpEq(a: Option<ChunkLOD>, b: Option<ChunkLOD>): (r: bool)
    ensures a == b ==> r
    ensures a.None? != b.None? ==> !r
    ensures a.Some? && b.Some? ==> (r <==> Key(a.value) == Key(b.value))
  {
    match (a, b)
    case (None, None) => true
    case (Some(x), Some(y)) => x.step == y.step && x.distance == y.distance
    case _ => false
  }

  /** `operator !=` with the usual null handling. */
  function OpNe(a: Option<ChunkLOD>, b: Option<ChunkLOD>): (r: bool)
    ensures r <==> !OpEq(a, b)
  {
    match (a, b)
    case (None, None) => false
    case (Some(x), Some(y)) => x.step != y.step || x.distance != y.distance
    case _ => true
  }

  /** Wherever the written operators answer, the corrected ones give the same answer. */
  lemma OperatorsAgreeWhereDefined(a: Option<ChunkLOD>, b: Option<ChunkLOD>)
    ensures OpEqAsWritten(a, b).Success? ==> OpEqAsWritten(a, b).value == OpEq(a, b)
    ensures OpNeAsWritten(a, b).Success? ==> OpNeAsWritten(a, b).value == OpNe(a, b)
  {
  }

  /** The corrected `==` is an equivalence relation on nullable tiers. */
  lemma OpEqIsEquivalence(a: Option<ChunkLOD>, b: Option<ChunkLOD>, c: Option<ChunkLOD>)
    ensures OpEq(a, a)
    ensures OpEq(a, b) <==> OpEq(b, a)
    ensures OpEq(a, b) && OpEq(b, c) ==> OpEq(a, c)
  {
  }
}

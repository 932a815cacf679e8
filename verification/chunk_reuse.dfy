/**
 A chunk's life as a sequence of calls: `SetUp` over and over as the world
 streams, `DestroyOrDisable` when the chunk leaves view. A destroyed chunk
 accepts no further call.
 */
module ChunkReuse {
  import opened Wrappers
  import opened Runtime
  import opened Chunks

  datatype Call =
    | SetUpCall(mat: Option<Material>, generateCollider: bool)
    | DestroyOrDisableCall(isPlaying: bool)

  /** One call on a chunk; any call on a destroyed game object throws. */
  function Apply(s: ChunkState, call: Call): (r: Result<ChunkState, Fault>)
    ensures s.Destroyed? ==> r == Failure(MissingReference)
    ensures s.Alive? && call.SetUpCall? ==> r.Success? && r.value.Alive?
    ensures call == DestroyOrDisableCall(false) && s.Alive? ==> r == Success(Destroyed(s.chunk.meshes))
  {
    match s
    case Destroyed(_) => Failure(MissingReference)
    case Alive(c) =>
      match call
      case SetUpCall(mat, g) => Success(Alive(SetUp(c, mat, g)))
      case DestroyOrDisableCall(p) => DestroyOrDisable(c, p)
  }

  /** A sequence of calls, stopping at the first one that throws. */
  function Run(s: ChunkState, calls: seq<Call>): Result<ChunkState, Fault>
    decreases |calls|
  {
    if |calls| == 0 then Success(s)
    else
      match Apply(s, calls[0])
      case Failure(f) => Failure(f)
      case Success(s') => Run(s', calls[1..])
  }

  /** A call that keeps the game object alive: any `SetUp`, or a retire while playing. */
  predicate Pooled(call: Call) {
    call.SetUpCall? || call.isPlaying
  }

  /**
   Pooled reuse: once a chunk is ready, any sequence of `SetUp` calls and
   retires while playing succeeds, keeps the chunk ready, keeps the same mesh
   object and creates no other mesh, and never reactivates the game object.
   */
  lemma {:induction false} PooledReuseKeepsMesh(c: Chunk, calls: seq<Call>)
    requires Valid(c) && Ready(c)
    requires forall call :: call in calls ==> Pooled(call)
    ensures Run(Alive(c), calls).Success? && Run(Alive(c), calls).value.Alive?
    ensures var d := Run(Alive(c), calls).value.chunk;
            && Valid(d) && Ready(d)
            && d.mesh == c.mesh
            && d.meshes.Keys == c.meshes.Keys
            && d.meshes[d.mesh.value].indexFormat == c.meshes[c.mesh.value].indexFormat
            && (d.active ==> c.active)
    decreases |calls|
  {
    if |calls| > 0 {
      var next := Apply(Alive(c), calls[0]);
      assert Pooled(calls[0]);
      if calls[0].SetUpCall? {
        SetUpHeals(c, calls[0].mat, calls[0].generateCollider);
      } else {
        RetireKeepsReady(c);
      }
      assert next.Success? && next.value.Alive?;
      var c' := next.value.chunk;
      assert forall call :: call in calls[1..] ==> call in calls;
      PooledReuseKeepsMesh(c', calls[1..]);
    }
  }

  /** Calling `SetUp` with the same arguments any number of times is the same as calling it once. */
  lemma {:induction false} RepeatedSetUpSettles(c: Chunk, mat: Option<Material>, g: bool, calls: seq<Call>)
    requires |calls| > 0
    requires forall call :: call in calls ==> call == SetUpCall(mat, g)
    ensures Run(Alive(c), calls) == Success(Alive(SetUp(c, mat, g)))
    decreases |calls|
  {
    assert calls[0] in calls;
    if |calls| > 1 {
      assert forall call :: call in calls[1..] ==> call in calls;
      RepeatedSetUpSettles(SetUp(c, mat, g), mat, g, calls[1..]);
      SetUpIdempotent(c, mat, g);
    }
  }

  /** A retire while playing followed by `SetUp` reuses the cleared mesh and leaves the object inactive. */
  lemma RetireThenSetUp(c: Chunk, mat: Option<Material>, g: bool)
    requires Valid(c) && Ready(c)
    ensures DestroyOrDisable(c, true).Success? && DestroyOrDisable(c, true).value.Alive?
    ensures var r := SetUp(DestroyOrDisable(c, true).value.chunk, mat, g);
            && r.mesh == c.mesh
            && r.meshes.Keys == c.meshes.Keys
            && !r.meshes[c.mesh.value].hasGeometry
            && !r.active
  {
    RetireKeepsReady(c);
  }

  /** Destruction is terminal: after it every call throws. */
  lemma {:induction false} DestroyedIsTerminal(c: Chunk, calls: seq<Call>)
    requires |calls| > 0
    ensures Run(Alive(c), [DestroyOrDisableCall(false)] + calls) == Failure(MissingReference)
  {
    var all := [DestroyOrDisableCall(false)] + calls;
    assert all[0] == DestroyOrDisableCall(false);
    assert all[1..] == calls;
  }
}

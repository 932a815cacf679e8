/**
 A chunk's engine resources as a pure state: one optional slot per component
 (mesh filter, mesh renderer, mesh collider), the chunk's own `mesh` field, a
 heap of the meshes it has seen, and a counter that hands out fresh identities
 for every engine object the chunk creates. `SetUp` and `DestroyOrDisable`
 are transition functions over this state; the host's `Application.isPlaying`
 is a parameter.
 */
module Chunks {
  import opened Wrappers
  import opened Runtime

  /** Identity of an engine object (a mesh or a component). */
  type ObjectId = nat

  /** A material handed in by the caller; only its identity matters here. A null material is `None`. */
  type Material = nat

  datatype IndexFormat = UInt16 | UInt32

  /** What the model keeps of a mesh besides its identity; geometry is only "some or none". */
  datatype MeshData = MeshData(indexFormat: IndexFormat, hasGeometry: bool)

  datatype MeshFilter = MeshFilter(id: ObjectId, sharedMesh: Option<ObjectId>)
  datatype MeshRenderer = MeshRenderer(id: ObjectId, material: Option<Material>)
  datatype MeshCollider = MeshCollider(id: ObjectId, sharedMesh: Option<ObjectId>, enabled: bool)

  /**
   The components attached to the chunk's game object (what `GetComponent`
   finds), the chunk's `mesh` and `generateCollider` fields, the game object's
   active flag, the live meshes and the next fresh identity.
   */
  datatype Chunk = Chunk(
    mesh: Option<ObjectId>,
    filter: Option<MeshFilter>,
    renderer: Option<MeshRenderer>,
    collider: Option<MeshCollider>,
    generateCollider: bool,
    active: bool,
    meshes: map<ObjectId, MeshData>,
    nextId: ObjectId)

  /**
   A chunk whose game object still exists, or one that was destroyed. Destroying
   the game object destroys its components but not the meshes they referenced:
   those stay allocated and are recorded in `leaked`.
   */
  datatype ChunkState = Alive(chunk: Chunk) | Destroyed(leaked: map<ObjectId, MeshData>)

  /** A mesh reference that is null or names a live mesh. */
  predicate MeshKnown(c: Chunk, m: Option<ObjectId>) {
    m.Some? ==> m.value in c.meshes
  }

  /** Well-formedness: every identity in use was handed out before, every mesh reference is live. */
  predicate Valid(c: Chunk) {
    && (forall id :: id in c.meshes ==> id < c.nextId)
    && MeshKnown(c, c.mesh)
    && (c.filter.Some? ==> c.filter.value.id < c.nextId && MeshKnown(c, c.filter.value.sharedMesh))
    && (c.renderer.Some? ==> c.renderer.value.id < c.nextId)
    && (c.collider.Some? ==> c.collider.value.id < c.nextId && MeshKnown(c, c.collider.value.sharedMesh))
  }

  /** The mesh the attached filter already shares, if any. */
  function FilterMesh(c: Chunk): Option<ObjectId> {
    if c.filter.Some? then c.filter.value.sharedMesh else None
  }

  /** The collider's mesh, if a collider is attached and has one. */
  function ColliderMesh(c: Chunk): Option<ObjectId> {
    if c.collider.Some? then c.collider.value.sharedMesh else None
  }

  /** A chunk whose mesh is live and is the one its filter renders. */
  predicate Ready(c: Chunk) {
    && c.mesh.Some?
    && c.mesh.value in c.meshes
    && c.filter.Some?
    && c.filter.value.sharedMesh == c.mesh
  }

  /** Every attached collider has a mesh and is enabled. */
  predicate ColliderLive(c: Chunk) {
    c.collider.Some? ==> c.collider.value.sharedMesh.Some? && c.collider.value.enabled
  }

  // The steps of SetUp, one per block of the source, in source order.

  /** Keep the attached filter, or attach a new one with no mesh. */
  function GetOrAddFilter(c: Chunk): (r: Chunk)
    ensures r.filter.Some?
    ensures c.filter.Some? ==> r == c
    ensures c.filter.None? ==> r.filter.value.id == c.nextId && r.filter.value.sharedMesh.None?
    ensures Valid(c) ==> Valid(r)
  {
    if c.filter.Some? then c
    else c.(filter := Some(MeshFilter(c.nextId, None)), nextId := c.nextId + 1)
  }

  /** Keep the attached renderer, or attach a new one with no material. */
  function GetOrAddRenderer(c: Chunk): (r: Chunk)
    ensures r.renderer.Some?
    ensures c.renderer.Some? ==> r == c
    ensures c.renderer.None? ==> r.renderer.value.id == c.nextId && r.filter == c.filter
    ensures Valid(c) ==> Valid(r)
  {
    if c.renderer.Some? then c
    else c.(renderer := Some(MeshRenderer(c.nextId, None)), nextId := c.nextId + 1)
  }

  /** Attach a collider when one is wanted and missing; destroy one that is not wanted. */
  function ReconcileCollider(c: Chunk, generateCollider: bool): (r: Chunk)
    ensures r.collider.Some? <==> generateCollider
    ensures generateCollider && c.collider.Some? ==> r == c
    ensures generateCollider && c.collider.None? ==>
              r.collider == Some(MeshCollider(c.nextId, None, true))
    ensures r.filter == c.filter && r.renderer == c.renderer && r.meshes == c.meshes
    ensures Valid(c) ==> Valid(r)
  {
    if c.collider.None? && generateCollider then
      c.(collider := Some(MeshCollider(c.nextId, None, true)), nextId := c.nextId + 1)
    else if c.collider.Some? && !generateCollider then
      c.(collider := None)
    else
      c
  }

  /** Adopt the filter's mesh, or create an empty 32-bit-index mesh and give it to the filter. */
  function AdoptOrCreateMesh(c: Chunk): (r: Chunk)
    requires c.filter.Some?
    ensures r.filter.Some? && r.mesh.Some? && r.filter.value.sharedMesh == r.mesh
    ensures r.filter.value.id == c.filter.value.id
    ensures FilterMesh(c).Some? ==> r == c.(mesh := FilterMesh(c))
    ensures FilterMesh(c).None? ==>
              && r.mesh == Some(c.nextId)
              && r.meshes == c.meshes[c.nextId := MeshData(UInt32, false)]
    ensures Valid(c) ==> Valid(r) && Ready(r)
  {
    if c.filter.value.sharedMesh.Some? then c.(mesh := c.filter.value.sharedMesh)
    else
      var m := c.nextId;
      c.(mesh := Some(m),
         meshes := c.meshes[m := MeshData(UInt32, false)],
         filter := Some(c.filter.value.(sharedMesh := Some(m))),
         nextId := m + 1)
  }

  /** Give a collider without a mesh the chunk's mesh, then re-enable it so it re-reads geometry. */
  function RefreshCollider(c: Chunk): (r: Chunk)
    requires c.collider.Some?
    ensures r.collider.Some? && r.collider.value.id == c.collider.value.id && r.collider.value.enabled
    ensures c.collider.value.sharedMesh.Some? ==> r.collider.value.sharedMesh == c.collider.value.sharedMesh
    ensures c.collider.value.sharedMesh.None? ==> r.collider.value.sharedMesh == c.mesh
    ensures Valid(c) ==> Valid(r)
  {
    var col := c.collider.value;
    var shared := if col.sharedMesh.None? then c.mesh else col.sharedMesh;
    // The source disables and re-enables the collider; only the final state is observable.
    c.(collider := Some(col.(sharedMesh := shared, enabled := true)))
  }

  /**
   `SetUp(mat, generateCollider)`: get or create every component, reconcile the
   collider with the flag, get or create the mesh, refresh the collider and
   bind the material. The game object's active flag is never touched.
   */
  function SetUp(c: Chunk, mat: Option<Material>, generateCollider: bool): (r: Chunk)
    ensures r.generateCollider == generateCollider
    // which components are attached, and what the renderer draws with
    ensures r.filter.Some? && r.renderer.Some?
    ensures r.collider.Some? <==> generateCollider
    ensures r.renderer.value.material == mat
    // components that were attached are kept, not replaced
    ensures c.filter.Some? ==> r.filter.value.id == c.filter.value.id
    ensures c.renderer.Some? ==> r.renderer.value.id == c.renderer.value.id
    ensures c.collider.Some? && generateCollider ==> r.collider.value.id == c.collider.value.id
    // the mesh: the filter's mesh is reused, otherwise one fresh 32-bit mesh is created
    ensures r.mesh.Some? && r.mesh == r.filter.value.sharedMesh
    ensures FilterMesh(c).Some? ==> r.mesh == FilterMesh(c) && r.meshes == c.meshes
    ensures FilterMesh(c).None? ==>
              && r.mesh.value >= c.nextId
              && r.meshes == c.meshes[r.mesh.value := MeshData(UInt32, false)]
    // the collider: enabled, keeping a mesh it had, else sharing the chunk's
    ensures ColliderLive(r)
    ensures generateCollider && ColliderMesh(c).Some? ==> ColliderMesh(r) == ColliderMesh(c)
    ensures generateCollider && ColliderMesh(c).None? ==> ColliderMesh(r) == r.mesh
    // the game object is not reactivated; identities only move forward
    ensures r.active == c.active
    ensures r.nextId >= c.nextId
  {
    var c1 := GetOrAddFilter(c);
    var c2 := GetOrAddRenderer(c1);
    var c3 := ReconcileCollider(c2, generateCollider);
    var c4 := AdoptOrCreateMesh(c3);
    var c5 := if generateCollider then RefreshCollider(c4) else c4;
    c5.(renderer := Some(c5.renderer.value.(material := mat)),
        generateCollider := generateCollider)
  }

  /**
   `DestroyOrDisable`: while playing, clear the mesh (keeping it) and deactivate
   the game object; otherwise destroy the game object and its components,
   leaving the meshes they referenced allocated.
   */
  function DestroyOrDisable(c: Chunk, isPlaying: bool): (r: Result<ChunkState, Fault>)
    ensures !isPlaying ==> r == Success(Destroyed(c.meshes))
    ensures isPlaying && c.mesh.None? ==> r == Failure(NullReference)
    ensures isPlaying && Valid(c) && c.mesh.Some? ==>
              && r.Success? && r.value.Alive?
              && var d := r.value.chunk;
              && !d.active
              && d.mesh == c.mesh
              && d.meshes.Keys == c.meshes.Keys
              && d.meshes[c.mesh.value] == c.meshes[c.mesh.value].(hasGeometry := false)
              && (forall id :: id in c.meshes && Some(id) != c.mesh ==> d.meshes[id] == c.meshes[id])
              && d == c.(meshes := d.meshes, active := false)
  {
    if isPlaying then
      match c.mesh
      case None => Failure(NullReference)
      case Some(m) =>
        if m !in c.meshes then Failure(MissingReference)
        else
          var cleared := c.meshes[m].(hasGeometry := false);
          Success(Alive(c.(meshes := c.meshes[m := cleared], active := false)))
    else
      Success(Destroyed(c.meshes))
  }

  /** `SetUp` keeps the chunk well formed and leaves it ready, whatever was missing before. */
  lemma SetUpHeals(c: Chunk, mat: Option<Material>, generateCollider: bool)
    requires Valid(c)
    ensures Valid(SetUp(c, mat, generateCollider)) && Ready(SetUp(c, mat, generateCollider))
  {
  }

  /** Retiring a ready chunk while playing keeps it well formed and ready for reuse. */
  lemma RetireKeepsReady(c: Chunk)
    requires Valid(c) && Ready(c)
    ensures DestroyOrDisable(c, true).Success? && DestroyOrDisable(c, true).value.Alive?
    ensures Valid(DestroyOrDisable(c, true).value.chunk) && Ready(DestroyOrDisable(c, true).value.chunk)
  {
  }

  /** A second `SetUp` with the same arguments changes nothing and allocates nothing. */
  lemma SetUpIdempotent(c: Chunk, mat: Option<Material>, generateCollider: bool)
    ensures SetUp(SetUp(c, mat, generateCollider), mat, generateCollider) == SetUp(c, mat, generateCollider)
  {
  }

  /** Turning collider generation off removes the collider and leaves the mesh alone. */
  lemma SetUpReleasesCollider(c: Chunk, mat: Option<Material>, mat': Option<Material>)
    ensures var r := SetUp(SetUp(c, mat, true), mat', false);
            && r.collider.None?
            && r.mesh == SetUp(c, mat, true).mesh
            && r.meshes == SetUp(c, mat, true).meshes
  {
  }

  /**
   Turning collider generation on attaches a fresh collider bound to the
   existing mesh, and leaves the mesh alone.
   */
  lemma SetUpCreatesCollider(c: Chunk, mat: Option<Material>, mat': Option<Material>)
    ensures var s := SetUp(c, mat, false);
            var r := SetUp(s, mat', true);
            && r.collider.Some?
            && r.collider.value.id >= s.nextId
            && r.collider.value.sharedMesh == s.mesh
            && r.mesh == s.mesh && r.meshes == s.meshes
  {
  }

  /**
   After `SetUp` the collider shares the chunk's mesh exactly when it had no
   mesh of its own or already had that one; a collider that kept another mesh
   across a mesh re-creation keeps it.
   */
  lemma ColliderSharesMeshIff(c: Chunk, mat: Option<Material>)
    requires Valid(c)
    ensures var r := SetUp(c, mat, true);
            ColliderMesh(r) == r.mesh <==> ColliderMesh(c).None? || ColliderMesh(c) == FilterMesh(c)
  {
  }
}

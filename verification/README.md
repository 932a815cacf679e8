# Chunk resources and LOD tiers, modelled in Dafny

This project models `Assets/Scripts/Chunk.cs` of a procedural-terrain renderer.
The file has two classes:

- `ChunkLOD` is one level-of-detail tier. It holds a name, a decimation step and
  a distance threshold, plus a cached squared threshold `SqrDst`.
- `Chunk` is a pooled piece of terrain. `SetUp` gets or creates its mesh filter,
  mesh renderer, optional mesh collider and mesh. `DestroyOrDisable` either
  retires the chunk for reuse or destroys it.

Modules:

- `Wrappers` (`wrappers.dfy`): `Option` stands in for nullable references and
  `Result` for calls that may throw.
- `Runtime` (`runtime.dfy`): the two exceptions the code can raise. These are a
  null dereference and use of a destroyed engine object.
- `ChunkLod` (`chunk_lod.dfy`): the tier as an immutable record. `distance` and
  `SqrDst` are `real`s and the invariant is `sqrDst == distance * distance`. The
  constructor, the `Distance` setter and `UpdateSqrDst` each re-establish it.
  `RawWrite` models the engine writing the serialised `distance` field directly,
  bypassing the setter, which can leave the cache stale. `Equals`, `==` and `!=`
  take nullable arguments.
- `Chunks` (`chunk.dfy`): a chunk as a pure state. It holds:
  - one `Option` slot per attached component (what `GetComponent` finds);
  - the chunk's `mesh` and `generateCollider` fields;
  - the game object's active flag;
  - a heap of live meshes, each with an index format and a geometry-present flag;
  - a counter that hands out fresh identities for every mesh and component the
    chunk creates.

  `SetUp` is the composition of one step per block of the source.
  `DestroyOrDisable` takes `Application.isPlaying` as a boolean parameter.
- `ChunkReuse` (`chunk_reuse.dfy`): a chunk's life as a sequence of calls. The
  lemmas here are about pooled reuse, repetition and destruction.

Four behaviours of the code are worth stating plainly, because a reader might
expect otherwise:

- `SetUp` gives the collider the chunk's mesh only when the collider has no mesh
  yet (`Chunk.cs:57-59`). A collider keeps an older mesh if the filter was lost
  and `SetUp` created a new one (`Chunk.cs:49-54`). `Chunks.ColliderSharesMeshIff`
  gives the exact condition.
- `SetUp` never calls `SetActive(true)` (`Chunk.cs:27-66`), so a chunk retired by
  `DestroyOrDisable` stays inactive after any later `SetUp`.
- `DestroyOrDisable` while playing calls `mesh.Clear()` (`Chunk.cs:19`). Within
  `Chunk.cs` only `SetUp` assigns `mesh` (lines 49 and 51); if nothing else has
  set it, the call throws. The model returns `Failure(NullReference)` for a null
  `mesh`.
- `DestroyImmediate(gameObject, false)` (`Chunk.cs:22`) destroys the game object
  and its components but not the mesh created at `Chunk.cs:51`, which is a
  separate engine object. The destroyed state therefore keeps that mesh as
  still allocated.

## Model

| member | source | states |
|---|---|---|
| `ChunkLod.New` | Assets/Scripts/Chunk.cs:93-99 | the constructor stores name, step and distance as given, and the cache is consistent |
| `ChunkLod.UpdateSqrDst` | Assets/Scripts/Chunk.cs:86-89 | from any state, stale or not, the cache becomes consistent with no serialised field changed; a consistent tier is left unchanged |
| `ChunkLod.SetDistance` | Assets/Scripts/Chunk.cs:78-84 | after setting `Distance = v`: the distance is `v`, name and step are unchanged, and the cache is consistent |
| `ChunkLod.RawWrite` | Assets/Scripts/Chunk.cs:75-76 | a direct write of the serialised distance keeps the old cache, which is consistent only if it already equals the new distance squared |
| `ChunkLod.RepairAfterRawWrite` | Assets/Scripts/Chunk.cs:78-89 | a raw write followed by `UpdateSqrDst` gives exactly what the `Distance` setter gives |
| `ChunkLod.RawWriteCanBreakCache` | Assets/Scripts/Chunk.cs:75-98 | an illustration of `RawWrite`'s consistency condition: a concrete raw write (10 to 50) leaves a stale cache, and `UpdateSqrDst` restores 2500 |
| `ChunkLod.Equals` | Assets/Scripts/Chunk.cs:101-104 | a null argument throws; otherwise the answer is whether the (step, distance) keys are equal |
| `ChunkLod.EqualsIsEquivalence` | Assets/Scripts/Chunk.cs:101-104 | `Equals` on non-null tiers is reflexive, symmetric and transitive |
| `ChunkLod.EqualsIgnoresName` | Assets/Scripts/Chunk.cs:101-104 | renaming either tier never changes the answer of `Equals` |
| `ChunkLod.EqualTiersShareCache` | Assets/Scripts/Chunk.cs:86-104 | equal tiers whose caches are consistent have the same squared threshold |
| `ChunkLod.ConstructedTiersEqual` | Assets/Scripts/Chunk.cs:93-104 | tiers built with the same distance are equal if and only if their steps match, whatever their names |
| `ChunkLod.OpEqAsWritten` | Assets/Scripts/Chunk.cs:106-109 | `==` as written answers exactly when both sides are non-null, and then agrees with `Equals` |
| `ChunkLod.OpNeAsWritten` | Assets/Scripts/Chunk.cs:111-114 | `!=` as written answers exactly when `==` does, and then gives the negation |
| `ChunkLod.NullComparisonFaults` | Assets/Scripts/Chunk.cs:106-114 | comparing a tier with null, or null with null, throws, while the corrected operator answers false or true |
| `ChunkLod.OpEq` | Assets/Scripts/Chunk.cs:106-109 | corrected `==`: null equals only null, identical operands are equal, and non-null tiers compare by (step, distance) |
| `ChunkLod.OpNe` | Assets/Scripts/Chunk.cs:111-114 | corrected `!=` is the negation of corrected `==` |
| `ChunkLod.OperatorsAgreeWhereDefined` | Assets/Scripts/Chunk.cs:106-114 | whenever the written operators answer, the corrected ones give the same answer |
| `ChunkLod.OpEqIsEquivalence` | Assets/Scripts/Chunk.cs:106-109 | corrected `==` is reflexive, symmetric and transitive on nullable tiers |
| `Chunks.GetOrAddFilter` | Assets/Scripts/Chunk.cs:34-36 | afterwards a filter is attached; an attached filter is kept; a new one has a fresh identity and no mesh; well-formedness is kept |
| `Chunks.GetOrAddRenderer` | Assets/Scripts/Chunk.cs:38-40 | afterwards a renderer is attached; an attached renderer is kept; a new one has a fresh identity; well-formedness is kept |
| `Chunks.ReconcileCollider` | Assets/Scripts/Chunk.cs:42-47 | afterwards a collider is attached if and only if one is wanted; a wanted attached collider is kept; a new one is fresh, enabled and has no mesh |
| `Chunks.AdoptOrCreateMesh` | Assets/Scripts/Chunk.cs:49-54 | the chunk's mesh is non-null and is the filter's mesh; the filter's existing mesh is reused, otherwise exactly one fresh empty 32-bit-index mesh is added |
| `Chunks.RefreshCollider` | Assets/Scripts/Chunk.cs:56-63 | the same collider ends enabled; a mesh it already had is kept; otherwise it gets the chunk's mesh |
| `Chunks.SetUp` | Assets/Scripts/Chunk.cs:27-66 | filter and renderer are attached, a collider is attached if and only if wanted, and the renderer's material is exactly `mat`, null included; existing components keep their identity; the mesh is non-null and is the filter's; an existing filter mesh is reused with no allocation; otherwise one fresh 32-bit mesh is created; a wanted collider is enabled and has a mesh; the active flag is untouched |
| `Chunks.SetUpHeals` | Assets/Scripts/Chunk.cs:26-66 | from any well-formed state, with any components missing, `SetUp` leaves a well-formed chunk whose mesh is live and rendered by its filter |
| `Chunks.DestroyOrDisable` | Assets/Scripts/Chunk.cs:17-24 | not playing: the chunk is destroyed, and every mesh it had stays allocated. Playing with a null mesh: a null-reference fault. Playing, in a well-formed chunk with a mesh: the same mesh is kept but emptied, the object becomes inactive, and nothing else changes |
| `Chunks.RetireKeepsReady` | Assets/Scripts/Chunk.cs:17-21 | retiring a ready chunk while playing succeeds and keeps it well formed and ready for reuse |
| `Chunks.SetUpIdempotent` | Assets/Scripts/Chunk.cs:27-66 | a second `SetUp` with the same arguments yields the same state: same mesh, same components, no new identity handed out |
| `Chunks.SetUpReleasesCollider` | Assets/Scripts/Chunk.cs:42-47 | `SetUp(.., true)` then `SetUp(.., false)` removes the collider and leaves the mesh and mesh heap alone |
| `Chunks.SetUpCreatesCollider` | Assets/Scripts/Chunk.cs:42-59 | `SetUp(.., false)` then `SetUp(.., true)` attaches a freshly created collider bound to the existing mesh, without touching the mesh |
| `Chunks.ColliderSharesMeshIff` | Assets/Scripts/Chunk.cs:49-59 | after `SetUp(.., true)` the collider's mesh is the chunk's mesh if and only if the collider had no mesh or already had the filter's mesh |
| `ChunkReuse.Apply` | Assets/Scripts/Chunk.cs:17-27 | any call on a destroyed chunk throws; `SetUp` on a live chunk succeeds; destroying a live chunk outside play mode ends in the destroyed state, with the chunk's meshes still allocated |
| `ChunkReuse.PooledReuseKeepsMesh` | Assets/Scripts/Chunk.cs:17-66 | from a ready chunk, any sequence of `SetUp` calls and retires while playing succeeds, keeps the chunk ready, keeps the same mesh object and format, creates no other mesh, and never reactivates the object |
| `ChunkReuse.RepeatedSetUpSettles` | Assets/Scripts/Chunk.cs:27-66 | any positive number of identical `SetUp` calls has the effect of one |
| `ChunkReuse.RetireThenSetUp` | Assets/Scripts/Chunk.cs:17-54 | a retire while playing, then `SetUp`, reuses the same, now empty, mesh without allocating, and the object stays inactive |
| `ChunkReuse.DestroyedIsTerminal` | Assets/Scripts/Chunk.cs:17-24 | after a destroy outside play mode, any further call throws |

## Left out

- Engine semantics of `GetComponent`, `AddComponent`, `DestroyImmediate`, `SetActive` and `MeshRenderer.material` are not modelled. These are foreign calls, represented as slot reads and writes. A newly added collider starts enabled with no mesh; the engine's own defaulting of a collider's mesh is not modelled.
- `Application.isPlaying` is not queried. It is a boolean parameter.
- IEEE single precision is not modelled: `distance` and `SqrDst` are `real`. NaN breaking reflexive equality, rounding of `d * d`, and `-0.0 == 0.0` are not represented.
- Mesh geometry contents are not modelled. A mesh is an identity, an index format and a flag saying whether it has geometry. Geometry is filled in by a generator that is not part of this model.
- The disable-then-enable toggle of the collider (lines 61-62) is not modelled as two events. Only its net effect, an enabled collider, is observable in a sequential model.
- The distance-based tier-selection scan and the mesh generator are not modelled. Neither is code in `Chunk.cs`.
- The `coord` and `lod` fields and the serialisation attributes are not modelled. No logic in the file reads them. The exception is the direct field write modelled by `ChunkLod.RawWrite`.
- Engine objects destroyed by outside agents (a mesh destroyed behind the chunk's back) are not modelled. The mesh heap only grows, and the case where `mesh.Clear()` would hit a destroyed mesh is just a `MissingReference` fault.
- Chunks.DestroyOrDisable: `mesh.Clear()` is taken to remove geometry only, keeping the mesh object and its index format. The engine's own semantics of `Mesh.Clear` are not modelled. The format half of `ChunkReuse.PooledReuseKeepsMesh` rests on this choice, because `SetUp` never sets the index format again on a mesh it adopts (lines 49-54).
- Chunks.SetUp: freshness of a created mesh or component is stated relative to the chunk's own counter (`>= nextId`), not as global uniqueness across chunks.

## Findings

| source | as written | input that shows it | evidently intended | confidence | as-written member | corrected member |
|---|---|---|---|---|---|---|
| Assets/Scripts/Chunk.cs:106-114 | `==` and `!=` call `a.Equals(b)`, which reads `a.step` and `other.step` with no null check | `lod == null` or `lod != null`, with `lod` null or not: the comparison throws a null-reference exception | a tier compared with null answers, as C# equality operators normally do: null equals only null | medium; not executed | `ChunkLod.NullComparisonFaults` | `ChunkLod.OpEq` |

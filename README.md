# A verified model of the roguelike game skeleton's core

The system is a small C++ OpenGL game skeleton. Most of it calls GLFW and GL
directly. This project models the parts that carry logic of their own, and proves
properties about them:

- **Entity registry** (`Entities`, entity.dfy). An `EntityManager` holds every live entity in three indexes:
  - an insertion-ordered list;
  - an id → entity map;
  - a type → list map.

  Ids come from a counter. `Valid()` states that the three indexes agree. Every
  operation keeps that invariant and states its exact new state: create, destroy
  by id, destroy all, lookup by id, lookup by type. Entities are heap objects, as
  the pointers of the source are. Deleting one clears its `alive` flag.
- **Mesh registry** (`Meshes`, mesh.dfy). A `Mesh` is a record of GPU object
  names and counts. `MeshRegistry` issues handles 0, 1, 2, … and stores meshes
  under them. `get` fails on an unknown handle. `clear` frees every mesh but
  erases nothing, because it is a `const` member.
- **Fixed-timestep loop** (`Timestep`, timestep.dfy). This is the main loop of
  `main`: it clamps each frame's elapsed time, accumulates it, drains
  0.01-second updates, computes `alpha` and renders once per frame. It is a
  method over a sequence of clock readings, proved equal to a specification
  function `RunLoop`. The bounds and counting properties are lemmas about that
  function.
- **Per-frame draw dispatch** (`Graphics`, graphics.dfy). `drawEntities` is a
  method that produces the trace of GL commands it issues; matrices stay
  symbolic (`MatExpr`). A small GL-state semantics (`After`, `Replay`) turns a
  trace into the draws it makes, each paired with the uniforms and vertex array
  in force. `FrameDraws` states what a frame draws.
- **Platform lifecycle** (`PlatformFacade`, platform.dfy). `platformInit` and
  `platformShutdown` act on a capability table with nullable slots, a window
  and a state. The backend is a parameter, and the calls into it are recorded.
- **Vector and matrix algebra** (`VecMath`, math.dfy). The arithmetic is over
  exact reals, written once for every size. The subset types `Vector2`..`Mat4`
  fix the sizes the source uses. The matrix products are loop methods proved
  against `Product`.
- **Log formatting** (`Logger`, logger.dfy). This covers the level-to-name and
  level-to-colour lookups and the line `Log` prints. A parser proves that the
  printed line determines the level and the message.

Where a header and its definition disagree, the model follows the definition:
- `getEntitiesByTag` is declared on a `const` manager but defined on a mutable
  one. Its `operator[]` inserts an empty bucket for a missing type, and the
  model does the same.
- `drawEntities` is defined with a window parameter, from which it queries the
  framebuffer size. That size is the `w`, `h` parameters here.
- `makeMesh` is declared to return `Mesh *`, but the definitions return a
  `Mesh`.

The logger's default colour `"47:30;"` has a colon where every other code has
a semicolon. It is modelled as written. `ColorForLogLevel` shows that this
branch is taken only for bytes that name no enumerator.

## Model

| member | source | states |
|---|---|---|
| `VecMath.Zero` | src/core/math.h:161-163 | `vector3()` and its 2- and 4-component siblings: n components, all 0 |
| `VecMath.Up` | src/core/math.h:170-172 | `vector3_up()` and siblings, as n components; that it has unit length and is minus `Down` is `VecMath.UpDown` |
| `VecMath.Down` | src/core/math.h:174-176 | `vector3_down()` and siblings, as n components; its relation to `Up` is `VecMath.UpDown` |
| `VecMath.Add` | src/core/math.h:54-56 | `operator+`: component i is `a[i] + b[i]`, the size kept; `AddSubCancel` and `SubIsAddNeg` relate it to `Sub` and `Neg` |
| `VecMath.Sub` | src/core/math.h:58-60 | binary `operator-`: component i is `a[i] - b[i]`; it undoes `Add` (`AddSubCancel`) |
| `VecMath.Scale` | src/core/math.h:62-64 | `operator*(float)`: component i is `a[i] * s`; its effect on length is `LengthSquaredOfScale`, and `ScaleDiv` inverts it |
| `VecMath.Div` | src/core/math.h:66-68 | `operator/(float)`: component i is `a[i] / s` for non-zero s; it undoes `Scale` (`ScaleDiv`) |
| `VecMath.Neg` | src/core/math.h:70-72 | unary `operator-`: component i is `-a[i]`; `a - b == a + (-b)` is `SubIsAddNeg` |
| `VecMath.Dot` | src/core/math.h:78-80 | `dot` for every size, defined by the source's sum of products; its written-out forms are `Dot2`, `Dot3`, `Dot4`, symmetry is `DotCommutative`, linearity in a scaled factor is `DotOfScale`, and non-negativity on a vector with itself is `LengthSquared` |
| `VecMath.LengthSquared` | src/core/math.h:83-84 | the squared length `dot(*this)` that `normalized` compares with eps² is never negative |
| `VecMath.DotOfScale` | src/core/math.h:62-64 | scaling one factor of a dot product by k scales the product by k |
| `VecMath.Cross` | src/core/math.h:91-95 | `cross` of a vector with itself is the zero vector; Lagrange's identity, orthogonality and anticommutativity are `CrossLagrange`, `CrossOrthogonal` and `CrossAnticommutative` |
| `VecMath.Normalized` | src/core/math.h:82-89 | zero vector exactly when the squared length is at most eps²; otherwise the result has squared length 1 (the inverse length satisfies k²·ls = 1) |
| `VecMath.NormalizedDefault` | src/core/math.h:82-89 | with the default eps of 1e-8, a unit vector comes back unchanged, and a vector of length exactly eps is already mapped to zero, because the test is `ls <= eps * eps` |
| `VecMath.Dot2` | src/core/math.h:35-37 | the size-generic dot product equals the written-out `x*x' + y*y'` |
| `VecMath.Dot3` | src/core/math.h:78-80 | the size-generic dot product equals the written-out three-term sum |
| `VecMath.Dot4` | src/core/math.h:128-130 | the size-generic dot product equals the written-out four-term sum |
| `VecMath.LengthSquaredOfScale` | src/core/math.h:83-88 | scaling by k multiplies the squared length by k², which is why `normalized` yields unit length |
| `VecMath.AddSubCancel` | src/core/math.h:54-60 | component-wise `(a + b) - b == a` for every size |
| `VecMath.SubIsAddNeg` | src/core/math.h:58-72 | `a - b == a + (-b)` |
| `VecMath.ScaleDiv` | src/core/math.h:62-68 | dividing by s undoes scaling by s, and `v / s == v * (1/s)` |
| `VecMath.UpDown` | src/core/math.h:170-176 | `vectorN_down()` is the negation of `vectorN_up()`, and the up vector has unit length |
| `VecMath.CrossOrthogonal` | src/core/math.h:91-95 | `a.cross(b)` has dot product 0 with `a` and with `b` |
| `VecMath.CrossAnticommutative` | src/core/math.h:91-95 | `a × b == -(b × a)` and `a × a` is the zero vector |
| `VecMath.CrossLagrange` | src/core/math.h:91-95 | Lagrange's identity: the squared length of `a.cross(b)` is `|a|²·|b|² − (a·b)²` |
| `VecMath.DotCommutative` | src/core/math.h:78-80 | the dot product is symmetric |
| `VecMath.Mat2Mul` | src/core/math.h:227-236 | the nested loops filling `out` compute the matrix product, row by column |
| `VecMath.Mat3Mul` | src/core/math.h:300-310 | the same for 3×3 |
| `VecMath.Mat4Mul` | src/core/math.h:384-394 | the same for 4×4 |
| `VecMath.Product` | src/core/math.h:384-394 | entry (r, c) of the product is row r of a dotted with column c of b: the specification the three loop methods meet |
| `VecMath.Apply` | src/core/math.h:396-405 | `operator*(Vector)`: entry r is row r of the matrix dotted with the vector, the size kept |
| `VecMath.Transpose` | src/core/math.h:407-413 | entry (r, c) of the transpose is entry (c, r) of the matrix |
| `VecMath.Identity` | src/core/math.h:416-423 | `mat4_identity()` and siblings: 1 on the diagonal and 0 elsewhere |
| `VecMath.MatAdd` | src/core/math.h:345-356 | `operator+(Mat)`: entry (r, c) is `a[r][c] + b[r][c]` |
| `VecMath.MatSub` | src/core/math.h:358-369 | `operator-(Mat)`: entry (r, c) is `a[r][c] - b[r][c]`; it undoes `MatAdd` (`MatAddSubCancel`) |
| `VecMath.MatScale` | src/core/math.h:371-382 | `operator*(float)` on matrices: entry (r, c) is `a[r][c] * s`; transpose commutes with it (`TransposeLinear`) |
| `VecMath.TransposeInvolution` | src/core/math.h:407-413 | transposing twice gives back the matrix, for every size |
| `VecMath.IdentitySymmetric` | src/core/math.h:416-423 | the identity is fixed by `transpose` |
| `VecMath.IdentityUnit` | src/core/math.h:384-394 | the identity is a left and right unit of the matrix product |
| `VecMath.IdentityApply` | src/core/math.h:396-405 | identity times a vector is that vector |
| `VecMath.MatAddSubCancel` | src/core/math.h:345-369 | entry-wise `(A + B) - B == A` |
| `VecMath.TransposeLinear` | src/core/math.h:210-246 | `transpose` distributes over `+` and commutes with scaling by a number |
| `Logger.LevelOfCode` | src/core/logger.h:6-13 | a byte names an enumerator exactly when it is below 6, and that enumerator's code is the byte |
| `Logger.StringForLogLevel` | src/core/logger.cpp:5-22 | the `default` name "LOG" is returned exactly for bytes that are no enumerator; names are non-empty and contain no space |
| `Logger.ColorForLogLevel` | src/core/logger.cpp:24-40 | the `default` code "47:30;" is returned exactly for non-enumerator bytes; every code is six characters |
| `Logger.CodeRoundTrip` | src/core/logger.h:6-13 | every enumerator has a code below 6 and is recovered from it |
| `Logger.ColorsShared` | src/core/logger.cpp:24-36 | two levels share a colour iff they are equal or both in {FATAL, ERROR}; that shared code is "41;30;" |
| `Logger.NamesDistinct` | src/core/logger.cpp:5-18 | two levels have the same name iff they are the same level |
| `Logger.LogLine` | src/core/logger.cpp:42-45 | the line `Log` prints starts with the colour-and-name header, is longer than it and ends with a newline; `HeaderLayout` places each field and the two parse lemmas show the line determines level and message |
| `Logger.HeaderLayout` | src/core/logger.cpp:42-45 | the printed line places the colour at 2..8 and the name's first letter at 11, then the message, then a newline |
| `Logger.ParseLogLineRoundTrip` | src/core/logger.cpp:42-45 | parsing the line `Log` prints gives back its level and message |
| `Logger.ParseLogLineSound` | src/core/logger.cpp:42-45 | every line that parses is exactly the line `Log` prints for the parsed level and message |
| `Meshes.Mesh.constructor` | src/graphics/mesh.h:11-15 | `Mesh{}` has all names and both counts 0 and is not released |
| `Meshes.Mesh.FromVertices` | src/graphics/mesh.cpp:6-33 | a non-indexed mesh keeps its vertex count, with index count and EBO 0 |
| `Meshes.Mesh.FromIndexed` | src/graphics/mesh.cpp:35-68 | an indexed mesh keeps both counts and its three buffer names |
| `Meshes.MeshRegistry.Valid` | src/graphics/mesh.h:17-25 | the registry invariant: every stored handle is below the counter, so the next handle `add` issues is not yet stored |
| `Meshes.MeshRegistry.constructor` | src/graphics/mesh.h:17-19 | a fresh registry is empty and will issue handle 0 first |
| `Meshes.MeshRegistry.Add` | src/graphics/mesh.h:21-25 | returns the old counter, increments it, stores the mesh under a handle not used before; `get` of it yields the mesh and every other handle resolves as before |
| `Meshes.MeshRegistry.Get` | src/graphics/mesh.h:27-29 | succeeds exactly for stored handles, with the stored mesh; a never-issued handle fails |
| `Meshes.MeshRegistry.Clear` | src/graphics/mesh.h:31-36 | every stored mesh is released; the map and the counter are unchanged |
| `Meshes.HandlesCountUp` | src/graphics/mesh.h:19-25 | three adds to a fresh registry give handles 0, 1, 2 that each resolve to their own mesh |
| `Entities.EntityTypeStr` | src/game/entity.cpp:5-14 | Player and only Player maps to "Player"; the `default` "ENTITY" is never returned |
| `Entities.Entity.constructor` | src/game/entity.cpp:17-21 | a new entity has the given id and type, zero position and scale, mesh handle 0 |
| `Entities.Find` | src/game/entity.cpp:37-39 | `std::find`: -1 exactly when absent, otherwise the first index holding the entity |
| `Entities.OfType` | src/game/entity.cpp:23-25 | the entities of one type in list order, which each bucket must equal; definition only, its properties are `OfTypeMembers`, `OfTypeIncreasing` and `OfTypeWithout` |
| `Entities.Without` | src/game/entity.cpp:37-44 | removal of one entity: the result is no longer than the list and does not contain it; `WithoutMembers` and `EraseIsWithout` state the rest |
| `Entities.OfTypeMembers` | src/game/entity.cpp:23-25 | membership in the type filter is membership in the list with that type |
| `Entities.OfTypeIncreasing` | src/game/entity.cpp:23-25 | filtering a creation-ordered list keeps it creation-ordered |
| `Entities.WithoutMembers` | src/game/entity.cpp:37-44 | removing an entity keeps exactly the other members |
| `Entities.EraseIsWithout` | src/game/entity.cpp:37-39 | erasing the only occurrence at index i is removing that entity, keeping the order of the rest |
| `Entities.OfTypeWithout` | src/game/entity.cpp:41-44 | removing from the list then filtering equals filtering then removing from the bucket |
| `Entities.CoherentAfterMake` | src/game/entity.cpp:19-25 | appending a fresh entity with the counter's id to the list, map and bucket keeps the indexes coherent with the incremented counter |
| `Entities.CoherentAfterDestroy` | src/game/entity.cpp:35-46 | removing a stored entity from the list, its bucket and the map keeps the indexes coherent |
| `Entities.EntityManager.Valid` | src/game/entity.h:29-34 | the manager invariant: the list is creation-ordered and live with ids below the counter, the id map stores exactly the listed entities under their ids, and each bucket is `OfType` of the list; definition only, its consequences are `IndexesAgree` |
| `Entities.EntityManager.constructor` | src/game/entity.h:29-34 | empty indexes and counter 0, coherent |
| `Entities.EntityManager.MakeEntity` | src/game/entity.cpp:16-28 | the new entity gets id = old counter (the counter goes up by one), the requested type, zero position, mesh 0; it is appended to the list and to its bucket and stored under its id; nothing else changes; indexes stay coherent |
| `Entities.EntityManager.DestroyEntity` | src/game/entity.cpp:30-48 | unknown id: nothing changes; otherwise exactly that entity leaves the list, the map and its own bucket, the rest keep their order, it is deleted; the counter stays |
| `Entities.EntityManager.DestroyAllEntities` | src/game/entity.cpp:50-58 | every listed entity is deleted and all three indexes are empty; the counter is unchanged |
| `Entities.EntityManager.GetEntityById` | src/game/entity.cpp:60-63 | null exactly when the id is not stored, otherwise the stored live entity with that id |
| `Entities.EntityManager.GetEntitiesByTag` | src/game/entity.cpp:65-68 | the bucket is exactly the live entities of that type in creation order; the only change is an empty bucket created for a missing type |
| `Entities.IndexesAgree` | src/game/entity.cpp:23-46 | under the invariant an entity is listed iff it is stored under its own id iff it is in its type's bucket, it is in no other bucket, and buckets hold no duplicates |
| `Entities.IdsNeverReused` | src/game/entity.cpp:19 | after destroying the first entity and destroying all, the next entity gets id 1, not the freed 0 |
| `Graphics.Eye` | src/graphics/graphics.cpp:108-109 | the camera eye is `(p.x, 7, p.z + 5)` |
| `Graphics.GlSizei` | src/graphics/graphics.cpp:120-122 | the `(GLsizei)` cast: a 32-bit two's-complement value congruent to the count, equal to it below 2³¹ |
| `Graphics.LastPlayer` | src/graphics/graphics.cpp:107-112 | a Player among the first n entities with no Player after it, so the one whose view-projection upload is the last to overwrite the uniform; none exactly when none of them is a Player |
| `Graphics.ViewProjection` | src/graphics/graphics.cpp:104-110 | the Player's view-projection is the 90° perspective with near 0.1 and far 100, times the look-at from (p.x, 7, p.z + 5) to p with up (0, 1, 0) |
| `Graphics.ModelMatrix` | src/graphics/graphics.cpp:114 | the model matrix is the translation to the position times the scaling by the scale |
| `Graphics.Uploads` | src/graphics/graphics.cpp:107-115 | the uniform uploads of one entity; definition only, their effect on the GL state is `UploadsEffect` |
| `Graphics.EntityCommands` | src/graphics/graphics.cpp:106-124 | one loop iteration aborts exactly when the entity's mesh handle is unknown; its effect on the GL state is `EntityEffect` |
| `Graphics.Loop` | src/graphics/graphics.cpp:106-124 | the first n iterations abort exactly when one of the first n entities has an unknown mesh handle; the draws they make are `LoopReplay` |
| `Graphics.DrawFrame` | src/graphics/graphics.cpp:93-130 | a frame aborts exactly when some entity's mesh handle is unknown, and always opens with the clear, use-program and viewport prologue; what it draws is `FrameDraws`, its shape `FrameShape` |
| `Graphics.DrawEntities` | src/graphics/graphics.cpp:93-130 | the issued command trace is `DrawFrame` of the entities' type, position, scale and mesh handle |
| `Graphics.UploadsEffect` | src/graphics/graphics.cpp:107-115 | an entity's uploads draw nothing, set the model uniform to its model matrix and set the view-projection only for a Player |
| `Graphics.EntityEffect` | src/graphics/graphics.cpp:106-124 | a resolved entity makes one draw with its mesh's VAO bound; an unresolved one draws nothing and aborts |
| `Graphics.LoopAbortStops` | src/graphics/graphics.cpp:117 | after a failed `registry.get` the remaining entities add no commands |
| `Graphics.LoopReplay` | src/graphics/graphics.cpp:106-124 | the first n loop iterations make draws that each fit their entity, fewer than n exactly when aborted at an unknown handle |
| `Graphics.FrameDraws` | src/graphics/graphics.cpp:93-130 | one draw per entity in vector order, each with its mesh (indexed by `indexCount` or by `vertexCount`), its model matrix and the last visited Player's view-projection; the frame aborts iff some handle is unknown, and then draws stop at the first such entity |
| `Graphics.PrologueEffect` | src/graphics/graphics.cpp:95-102 | clear, use-program and viewport draw nothing and change no uniform or VAO |
| `Graphics.EpilogueDrawsNothing` | src/graphics/graphics.cpp:126-129 | the epilogue draws nothing and leaves VAO 0 bound |
| `Graphics.LoopCommands` | src/graphics/graphics.cpp:106-124 | the loop emits only uploads, VAO binds and draws, and an aborted loop ends with an upload |
| `Graphics.FrameShape` | src/graphics/graphics.cpp:93-130 | the trace starts with clear colour, clear, use program, viewport; it ends with unbind, swap, poll iff no lookup failed; an aborted frame never swaps |
| `Graphics.DrawKind` | src/graphics/graphics.cpp:119-123 | indexed draw iff `indexCount > 0`, with the count itself when it fits the cast |
| `Graphics.DefaultMeshIsFirstAdded` | src/game/entity.h:26 | a fresh registry's first handle is 0, an entity's default mesh, so a one-entity frame draws that mesh |
| `Timestep.ClampFrameTime` | src/main.cpp:87-89 | the clamped time is at most 0.25 and at most the elapsed time, and is one of the two |
| `Timestep.Ticks` | src/main.cpp:93-97 | how many steps the drain loop takes; definition only, characterised by `TicksExact` and bounded by `FrameBounds` |
| `Timestep.Updates` | src/main.cpp:93-96 | the `update` calls of n drain steps from time t; definition only, its shape is `UpdatesShape` |
| `Timestep.FrameStep` | src/main.cpp:83-101 | one outer iteration: the reading becomes the current time; its events are `FrameEvents`, its bounds `FrameBounds`, its conservation `FrameConserves` |
| `Timestep.RunLoop` | src/main.cpp:82-101 | the whole loop over the readings: the current time ends as the last reading; `MainLoop` computes it, and `RunBounds`, `RunConserves` and `RunTicks` state its properties |
| `Timestep.TicksExact` | src/main.cpp:93-97 | the drain stops after the unique count that leaves less than one step and never goes below zero |
| `Timestep.MainLoop` | src/main.cpp:76-101 | the loop's final variables and its update/render events are `RunLoop` over the clock readings |
| `Timestep.UpdatesShape` | src/main.cpp:93-97 | n drain iterations emit n updates at t, t + dt, … and no render |
| `Timestep.FrameEvents` | src/main.cpp:83-101 | one frame: `Ticks` updates at consecutive steps, then exactly one render; time advances one step per update |
| `Timestep.RendersOncePerFrame` | src/main.cpp:82-101 | `render` runs exactly once per frame, last, whatever the tick count |
| `Timestep.TimeCountsTicks` | src/main.cpp:94-96 | the k-th update sees `time0 + k·0.01` and the final time is updates × 0.01 |
| `Timestep.FrameBounds` | src/main.cpp:87-99 | with a clock that does not go back: floor((acc + clamped)/0.01) ticks, at most 25, then `0 <= acc < 0.01` and `0 <= alpha < 1` |
| `Timestep.RunBounds` | src/main.cpp:82-101 | over a whole run with a monotone clock, the accumulator stays in [0, 0.01) and every alpha in [0, 1) |
| `Timestep.FrameConserves` | src/main.cpp:83-97 | one frame moves exactly the clamped elapsed time into `time + accumulator`, and the reading becomes the current time |
| `Timestep.RunConserves` | src/main.cpp:82-101 | over any run, `time + accumulator` grows by exactly the sum of the clamped frame times, and the current time is the last reading |
| `Timestep.RunTicks` | src/main.cpp:82-101 | with a clock that never goes back, the number of updates of a run is `floor(sum of clamped frame times / 0.01)` |
| `Timestep.ClockGoingBackGivesNegativeAlpha` | src/main.cpp:83-99 | a clock that goes back is not caught by the clamp and makes alpha negative |
| `PlatformFacade.PlatformWindow.constructor` | src/platform/platform.h:16-20 | a window starts not closing, with no handle and the given size |
| `PlatformFacade.Platform.constructor` | src/platform/platform.h:44-48 | an empty table, no window, no state |
| `PlatformFacade.PlatformInit` | src/platform/platform.cpp:11-26 | false for an unrecognised target with nothing changed; otherwise the backend's table is installed and the result is true iff `init` is non-null, when it is invoked exactly once; the window is untouched |
| `PlatformFacade.PlatformShutdown` | src/platform/platform.cpp:28-40 | null is left alone; otherwise `shutdown` is invoked iff non-null, then every slot, the window and the state are null |
| `PlatformFacade.ShutdownTwice` | src/platform/platform.cpp:33-39 | a second shutdown invokes nothing more |
| `PlatformFacade.LinuxInitSucceeds` | src/platform/platform_linux.cpp:182-196 | the Linux table leaves only `log` null, so init succeeds on Linux and not without a target |
| `PlatformFacade.LinuxLifecycle` | src/platform/platform_linux.cpp:50-60 | init then shutdown on Linux invokes `linux_init` then `linux_shutdown` and leaves everything null |

## Left out

- Entities.EntityManager.GetEntitiesByTag: returns a snapshot of the bucket, not a pointer to it. Later creates and destroys do not update a bucket already returned, and callers cannot write through it, as they can through the pointer the source returns.
- Logger.LogLine: the message is any `string`, while `Log` takes a C string. The model does not capture that `%s` stops at the first NUL character, or that a null message is undefined. So `Logger.ParseLogLineRoundTrip` and `Logger.ParseLogLineSound` also cover messages containing '\0', which the program cannot print whole.
- Meshes.MeshRegistry.Add: takes a non-null mesh. The source's `add` also accepts `nullptr`. Then `get` returns null without throwing and `drawEntities` dereferences it. That path is not modelled.
- GLFW and GL calls (windows, contexts, shaders, buffers, attribute setup) are foreign I/O.
  - The draw dispatch records GL commands as a trace instead of issuing them.
  - `initGraphics`, `shutdownGraphics` and the GLFW setup and teardown of `main` are not modelled.
  - The buffer names that `glGen*` returns are constructor parameters of `Mesh`.
- Arithmetic is over exact reals. Float and double rounding, `magnitude` and `std::sqrt` are not modelled.
- VecMath.Normalized: takes the inverse square root as a parameter, constrained by its defining equation, instead of computing it.
- VecMath.Div: requires a non-zero divisor. Float division by zero (infinities, NaN) has no counterpart over the reals.
- `toRadians` and the `mat4_perspective`, `mat4_lookAt`, `mat4_translate` and `mat4_scale` helpers are not defined in the source. Their results are symbolic `MatExpr` terms.
- Graphics.FrameDraws: requires the model and view-projection uniform locations to differ. They are two distinct uniforms of the shader, and their locations come from GL.
- Graphics.DrawEntities: requires the registry invariant `Valid()` (stored handles are below the counter). The registry's constructor and `Add` establish it, and `Clear` keeps it, so a frame drawn after `clear` is covered too. Such a frame reads meshes whose `released` flag is set; that use after free is not flagged.
- Meshes.MeshRegistry.Clear: a second call releases every stored mesh again, and a single call does so for a mesh that `Add` stored under two handles. In the source either frees the same pointer twice; the model only sets the `released` flag again and does not flag the double free.
- Entities.Entity: `id` and `kind` are immutable in the model, while the source's struct fields are writable through every pointer the manager hands out. The manager's invariant (list, id map and type buckets agree) holds in the source only while callers leave those two fields alone.
- Ids and mesh handles are `nat`. The unsigned 32-bit wrap-around of `currentId` and `MeshId` is not modelled.
- `new`, `delete` and `free` become an `alive` or `released` flag.
  - A freed object is not reclaimed. Use after free is not modelled.
  - The leaked `PlatformWindow` is not modelled.
- The `Log` message in `MeshRegistry::clear` is debug output and is not modelled.
- The `vector_str` and `mat_str` printing in src/core/math.cpp uses `std::format` and is not modelled.
- `makeMeshFromObj` is only declared (src/graphics/mesh.h:48), so it is not modelled.
- The window's close flag is modelled as the end of the sequence of clock readings. The `update` and `render` bodies are recorded as events only.
- The Windows and Mac backends are not part of this model.
  - A backend is abstract: the table its factory installs, and the state its `init` stores.
  - The Linux factory also assigns `getAxisValue`, which `PlatformAPI` has no slot for. That assignment is dropped.
- The boolean results of the backend factory and of `init` are ignored by `platformInit`, so they are not modelled.
- src/core/assert.h, src/platform/input.h and the joystick, time and sleep functions of the Linux backend are not part of this model.

/**
 * GPU meshes and the registry that owns them.
 *
 * A `Mesh` is an opaque record of OpenGL object names and counts; the names
 * come from `glGen*` calls, which are outside the model, so they are
 * constructor parameters. `released` stands for the `free` that `clear`
 * applies to the mesh.
 */
module Meshes {
  import opened Wrappers

  class Mesh {
    const vao: nat
    const vbo: nat
    const ebo: nat
    const vertexCount: nat
    /** 0 means "draw by vertex count, without an index buffer". */
    const indexCount: nat
    var released: bool

    /** `Mesh{}`: value-initialised, so every name and count is 0. */
    constructor ()
      ensures vao == 0 && vbo == 0 && ebo == 0
      ensures vertexCount == 0 && indexCount == 0 && !released
    {
      vao, vbo, ebo := 0, 0, 0;
      vertexCount, indexCount := 0, 0;
      released := false;
    }

    /** `makeMesh(vertices, vertexCount)`: a non-indexed mesh; EBO and indexCount stay 0. */
    constructor FromVertices(vao: nat, vbo: nat, vertexCount: nat)
      ensures this.vao == vao && this.vbo == vbo && this.vertexCount == vertexCount
      ensures ebo == 0 && indexCount == 0 && !released
    {
      this.vao, this.vbo, this.ebo := vao, vbo, 0;
      this.vertexCount, this.indexCount := vertexCount, 0;
      released := false;
    }

    /** `makeMesh(vertices, vertexCount, indices, indexCount)`: an indexed mesh. */
    constructor FromIndexed(vao: nat, vbo: nat, ebo: nat, vertexCount: nat, indexCount: nat)
      ensures this.vao == vao && this.vbo == vbo && this.ebo == ebo
      ensures this.vertexCount == vertexCount && this.indexCount == indexCount && !released
    {
      this.vao, this.vbo, this.ebo := vao, vbo, ebo;
      this.vertexCount, this.indexCount := vertexCount, indexCount;
      released := false;
    }
  }

  /**
   * `MeshRegistry`: handles 0, 1, 2, ... issued from `current` and stored in
   * `meshes`.
   */
  class MeshRegistry {
    var meshes: map<nat, Mesh>
    var current: nat

    /** Every stored handle was issued before `current`. */
    ghost predicate Valid()
      reads this
      ensures Valid() ==> current !in meshes
    {
      forall h :: h in meshes ==> h < current
    }

    /** A fresh registry: no meshes, and the first handle it issues is 0. */
    constructor ()
      ensures Valid() && meshes == map[] && current == 0
    {
      meshes, current := map[], 0;
    }

    /** The set of meshes the registry holds. */
    function Stored(): (stored: set<Mesh>)
      reads this
    {
      meshes.Values
    }

    /** `add`: returns the counter, then increments it, and stores the mesh under the returned handle. */
    method Add(mesh: Mesh) returns (id: nat)
      requires Valid()
      modifies this
      ensures Valid()
      ensures id == old(current) && current == old(current) + 1
      ensures id !in old(meshes) && meshes == old(meshes)[id := mesh]
      ensures Get(id) == Some(mesh)
      ensures forall h :: h != id ==> Get(h) == old(Get(h))
    {
      id := current;
      current := current + 1;
      meshes := meshes[id := mesh];
    }

    /**
     * `get`: `unordered_map::at`, which throws on a handle that is not a key;
     * the failure is `None`. A handle that was never issued always fails.
     */
    function Get(id: nat): (r: Option<Mesh>)
      requires Valid()
      reads this
      ensures r.Some? <==> id in meshes
      ensures r.Some? ==> r.value == meshes[id]
      ensures id >= current ==> r == None
    {
      if id in meshes then Some(meshes[id]) else None
    }

    /**
     * `clear`: a `const` member that frees every stored mesh. It erases no
     * key and leaves the counter alone, so the registry still resolves every
     * handle, now to a released mesh.
     */
    method Clear()
      requires Valid()
      modifies Stored()
      ensures Valid() && meshes == old(meshes) && current == old(current)
      ensures forall h :: h in meshes ==> meshes[h].released
    {
      var remaining := meshes.Keys;
      while remaining != {}
        invariant remaining <= meshes.Keys
        invariant forall h :: h in meshes && h !in remaining ==> meshes[h].released
        decreases remaining
      {
        var h :| h in remaining;
        meshes[h].released := true;
        remaining := remaining - {h};
      }
    }
  }

  /**
   * Handles issued one after another are 0, 1, 2, ...: three adds to a fresh
   * registry give 0, 1 and 2, and each handle still resolves to its own mesh.
   */
  method HandlesCountUp(m0: Mesh, m1: Mesh, m2: Mesh) returns (h0: nat, h1: nat, h2: nat, registry: MeshRegistry)
    ensures h0 == 0 && h1 == 1 && h2 == 2 && registry.current == 3
    ensures registry.Valid()
    ensures registry.Get(h0) == Some(m0) && registry.Get(h1) == Some(m1) && registry.Get(h2) == Some(m2)
  {
    registry := new MeshRegistry();
    h0 := registry.Add(m0);
    h1 := registry.Add(m1);
    h2 := registry.Add(m2);
  }
}

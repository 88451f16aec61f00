/**
 * The per-frame draw dispatch, `drawEntities`, modelled as the sequence of
 * OpenGL commands it issues.
 *
 * The matrix helpers (`mat4_perspective`, `mat4_lookAt`, `mat4_translate`,
 * `mat4_scale`) are not defined in the modelled code, so their results are
 * uninterpreted `MatExpr` terms that record how each uploaded matrix was
 * built. The framebuffer size and the uniform locations that `initGraphics`
 * looked up are parameters. A trace is given meaning by `Replay`, a small
 * interpreter of the GL state the commands change: the bound vertex array
 * and the uniform values.
 */
module Graphics {
  import opened Wrappers
  import opened VecMath
  import opened Entities
  import opened Meshes

  /** A 4x4 matrix as the helper calls that built it. */
  datatype MatExpr =
    | Perspective(fovDegrees: real, width: int, height: int, near: real, far: real)
    | LookAt(eye: Vector3, target: Vector3, up: Vector3)
    | Translation(offset: Vector3)
    | Scaling(factors: Vector3)
    | Times(left: MatExpr, right: MatExpr)

  datatype GlCommand =
    | ClearColor(r: real, g: real, b: real, a: real)
    | Clear(colorBuffer: bool, depthBuffer: bool)
    | UseProgram(program: nat)
    | Viewport(x: int, y: int, width: int, height: int)
    | UniformMatrix4(location: int, transpose: bool, value: MatExpr)
    | BindVertexArray(vao: nat)
    | DrawElements(count: int)
    | DrawArrays(first: int, count: int)
    | SwapBuffers
    | PollEvents

  /** The two uniform locations `initGraphics` stores: `uModelLoc` and `uViewProjLoc`. */
  datatype Uniforms = Uniforms(model: int, viewProj: int)

  /** The commands of one frame; `aborted` when `registry.get` threw part-way. */
  datatype Frame = Frame(commands: seq<GlCommand>, aborted: bool)

  // ---------------------------------------------------------------------------
  // The matrices and commands of one frame
  // ---------------------------------------------------------------------------

  /** `mat4_perspective(toRadians(90), w / h, 0.1, 100)`. */
  function Projection(w: int, h: int): (m: MatExpr) {
    Perspective(90.0, w, h, 0.1, 100.0)
  }

  /** The camera sits 7 units up and 5 units behind the player. */
  function Eye(p: Vector3): (eye: Vector3)
    ensures eye[0] == p[0] && eye[1] == 7.0 && eye[2] == p[2] + 5.0
  {
    [p[0], 7.0, p[2] + 5.0]
  }

  const UpAxis: Vector3 := [0.0, 1.0, 0.0]

  /** `proj * mat4_lookAt(eye, position, {0, 1, 0})` for a player at p. */
  function ViewProjection(p: Vector3, w: int, h: int): (m: MatExpr)
    ensures m == Times(Perspective(90.0, w, h, 0.1, 100.0), LookAt([p[0], 7.0, p[2] + 5.0], p, [0.0, 1.0, 0.0]))
  {
    Times(Projection(w, h), LookAt(Eye(p), p, UpAxis))
  }

  /** `mat4_translate(position) * mat4_scale(scale)`. */
  function ModelMatrix(position: Vector3, scale: Vector3): (m: MatExpr)
    ensures m.Times? && m.left == Translation(position) && m.right == Scaling(scale)
  {
    Times(Translation(position), Scaling(scale))
  }

  /**
   * The `(GLsizei)` cast of an `unsigned int` count: the 32-bit pattern read
   * as a two's-complement integer.
   */
  function GlSizei(n: nat): (r: int)
    ensures -0x8000_0000 <= r < 0x8000_0000
    ensures (n - r) % 0x1_0000_0000 == 0
    ensures n < 0x8000_0000 ==> r == n
  {
    var low := n % 0x1_0000_0000;
    if low < 0x8000_0000 then low else low - 0x1_0000_0000
  }

  /** The draw call for a mesh: indexed when it has indices, by vertex count otherwise. */
  function DrawFor(m: Mesh): (d: GlCommand) {
    if m.indexCount > 0 then DrawElements(GlSizei(m.indexCount)) else DrawArrays(0, GlSizei(m.vertexCount))
  }

  /** What precedes the entity loop: clear colour, clear, use program, viewport. */
  function Prologue(program: nat, w: int, h: int): (cmds: seq<GlCommand>) {
    [ClearColor(0.2, 0.3, 0.3, 1.0), Clear(true, true), UseProgram(program), Viewport(0, 0, w, h)]
  }

  /** What follows the entity loop: unbind the vertex array, swap, poll. */
  const Epilogue: seq<GlCommand> := [BindVertexArray(0), SwapBuffers, PollEvents]

  /**
   * What the loop reads of an entity: its type, position, scale and mesh
   * handle. The specification works on these snapshots; the method reads
   * the entity objects themselves.
   */
  datatype EntityView = EntityView(kind: EntityType, position: Vector3, scale: Vector3, mesh: nat)

  function View(e: Entity): (v: EntityView)
    reads e
    ensures v.kind == e.kind && v.position == e.position && v.scale == e.scale && v.mesh == e.mesh
  {
    EntityView(e.kind, e.position, e.scale, e.mesh)
  }

  /** The snapshots of a vector of entities, in order. */
  function Views(es: seq<Entity>): (vs: seq<EntityView>)
    reads es
    ensures |vs| == |es|
    ensures forall k :: 0 <= k < |es| ==> vs[k] == View(es[k])
    decreases |es|
  {
    if es == [] then [] else Views(es[..|es| - 1]) + [View(es[|es| - 1])]
  }

  /** The uploads for one entity: the view-projection for a player, then the model matrix. */
  function Uploads(e: EntityView, w: int, h: int, locs: Uniforms): (cmds: seq<GlCommand>)
  {
    (if e.kind == Player then [UniformMatrix4(locs.viewProj, true, ViewProjection(e.position, w, h))] else [])
    + [UniformMatrix4(locs.model, true, ModelMatrix(e.position, e.scale))]
  }

  /**
   * One iteration of the entity loop over the registry's `meshes`; it aborts
   * after the uploads when the mesh handle is not a key (`meshes.at` throws).
   */
  function EntityCommands(e: EntityView, meshes: map<nat, Mesh>, w: int, h: int, locs: Uniforms): (f: Frame)
    ensures f.aborted <==> e.mesh !in meshes
  {
    if e.mesh in meshes then
      Frame(Uploads(e, w, h, locs) + [BindVertexArray(meshes[e.mesh].vao), DrawFor(meshes[e.mesh])], false)
    else
      Frame(Uploads(e, w, h, locs), true)
  }

  /** The first n iterations of the entity loop over es; it stops at the first abort. */
  function Loop(es: seq<EntityView>, n: nat, meshes: map<nat, Mesh>, w: int, h: int, locs: Uniforms): (f: Frame)
    requires n <= |es|
    ensures f.aborted <==> exists k :: 0 <= k < n && es[k].mesh !in meshes
  {
    if n == 0 then Frame([], false)
    else
      var f := Loop(es, n - 1, meshes, w, h, locs);
      if f.aborted then f
      else
        var g := EntityCommands(es[n - 1], meshes, w, h, locs);
        Frame(f.commands + g.commands, g.aborted)
  }

  /** The whole of `drawEntities`: the epilogue is skipped when the loop aborted. */
  function DrawFrame(es: seq<EntityView>, program: nat, meshes: map<nat, Mesh>, w: int, h: int, locs: Uniforms): (f: Frame)
    ensures f.aborted <==> exists k :: 0 <= k < |es| && es[k].mesh !in meshes
    ensures |f.commands| >= 4 && f.commands[..4] == Prologue(program, w, h)
  {
    var b := Loop(es, |es|, meshes, w, h, locs);
    Frame(Prologue(program, w, h) + b.commands + (if b.aborted then [] else Epilogue), b.aborted)
  }

  /**
   * `drawEntities(window, entities, shaderProgram, registry)` as defined, with
   * the framebuffer size the window reports as w and h. An unknown mesh
   * handle makes `registry.get` throw, which ends the frame there.
   */
  method DrawEntities(entities: seq<Entity>, program: nat, registry: MeshRegistry,
                      w: int, h: int, locs: Uniforms) returns (frame: Frame)
    requires registry.Valid()
    ensures frame == DrawFrame(Views(entities), program, registry.meshes, w, h, locs)
  {
    ghost var vs := Views(entities);
    var prologue := [ClearColor(0.2, 0.3, 0.3, 1.0), Clear(true, true), UseProgram(program), Viewport(0, 0, w, h)];
    var proj := Perspective(90.0, w, h, 0.1, 100.0);

    var body := [];
    var i := 0;
    while i < |entities|
      invariant 0 <= i <= |entities|
      invariant !Loop(vs, i, registry.meshes, w, h, locs).aborted
      invariant body == Loop(vs, i, registry.meshes, w, h, locs).commands
    {
      var e := entities[i];
      assert vs[i] == View(e);
      var step := [];
      if e.kind == Player {
        var view := LookAt([e.position[0], 7.0, e.position[2] + 5.0], e.position, [0.0, 1.0, 0.0]);
        step := step + [UniformMatrix4(locs.viewProj, true, Times(proj, view))];
      }
      step := step + [UniformMatrix4(locs.model, true, Times(Translation(e.position), Scaling(e.scale)))];
      assert step == Uploads(vs[i], w, h, locs);

      var m := registry.Get(e.mesh);
      if m.None? {
        LoopAbortStops(vs, i + 1, registry.meshes, w, h, locs);
        frame := Frame(prologue + (body + step), true);
        return;
      }
      step := step + [BindVertexArray(m.value.vao)];
      if m.value.indexCount > 0 {
        step := step + [DrawElements(GlSizei(m.value.indexCount))];
      } else {
        step := step + [DrawArrays(0, GlSizei(m.value.vertexCount))];
      }
      assert step == EntityCommands(vs[i], registry.meshes, w, h, locs).commands;
      body := body + step;
      i := i + 1;
    }
    var epilogue := [BindVertexArray(0), SwapBuffers, PollEvents];
    frame := Frame(prologue + body + epilogue, false);
  }

  // ---------------------------------------------------------------------------
  // The GL state a trace leaves behind, and the draws it makes
  // ---------------------------------------------------------------------------

  /** The slice of GL state the frame changes: uniform values and the bound vertex array. */
  datatype GlState = GlState(uniforms: map<int, MatExpr>, vao: nat)

  /** A draw command together with the state it was issued in. */
  datatype DrawCall = DrawCall(command: GlCommand, state: GlState)

  function Lookup(u: map<int, MatExpr>, loc: int): (r: Option<MatExpr>) {
    if loc in u then Some(u[loc]) else None
  }

  function Step(s: GlState, c: GlCommand): (t: GlState) {
    match c
    case UniformMatrix4(loc, _, value) => s.(uniforms := s.uniforms[loc := value])
    case BindVertexArray(vao) => s.(vao := vao)
    case _ => s
  }

  predicate IsDraw(c: GlCommand) {
    c.DrawElements? || c.DrawArrays?
  }

  /** The state after running cmds from s. */
  function After(s: GlState, cmds: seq<GlCommand>): (t: GlState)
    decreases |cmds|
  {
    if cmds == [] then s else Step(After(s, cmds[..|cmds| - 1]), cmds[|cmds| - 1])
  }

  /** The draws cmds makes from s, each with the state it sees. */
  function Replay(s: GlState, cmds: seq<GlCommand>): (calls: seq<DrawCall>)
    decreases |cmds|
  {
    if cmds == [] then []
    else
      var front, last := cmds[..|cmds| - 1], cmds[|cmds| - 1];
      Replay(s, front) + (if IsDraw(last) then [DrawCall(last, After(s, front))] else [])
  }

  /** The last player among the first n entities, if any: no player comes after it. */
  function LastPlayer(es: seq<EntityView>, n: nat): (r: Option<EntityView>)
    requires n <= |es|
    ensures r.Some? ==> r.value in es[..n] && r.value.kind == Player
    ensures r.Some? ==> exists i :: 0 <= i < n && es[i] == r.value && forall j :: i < j < n ==> es[j].kind != Player
    ensures r.None? <==> forall k :: 0 <= k < n ==> es[k].kind != Player
  {
    if n == 0 then None
    else if es[n - 1].kind == Player then Some(es[n - 1])
    else LastPlayer(es, n - 1)
  }

  /**
   * The view-projection in force after visiting the first n entities: the
   * last player's, or the one set before the frame when none was a player.
   */
  function ViewProjAfter(es: seq<EntityView>, n: nat, initial: Option<MatExpr>, w: int, h: int): (r: Option<MatExpr>)
    requires n <= |es|
  {
    match LastPlayer(es, n)
    case Some(p) => Some(ViewProjection(p.position, w, h))
    case None => initial
  }

  // ---------------------------------------------------------------------------
  // Lemmas about traces
  // ---------------------------------------------------------------------------

  lemma {:induction false} AfterConcat(s: GlState, a: seq<GlCommand>, b: seq<GlCommand>)
    ensures After(s, a + b) == After(After(s, a), b)
    decreases |b|
  {
    if b == [] {
      assert a + b == a;
    } else {
      var front := b[..|b| - 1];
      AfterConcat(s, a, front);
      assert (a + b)[..|a + b| - 1] == a + front;
    }
  }

  lemma {:induction false} ReplayConcat(s: GlState, a: seq<GlCommand>, b: seq<GlCommand>)
    ensures Replay(s, a + b) == Replay(s, a) + Replay(After(s, a), b)
    decreases |b|
  {
    if b == [] {
      assert a + b == a;
    } else {
      var front := b[..|b| - 1];
      ReplayConcat(s, a, front);
      AfterConcat(s, a, front);
      assert (a + b)[..|a + b| - 1] == a + front;
    }
  }

  lemma ReplaySingle(s: GlState, c: GlCommand)
    ensures Replay(s, [c]) == (if IsDraw(c) then [DrawCall(c, s)] else [])
    ensures After(s, [c]) == Step(s, c)
  {
    assert [c][..0] == [];
  }

  /** The uploads of one entity draw nothing and set the two uniforms they name. */
  lemma UploadsEffect(s: GlState, e: EntityView, w: int, h: int, locs: Uniforms)
    requires locs.model != locs.viewProj
    ensures Replay(s, Uploads(e, w, h, locs)) == []
    ensures var t := After(s, Uploads(e, w, h, locs));
      && t.vao == s.vao
      && Lookup(t.uniforms, locs.model) == Some(ModelMatrix(e.position, e.scale))
      && Lookup(t.uniforms, locs.viewProj)
         == (if e.kind == Player then Some(ViewProjection(e.position, w, h)) else Lookup(s.uniforms, locs.viewProj))
  {
    var vp := UniformMatrix4(locs.viewProj, true, ViewProjection(e.position, w, h));
    var md := UniformMatrix4(locs.model, true, ModelMatrix(e.position, e.scale));
    ReplaySingle(s, md);
    if e.kind == Player {
      ReplaySingle(s, vp);
      ReplayConcat(s, [vp], [md]);
      AfterConcat(s, [vp], [md]);
      ReplaySingle(Step(s, vp), md);
    }
  }

  /** Binding a vertex array and drawing makes one draw, with that array bound. */
  lemma BindThenDraw(s: GlState, vao: nat, d: GlCommand)
    requires IsDraw(d)
    ensures Replay(s, [BindVertexArray(vao), d]) == [DrawCall(d, s.(vao := vao))]
    ensures After(s, [BindVertexArray(vao), d]) == s.(vao := vao)
  {
    var pair := [BindVertexArray(vao), d];
    assert pair[..1] == [BindVertexArray(vao)];
    ReplaySingle(s, BindVertexArray(vao));
  }

  /** A resolved entity draws once, with its mesh's vertex array bound, after its uploads. */
  lemma EntityEffect(s: GlState, e: EntityView, meshes: map<nat, Mesh>, w: int, h: int, locs: Uniforms)
    requires locs.model != locs.viewProj
    ensures var g := EntityCommands(e, meshes, w, h, locs);
      var calls, t, u := Replay(s, g.commands), After(s, g.commands), After(s, Uploads(e, w, h, locs));
      && (g.aborted <==> e.mesh !in meshes)
      && (g.aborted ==> calls == [])
      && (!g.aborted ==>
            var m := meshes[e.mesh];
            && calls == [DrawCall(DrawFor(m), u.(vao := m.vao))]
            && t == u.(vao := m.vao))
  {
    UploadsEffect(s, e, w, h, locs);
    if e.mesh in meshes {
      var m := meshes[e.mesh];
      var up := Uploads(e, w, h, locs);
      var tail := [BindVertexArray(m.vao), DrawFor(m)];
      ReplayConcat(s, up, tail);
      AfterConcat(s, up, tail);
      BindThenDraw(After(s, up), m.vao, DrawFor(m));
    }
  }

  /** Once the loop has aborted, the later entities add nothing. */
  lemma {:induction false} LoopAbortStops(es: seq<EntityView>, n: nat, meshes: map<nat, Mesh>,
                                          w: int, h: int, locs: Uniforms)
    requires n <= |es|
    requires Loop(es, n, meshes, w, h, locs).aborted
    ensures Loop(es, |es|, meshes, w, h, locs) == Loop(es, n, meshes, w, h, locs)
    decreases |es| - n
  {
    if n < |es| {
      LoopAbortStops(es, n + 1, meshes, w, h, locs);
    }
  }

  /**
   * The k-th draw, made for the k-th entity: it uses that entity's mesh
   * (indexed or not) with the mesh's vertex array bound, the entity's model
   * matrix, and the view-projection of the last player among the first
   * k + 1 entities.
   */
  ghost predicate CallFits(c: DrawCall, es: seq<EntityView>, k: nat, meshes: map<nat, Mesh>,
                           locs: Uniforms, initial: Option<MatExpr>, w: int, h: int)
    requires k < |es|
  {
    && es[k].mesh in meshes
    && c.command == DrawFor(meshes[es[k].mesh])
    && c.state.vao == meshes[es[k].mesh].vao
    && Lookup(c.state.uniforms, locs.model) == Some(ModelMatrix(es[k].position, es[k].scale))
    && Lookup(c.state.uniforms, locs.viewProj) == ViewProjAfter(es, k + 1, initial, w, h)
  }

  /** Every draw in calls is the one its position calls for. */
  ghost predicate DrawsFit(calls: seq<DrawCall>, es: seq<EntityView>, meshes: map<nat, Mesh>,
                           locs: Uniforms, initial: Option<MatExpr>, w: int, h: int)
  {
    |calls| <= |es| &&
    forall k :: 0 <= k < |calls| ==> CallFits(calls[k], es, k, meshes, locs, initial, w, h)
  }

  /**
   * What the first n iterations of the loop, replayed from s, amount to:
   * every draw fits its entity, the loop has aborted exactly when it made
   * fewer than n draws, and then the entity it stopped at has an unknown
   * mesh handle; otherwise the view-projection left in force is the last
   * player's.
   */
  ghost predicate ReplayFacts(es: seq<EntityView>, n: nat, meshes: map<nat, Mesh>, w: int, h: int,
                              locs: Uniforms, s: GlState)
    requires n <= |es|
  {
    var b := Loop(es, n, meshes, w, h, locs);
    var calls, initial := Replay(s, b.commands), Lookup(s.uniforms, locs.viewProj);
    && |calls| <= n
    && DrawsFit(calls, es, meshes, locs, initial, w, h)
    && (b.aborted <==> |calls| < n)
    && (b.aborted ==> es[|calls|].mesh !in meshes)
    && (!b.aborted ==> Lookup(After(s, b.commands).uniforms, locs.viewProj) == ViewProjAfter(es, n, initial, w, h))
  }

  /** A draw that fits the next entity extends a list of fitting draws. */
  lemma DrawsFitAppend(calls: seq<DrawCall>, c: DrawCall, es: seq<EntityView>, meshes: map<nat, Mesh>,
                       locs: Uniforms, initial: Option<MatExpr>, w: int, h: int)
    requires |calls| < |es| && DrawsFit(calls, es, meshes, locs, initial, w, h)
    requires CallFits(c, es, |calls|, meshes, locs, initial, w, h)
    ensures DrawsFit(calls + [c], es, meshes, locs, initial, w, h)
  {
    forall k | 0 <= k < |calls| + 1
      ensures CallFits((calls + [c])[k], es, k, meshes, locs, initial, w, h)
    {
      if k < |calls| {
        assert (calls + [c])[k] == calls[k];
      }
    }
  }

  /** The draw a resolved entity makes fits it, and it leaves the last player's view-projection in force. */
  lemma NewCallFits(es: seq<EntityView>, n: nat, meshes: map<nat, Mesh>, w: int, h: int,
                    locs: Uniforms, initial: Option<MatExpr>, t: GlState)
    requires 0 < n <= |es| && locs.model != locs.viewProj && es[n - 1].mesh in meshes
    requires Lookup(t.uniforms, locs.viewProj) == ViewProjAfter(es, n - 1, initial, w, h)
    ensures var g := EntityCommands(es[n - 1], meshes, w, h, locs);
      && |Replay(t, g.commands)| == 1
      && CallFits(Replay(t, g.commands)[0], es, n - 1, meshes, locs, initial, w, h)
      && Lookup(After(t, g.commands).uniforms, locs.viewProj) == ViewProjAfter(es, n, initial, w, h)
  {
    EntityEffect(t, es[n - 1], meshes, w, h, locs);
    UploadsEffect(t, es[n - 1], w, h, locs);
  }

  /** One resolved iteration adds the draw that fits its entity. */
  lemma ReplayStepDraws(es: seq<EntityView>, n: nat, meshes: map<nat, Mesh>, w: int, h: int,
                        locs: Uniforms, s: GlState)
    requires 0 < n <= |es| && locs.model != locs.viewProj
    requires ReplayFacts(es, n - 1, meshes, w, h, locs, s)
    requires !Loop(es, n - 1, meshes, w, h, locs).aborted
    requires es[n - 1].mesh in meshes
    ensures ReplayFacts(es, n, meshes, w, h, locs, s)
  {
    var initial := Lookup(s.uniforms, locs.viewProj);
    var f := Loop(es, n - 1, meshes, w, h, locs);
    var g := EntityCommands(es[n - 1], meshes, w, h, locs);
    var t := After(s, f.commands);
    ReplayConcat(s, f.commands, g.commands);
    AfterConcat(s, f.commands, g.commands);
    NewCallFits(es, n, meshes, w, h, locs, initial, t);
    var added := Replay(t, g.commands);
    assert added == [added[0]];
    DrawsFitAppend(Replay(s, f.commands), added[0], es, meshes, locs, initial, w, h);
  }

  /** An iteration whose mesh handle is unknown adds no draw and aborts. */
  lemma ReplayStepAborts(es: seq<EntityView>, n: nat, meshes: map<nat, Mesh>, w: int, h: int,
                         locs: Uniforms, s: GlState)
    requires 0 < n <= |es| && locs.model != locs.viewProj
    requires ReplayFacts(es, n - 1, meshes, w, h, locs, s)
    requires !Loop(es, n - 1, meshes, w, h, locs).aborted
    requires es[n - 1].mesh !in meshes
    ensures ReplayFacts(es, n, meshes, w, h, locs, s)
  {
    var f := Loop(es, n - 1, meshes, w, h, locs);
    var g := EntityCommands(es[n - 1], meshes, w, h, locs);
    ReplayConcat(s, f.commands, g.commands);
    EntityEffect(After(s, f.commands), es[n - 1], meshes, w, h, locs);
    assert Loop(es, n, meshes, w, h, locs) == Frame(f.commands + g.commands, true);
    assert Replay(s, f.commands + g.commands) == Replay(s, f.commands);
  }

  /** The first n iterations of the loop, replayed from s, amount to `ReplayFacts`. */
  lemma {:induction false} LoopReplay(es: seq<EntityView>, n: nat, meshes: map<nat, Mesh>, w: int, h: int,
                                      locs: Uniforms, s: GlState)
    requires n <= |es| && locs.model != locs.viewProj
    ensures ReplayFacts(es, n, meshes, w, h, locs, s)
  {
    if n > 0 {
      LoopReplay(es, n - 1, meshes, w, h, locs, s);
      if !Loop(es, n - 1, meshes, w, h, locs).aborted {
        if es[n - 1].mesh in meshes {
          ReplayStepDraws(es, n, meshes, w, h, locs, s);
        } else {
          ReplayStepAborts(es, n, meshes, w, h, locs, s);
        }
      }
    }
  }

  /**
   * The draws of a whole frame: exactly one per entity, in vector order, each
   * fitting its entity (`CallFits`: its mesh, indexed with `indexCount` when
   * the mesh has indices and by `vertexCount` otherwise, its model matrix and
   * the last player's view-projection, or the one set before the frame while
   * no player has been visited). A frame aborts exactly when some mesh handle
   * is unknown, and then it stops drawing at the first such entity.
   */
  lemma FrameDraws(es: seq<EntityView>, program: nat, meshes: map<nat, Mesh>, w: int, h: int,
                   locs: Uniforms, s: GlState)
    requires locs.model != locs.viewProj
    ensures var f := DrawFrame(es, program, meshes, w, h, locs);
      var calls := Replay(s, f.commands);
      && DrawsFit(calls, es, meshes, locs, Lookup(s.uniforms, locs.viewProj), w, h)
      && (f.aborted <==> exists k :: 0 <= k < |es| && es[k].mesh !in meshes)
      && (!f.aborted ==> |calls| == |es|)
      && (f.aborted ==> |calls| < |es| && es[|calls|].mesh !in meshes)
  {
    var b := Loop(es, |es|, meshes, w, h, locs);
    var pro := Prologue(program, w, h);
    var epi := if b.aborted then [] else Epilogue;
    var initial := Lookup(s.uniforms, locs.viewProj);
    PrologueEffect(s, program, w, h);
    ReplayConcat(s, pro, b.commands);
    AfterConcat(s, pro, b.commands);
    ReplayConcat(s, pro + b.commands, epi);
    LoopReplay(es, |es|, meshes, w, h, locs, s);
    if !b.aborted {
      EpilogueDrawsNothing(After(s, pro + b.commands));
    } else {
      assert Replay(After(s, pro + b.commands), epi) == [];
    }
    var calls := Replay(s, b.commands);
    assert Replay(s, DrawFrame(es, program, meshes, w, h, locs).commands) == calls;
    if !b.aborted {
      forall k | 0 <= k < |es|
        ensures es[k].mesh in meshes
      {
        assert CallFits(calls[k], es, k, meshes, locs, initial, w, h);
      }
    }
  }

  /** Commands that change neither the bound vertex array nor a uniform, and draw nothing. */
  lemma {:induction false} InertCommands(s: GlState, cmds: seq<GlCommand>)
    requires forall c :: c in cmds ==> !IsDraw(c) && !c.UniformMatrix4? && !c.BindVertexArray?
    ensures Replay(s, cmds) == [] && After(s, cmds) == s
    decreases |cmds|
  {
    if cmds != [] {
      InertCommands(s, cmds[..|cmds| - 1]);
    }
  }

  lemma PrologueEffect(s: GlState, program: nat, w: int, h: int)
    ensures Replay(s, Prologue(program, w, h)) == [] && After(s, Prologue(program, w, h)) == s
  {
    InertCommands(s, Prologue(program, w, h));
  }

  lemma EpilogueDrawsNothing(s: GlState)
    ensures Replay(s, Epilogue) == [] && After(s, Epilogue).vao == 0
  {
    var bind := BindVertexArray(0);
    assert Epilogue == [bind] + [SwapBuffers, PollEvents];
    ReplaySingle(s, bind);
    ReplayConcat(s, [bind], [SwapBuffers, PollEvents]);
    AfterConcat(s, [bind], [SwapBuffers, PollEvents]);
    InertCommands(Step(s, bind), [SwapBuffers, PollEvents]);
  }

  /** Only what the entity loop emits: uploads, vertex-array binds and draws, ending in an upload when aborted. */
  lemma {:induction false} LoopCommands(es: seq<EntityView>, n: nat, meshes: map<nat, Mesh>, w: int, h: int, locs: Uniforms)
    requires n <= |es|
    ensures var b := Loop(es, n, meshes, w, h, locs);
      && (forall c :: c in b.commands ==> c.UniformMatrix4? || c.BindVertexArray? || IsDraw(c))
      && (b.aborted ==> |b.commands| > 0 && b.commands[|b.commands| - 1].UniformMatrix4?)
  {
    if n > 0 {
      LoopCommands(es, n - 1, meshes, w, h, locs);
    }
  }

  /**
   * A frame opens with clear colour, clear, use program and viewport, and it
   * ends with unbind, swap and poll exactly when no mesh lookup failed; an
   * aborted frame never swaps.
   */
  lemma FrameShape(es: seq<EntityView>, program: nat, meshes: map<nat, Mesh>, w: int, h: int, locs: Uniforms)
    ensures var f := DrawFrame(es, program, meshes, w, h, locs);
      && |f.commands| >= 4
      && f.commands[..4] == [ClearColor(0.2, 0.3, 0.3, 1.0), Clear(true, true), UseProgram(program), Viewport(0, 0, w, h)]
      && (!f.aborted <==> |f.commands| >= 7 && f.commands[|f.commands| - 3..] == [BindVertexArray(0), SwapBuffers, PollEvents])
      && (!f.aborted <==> SwapBuffers in f.commands)
  {
    var b := Loop(es, |es|, meshes, w, h, locs);
    var f := DrawFrame(es, program, meshes, w, h, locs);
    LoopCommands(es, |es|, meshes, w, h, locs);
    assert f.commands[..4] == Prologue(program, w, h);
    if !f.aborted {
      assert f.commands[|f.commands| - 3..] == Epilogue;
      assert f.commands[|f.commands| - 2] == SwapBuffers;
    } else {
      assert f.commands == Prologue(program, w, h) + b.commands;
      assert f.commands[|f.commands| - 1] == b.commands[|b.commands| - 1];
      forall c | c in f.commands
        ensures c != SwapBuffers
      {
        if c !in b.commands {
          assert c in Prologue(program, w, h);
        }
      }
    }
  }

  /** The draw kind follows the index count, and counts below 2^31 pass the cast unchanged. */
  lemma DrawKind(m: Mesh)
    ensures DrawFor(m).DrawElements? <==> m.indexCount > 0
    ensures DrawFor(m).DrawArrays? <==> m.indexCount == 0
    ensures m.indexCount > 0 && m.indexCount < 0x8000_0000 ==> DrawFor(m) == DrawElements(m.indexCount)
    ensures m.indexCount == 0 && m.vertexCount < 0x8000_0000 ==> DrawFor(m) == DrawArrays(0, m.vertexCount)
  {
  }

  /**
   * A mesh-less entity resolves to the first mesh added: a fresh registry
   * issues handle 0, which is an entity's default `mesh`, so a frame with one
   * new entity draws that mesh.
   */
  method DefaultMeshIsFirstAdded(mesh: Mesh, kind: EntityType, program: nat, w: int, h: int, locs: Uniforms)
    returns (frame: Frame, handle: nat)
    requires locs.model != locs.viewProj
    ensures handle == 0 && !frame.aborted
    ensures var calls := Replay(GlState(map[], 0), frame.commands);
      |calls| == 1 && calls[0].command == DrawFor(mesh) && calls[0].state.vao == mesh.vao
  {
    var registry := new MeshRegistry();
    handle := registry.Add(mesh);
    var manager := new EntityManager();
    var e := manager.MakeEntity(kind);
    frame := DrawEntities([e], program, registry, w, h, locs);
    FrameDraws(Views([e]), program, registry.meshes, w, h, locs, GlState(map[], 0));
  }
}

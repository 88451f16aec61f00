/**
 * The entity registry: an `EntityManager` that keeps every live entity in
 * three indexes at once (an insertion-ordered list, an id map and a map from
 * type to a list of entities of that type) and issues ids from a counter.
 *
 * Entities are heap objects, as in the source, which stores `Entity *`
 * pointers: lookups hand out the stored object itself, and removal compares
 * pointers. `alive` stands for the object not yet having been `delete`d.
 */
module Entities {
  import opened VecMath

  datatype EntityType = Player | Enemy

  /** `getEntityTypeStr`. Its `default` branch ("ENTITY") serves no enumerator. */
  function EntityTypeStr(t: EntityType): (s: string)
    ensures s != "ENTITY"
    ensures t == Player <==> s == "Player"
  {
    match t
    case Player => "Player"
    case Enemy => "Enemy"
  }

  class Entity {
    const id: nat
    const kind: EntityType
    var position: Vector3
    var scale: Vector3
    /** Handle into the mesh registry; 0 by default. */
    var mesh: nat
    var alive: bool

    /** `new Entity{}` followed by the id, type and position assignments of `makeEntity`. */
    constructor (id: nat, kind: EntityType)
      ensures this.id == id && this.kind == kind
      ensures position == Zero(3) && scale == Zero(3) && mesh == 0 && alive
    {
      this.id, this.kind := id, kind;
      position, scale := Zero(3), Zero(3);
      mesh, alive := 0, true;
    }
  }

  // ---------------------------------------------------------------------------
  // Specification functions on lists of entities
  // ---------------------------------------------------------------------------

  /** Ids strictly increase along the list: the list is in creation order and has no duplicates. */
  ghost predicate IdsIncreasing(s: seq<Entity>) {
    forall i, j :: 0 <= i < j < |s| ==> s[i].id < s[j].id
  }

  /** The entities of s whose type is t, in the order of s. */
  function OfType(s: seq<Entity>, t: EntityType): (r: seq<Entity>)
    decreases |s|
  {
    if s == [] then []
    else OfType(s[..|s| - 1], t) + (if s[|s| - 1].kind == t then [s[|s| - 1]] else [])
  }

  /** s with every occurrence of e removed, the rest in order. */
  function Without(s: seq<Entity>, e: Entity): (r: seq<Entity>)
    ensures |r| <= |s|
    ensures e !in r
    decreases |s|
  {
    if s == [] then []
    else Without(s[..|s| - 1], e) + (if s[|s| - 1] == e then [] else [s[|s| - 1]])
  }

  /** `std::find`: the first index holding e, or -1 for `end()`. */
  method Find(s: seq<Entity>, e: Entity) returns (i: int)
    ensures -1 <= i < |s|
    ensures i == -1 <==> e !in s
    ensures 0 <= i ==> s[i] == e && e !in s[..i]
  {
    i := 0;
    while i < |s|
      invariant 0 <= i <= |s|
      invariant e !in s[..i]
    {
      if s[i] == e {
        return;
      }
      i := i + 1;
    }
    assert s[..i] == s;
    i := -1;
  }

  // ---------------------------------------------------------------------------
  // Lemmas about OfType and Without
  // ---------------------------------------------------------------------------

  /** A bucket holds exactly the entities of the list that have its type. */
  lemma {:induction false} OfTypeMembers(s: seq<Entity>, t: EntityType, x: Entity)
    ensures x in OfType(s, t) <==> x in s && x.kind == t
    decreases |s|
  {
    if s != [] {
      OfTypeMembers(s[..|s| - 1], t, x);
      assert s == s[..|s| - 1] + [s[|s| - 1]];
    }
  }

  /** Taking a bucket keeps the creation order. */
  lemma {:induction false} OfTypeIncreasing(s: seq<Entity>, t: EntityType)
    requires IdsIncreasing(s)
    ensures IdsIncreasing(OfType(s, t))
    decreases |s|
  {
    if s != [] {
      var front := s[..|s| - 1];
      OfTypeIncreasing(front, t);
      forall x | x in OfType(front, t)
        ensures x.id < s[|s| - 1].id
      {
        OfTypeMembers(front, t, x);
      }
    }
  }

  /** Appending an entity appends it to its own bucket and to no other. */
  lemma OfTypeAppend(s: seq<Entity>, e: Entity, t: EntityType)
    ensures OfType(s + [e], t) == OfType(s, t) + (if e.kind == t then [e] else [])
  {
    assert (s + [e])[..|s + [e]| - 1] == s;
  }

  /** Removing an element keeps exactly the other elements. */
  lemma {:induction false} WithoutMembers(s: seq<Entity>, e: Entity, x: Entity)
    ensures x in Without(s, e) <==> x in s && x != e
    decreases |s|
  {
    if s != [] {
      WithoutMembers(s[..|s| - 1], e, x);
      assert s == s[..|s| - 1] + [s[|s| - 1]];
    }
  }

  /** Removing an element that is not there changes nothing. */
  lemma {:induction false} WithoutAbsent(s: seq<Entity>, e: Entity)
    requires e !in s
    ensures Without(s, e) == s
    decreases |s|
  {
    if s != [] {
      WithoutAbsent(s[..|s| - 1], e);
      assert s == s[..|s| - 1] + [s[|s| - 1]];
    }
  }

  /** Removing an element keeps the creation order. */
  lemma {:induction false} WithoutIncreasing(s: seq<Entity>, e: Entity)
    requires IdsIncreasing(s)
    ensures IdsIncreasing(Without(s, e))
    decreases |s|
  {
    if s != [] {
      var front := s[..|s| - 1];
      WithoutIncreasing(front, e);
      forall x | x in Without(front, e)
        ensures x.id < s[|s| - 1].id
      {
        WithoutMembers(front, e, x);
      }
    }
  }

  /** `vector::erase` at the only index holding e is removal of e. */
  lemma {:induction false} EraseIsWithout(s: seq<Entity>, i: nat, e: Entity)
    requires i < |s| && s[i] == e
    requires forall k :: 0 <= k < |s| && k != i ==> s[k] != e
    ensures s[..i] + s[i + 1..] == Without(s, e)
    decreases |s|
  {
    var front := s[..|s| - 1];
    if i == |s| - 1 {
      WithoutAbsent(front, e);
    } else {
      assert forall k :: 0 <= k < |front| && k != i ==> front[k] != e by {
        forall k | 0 <= k < |front| && k != i ensures front[k] != e {
          assert front[k] == s[k];
        }
      }
      EraseIsWithout(front, i, e);
      assert s[|s| - 1] != e;
      assert Without(s, e) == Without(front, e) + [s[|s| - 1]];
      assert s[..i] + s[i + 1..] == front[..i] + front[i + 1..] + [s[|s| - 1]];
    }
  }

  /** Removing an entity from the list removes it from its bucket and leaves the other buckets alone. */
  lemma {:induction false} OfTypeWithout(s: seq<Entity>, e: Entity, t: EntityType)
    ensures OfType(Without(s, e), t) == Without(OfType(s, t), e)
    decreases |s|
  {
    if s != [] {
      var front, last := s[..|s| - 1], s[|s| - 1];
      OfTypeWithout(front, e, t);
      var kept := if last == e then [] else [last];
      assert Without(s, e) == Without(front, e) + kept;
      OfTypeConcat(Without(front, e), kept, t);
      WithoutConcat(OfType(front, t), if last.kind == t then [last] else [], e);
    }
  }

  lemma {:induction false} OfTypeConcat(a: seq<Entity>, b: seq<Entity>, t: EntityType)
    requires |b| <= 1
    ensures OfType(a + b, t) == OfType(a, t) + OfType(b, t)
  {
    if |b| == 1 {
      assert (a + b)[..|a + b| - 1] == a;
      assert b[..0] == [];
    } else {
      assert a + b == a;
    }
  }

  lemma {:induction false} WithoutConcat(a: seq<Entity>, b: seq<Entity>, e: Entity)
    requires |b| <= 1
    ensures Without(a + b, e) == Without(a, e) + Without(b, e)
  {
    if |b| == 1 {
      assert (a + b)[..|a + b| - 1] == a;
      assert b[..0] == [];
    } else {
      assert a + b == a;
    }
  }

  // ---------------------------------------------------------------------------
  // The agreement of the three indexes, on their values
  // ---------------------------------------------------------------------------

  /** The list stored for t in a type map, or the empty list `operator[]` would create. */
  function BucketOf(typeMap: map<EntityType, seq<Entity>>, t: EntityType): (bucket: seq<Entity>) {
    if t in typeMap then typeMap[t] else []
  }

  /** Every listed entity is live and has an id below the counter. */
  ghost predicate LiveBelow(es: seq<Entity>, counter: nat)
    reads es
  {
    forall i :: 0 <= i < |es| ==> es[i].id < counter && es[i].alive
  }

  /** The id map stores exactly the listed entities, each under its own id. */
  ghost predicate MapAgrees(es: seq<Entity>, idMap: map<nat, Entity>) {
    && (forall i :: 0 <= i < |es| ==> es[i].id in idMap && idMap[es[i].id] == es[i])
    && (forall id :: id in idMap ==> idMap[id].id == id && idMap[id] in es)
  }

  /** Each bucket is exactly the listed entities of its type, in list order. */
  ghost predicate BucketsAgree(es: seq<Entity>, typeMap: map<EntityType, seq<Entity>>) {
    forall t :: BucketOf(typeMap, t) == OfType(es, t)
  }

  /** The three indexes and the counter agree. */
  ghost predicate Coherent(es: seq<Entity>, idMap: map<nat, Entity>,
                           typeMap: map<EntityType, seq<Entity>>, counter: nat)
    reads es
  {
    IdsIncreasing(es) && LiveBelow(es, counter) && MapAgrees(es, idMap) && BucketsAgree(es, typeMap)
  }

  /** Appending the entity stored under a fresh id keeps the list and the map in agreement. */
  lemma MapAgreesAppend(es: seq<Entity>, idMap: map<nat, Entity>, e: Entity)
    requires MapAgrees(es, idMap) && e.id !in idMap
    ensures MapAgrees(es + [e], idMap[e.id := e])
  {
    var es', idMap' := es + [e], idMap[e.id := e];
    forall i | 0 <= i < |es'|
      ensures es'[i].id in idMap' && idMap'[es'[i].id] == es'[i]
    {
      if i < |es| {
        assert es'[i] == es[i];
      }
    }
    forall id | id in idMap'
      ensures idMap'[id].id == id && idMap'[id] in es'
    {
      if id != e.id {
        assert idMap[id] in es;
      }
    }
  }

  /** Appending an entity to the list and to its bucket keeps every bucket in agreement. */
  lemma BucketsAgreeAppend(es: seq<Entity>, typeMap: map<EntityType, seq<Entity>>, e: Entity)
    requires BucketsAgree(es, typeMap)
    ensures BucketsAgree(es + [e], typeMap[e.kind := BucketOf(typeMap, e.kind) + [e]])
  {
    forall t
      ensures BucketOf(typeMap[e.kind := BucketOf(typeMap, e.kind) + [e]], t) == OfType(es + [e], t)
    {
      OfTypeAppend(es, e, t);
    }
  }

  /** What `makeEntity` does to the indexes keeps them coherent. */
  lemma CoherentAfterMake(es: seq<Entity>, idMap: map<nat, Entity>,
                          typeMap: map<EntityType, seq<Entity>>, counter: nat, e: Entity)
    requires Coherent(es, idMap, typeMap, counter)
    requires e.id == counter && e.alive
    ensures Coherent(es + [e], idMap[e.id := e], typeMap[e.kind := BucketOf(typeMap, e.kind) + [e]], counter + 1)
  {
    assert IdsIncreasing(es + [e]);
    assert LiveBelow(es + [e], counter + 1);
    MapAgreesAppend(es, idMap, e);
    BucketsAgreeAppend(es, typeMap, e);
  }

  /** Inserting the empty bucket `operator[]` creates for a missing type changes no bucket. */
  lemma BucketsAgreeInsertEmpty(es: seq<Entity>, typeMap: map<EntityType, seq<Entity>>, t: EntityType)
    requires BucketsAgree(es, typeMap) && t !in typeMap
    ensures BucketsAgree(es, typeMap[t := []])
  {
    forall u
      ensures BucketOf(typeMap[t := []], u) == OfType(es, u)
    {
      assert BucketOf(typeMap[t := []], u) == BucketOf(typeMap, u);
    }
  }

  /** Removing an entity keeps every remaining one live and below the counter. */
  lemma LiveBelowWithout(es: seq<Entity>, counter: nat, e: Entity)
    requires LiveBelow(es, counter)
    ensures LiveBelow(Without(es, e), counter)
  {
    var es' := Without(es, e);
    forall i | 0 <= i < |es'|
      ensures es'[i].id < counter && es'[i].alive
    {
      WithoutMembers(es, e, es'[i]);
      var k :| 0 <= k < |es| && es[k] == es'[i];
    }
  }

  /** Removing the entity stored under id from the list and the map keeps them in agreement. */
  lemma MapAgreesWithout(es: seq<Entity>, idMap: map<nat, Entity>, id: nat)
    requires MapAgrees(es, idMap) && IdsIncreasing(es) && id in idMap
    ensures MapAgrees(Without(es, idMap[id]), idMap - {id})
  {
    var e := idMap[id];
    var es', idMap' := Without(es, e), idMap - {id};
    forall i | 0 <= i < |es'|
      ensures es'[i].id in idMap' && idMap'[es'[i].id] == es'[i]
    {
      WithoutMembers(es, e, es'[i]);
      var k :| 0 <= k < |es| && es[k] == es'[i];
    }
    forall k | k in idMap'
      ensures idMap'[k] in es'
    {
      WithoutMembers(es, e, idMap'[k]);
    }
  }

  /** Removing an entity from the list and from its bucket keeps every bucket in agreement. */
  lemma BucketsAgreeWithout(es: seq<Entity>, typeMap: map<EntityType, seq<Entity>>, e: Entity)
    requires BucketsAgree(es, typeMap)
    ensures BucketsAgree(Without(es, e), typeMap[e.kind := Without(BucketOf(typeMap, e.kind), e)])
  {
    var typeMap' := typeMap[e.kind := Without(BucketOf(typeMap, e.kind), e)];
    forall t
      ensures BucketOf(typeMap', t) == OfType(Without(es, e), t)
    {
      OfTypeWithout(es, e, t);
      if t != e.kind {
        OfTypeMembers(es, t, e);
        WithoutAbsent(OfType(es, t), e);
      }
    }
  }

  /** What `destroyEntity` does to the indexes for a stored entity keeps them coherent. */
  lemma CoherentAfterDestroy(es: seq<Entity>, idMap: map<nat, Entity>,
                             typeMap: map<EntityType, seq<Entity>>, counter: nat, id: nat)
    requires Coherent(es, idMap, typeMap, counter) && id in idMap
    ensures var e := idMap[id];
      && e in es
      && e !in Without(es, e)
      && Coherent(Without(es, e), idMap - {id},
                  typeMap[e.kind := Without(BucketOf(typeMap, e.kind), e)], counter)
  {
    var e := idMap[id];
    WithoutMembers(es, e, e);
    WithoutIncreasing(es, e);
    LiveBelowWithout(es, counter, e);
    MapAgreesWithout(es, idMap, id);
    BucketsAgreeWithout(es, typeMap, e);
  }

  // ---------------------------------------------------------------------------
  // The manager
  // ---------------------------------------------------------------------------

  class EntityManager {
    var entities: seq<Entity>
    var entityMap: map<nat, Entity>
    var entityTypeMap: map<EntityType, seq<Entity>>
    var currentId: nat

    /** The list stored for t, or the empty list `operator[]` would create. */
    function Bucket(t: EntityType): (bucket: seq<Entity>)
      reads this
    {
      BucketOf(entityTypeMap, t)
    }

    /** The entity `destroyEntity(id)` would delete, as a frame. */
    function Owned(id: nat): (owned: set<Entity>)
      reads this
    {
      if id in entityMap then {entityMap[id]} else {}
    }

    /**
     * The three indexes agree: the list is in creation order, every listed
     * entity is live, has an id below the counter and is stored under its id,
     * every stored entity is listed under its own id, and each type's bucket
     * is exactly the listed entities of that type, in list order.
     */
    ghost predicate Valid()
      reads this, entities
    {
      Coherent(entities, entityMap, entityTypeMap, currentId)
    }

    /** `EntityManager{}`: empty indexes, counter 0. */
    constructor ()
      ensures Valid()
      ensures entities == [] && entityMap == map[] && entityTypeMap == map[] && currentId == 0
    {
      entities, entityMap, entityTypeMap, currentId := [], map[], map[], 0;
    }

    /**
     * `makeEntity`: a new entity with id `currentId` (the counter is then
     * incremented), the requested type, zero position and scale, and mesh 0,
     * appended to the list, stored under its id and appended to its bucket.
     */
    method MakeEntity(kind: EntityType) returns (e: Entity)
      requires Valid()
      modifies this
      ensures Valid() && fresh(e)
      ensures e.id == old(currentId) && e.kind == kind
      ensures e.position == Zero(3) && e.scale == Zero(3) && e.mesh == 0 && e.alive
      ensures currentId == old(currentId) + 1
      ensures entities == old(entities) + [e]
      ensures entityMap == old(entityMap)[e.id := e]
      ensures entityTypeMap == old(entityTypeMap)[kind := old(Bucket(kind)) + [e]]
    {
      e := new Entity(currentId, kind);
      var bucket := Bucket(kind);
      CoherentAfterMake(entities, entityMap, entityTypeMap, currentId, e);
      entities, entityMap, entityTypeMap, currentId :=
        entities + [e], entityMap[e.id := e], entityTypeMap[kind := bucket + [e]], currentId + 1;
    }

    /**
     * `destroyEntity`: a no-op for an id that is not stored; otherwise the
     * entity leaves the list, its bucket and the id map, the rest keep their
     * order, and it is deleted. The counter never goes back.
     */
    method DestroyEntity(id: nat)
      requires Valid()
      modifies this, Owned(id)
      ensures Valid()
      ensures currentId == old(currentId)
      ensures id !in old(entityMap) ==>
        entities == old(entities) && entityMap == old(entityMap) && entityTypeMap == old(entityTypeMap)
      ensures id in old(entityMap) ==>
        var e := old(entityMap[id]);
        && !e.alive
        && entities == Without(old(entities), e)
        && entityMap == old(entityMap) - {id}
        && entityTypeMap == old(entityTypeMap)[e.kind := Without(old(Bucket(e.kind)), e)]
    {
      if id !in entityMap {
        return;
      }
      var e := entityMap[id];
      CoherentAfterDestroy(entities, entityMap, entityTypeMap, currentId, id);
      ghost var before := entities;

      var i := Find(entities, e);
      if i >= 0 {
        EraseIsWithout(entities, i, e);
        entities := entities[..i] + entities[i + 1..];
      }

      var tv := Bucket(e.kind);
      OfTypeMembers(before, e.kind, e);
      OfTypeIncreasing(before, e.kind);
      var j := Find(tv, e);
      if j >= 0 {
        EraseIsWithout(tv, j, e);
        tv := tv[..j] + tv[j + 1..];
      }
      entityTypeMap := entityTypeMap[e.kind := tv];

      entityMap := entityMap - {id};
      e.alive := false;
    }

    /** `destroyAllEntities`: deletes every listed entity and empties all three indexes; the counter stays. */
    method DestroyAllEntities()
      requires Valid()
      modifies this, entities
      ensures Valid()
      ensures entities == [] && entityMap == map[] && entityTypeMap == map[]
      ensures currentId == old(currentId)
      ensures forall e :: e in old(entities) ==> !e.alive
    {
      var listed := entities;
      for i := 0 to |listed|
        invariant entities == listed && currentId == old(currentId)
        invariant forall k :: 0 <= k < i ==> !listed[k].alive
      {
        listed[i].alive := false;
      }
      entities, entityMap, entityTypeMap := [], map[], map[];
    }

    /** `getEntityById`: null exactly when the id is not stored, otherwise the live entity with that id. */
    method GetEntityById(id: nat) returns (e: Entity?)
      requires Valid()
      ensures e == null <==> id !in entityMap
      ensures e != null ==> e == entityMap[id] && e in entities && e.id == id && e.alive
    {
      e := if id in entityMap then entityMap[id] else null;
      if e != null {
        var k :| 0 <= k < |entities| && entities[k] == e;
      }
    }

    /**
     * `getEntitiesByTag`: the bucket of type t, which holds exactly the live
     * entities of that type in creation order. `operator[]` creates an empty
     * bucket when there is none, which is the only change.
     */
    method GetEntitiesByTag(t: EntityType) returns (bucket: seq<Entity>)
      requires Valid()
      modifies this
      ensures Valid()
      ensures bucket == OfType(entities, t)
      ensures forall x :: x in bucket <==> x in entities && x.kind == t
      ensures IdsIncreasing(bucket)
      ensures entities == old(entities) && entityMap == old(entityMap) && currentId == old(currentId)
      ensures entityTypeMap == if t in old(entityTypeMap) then old(entityTypeMap) else old(entityTypeMap)[t := []]
    {
      if t !in entityTypeMap {
        BucketsAgreeInsertEmpty(entities, entityTypeMap, t);
        entityTypeMap := entityTypeMap[t := []];
      }
      bucket := entityTypeMap[t];
      forall x
        ensures x in bucket <==> x in entities && x.kind == t
      {
        OfTypeMembers(entities, t, x);
      }
      OfTypeIncreasing(entities, t);
    }
  }

  /**
   * What `Valid` means for one entity: it is listed iff it is stored under its
   * own id iff it is in the bucket of its type; it is in no other bucket; and
   * no bucket holds anything twice.
   */
  lemma IndexesAgree(m: EntityManager, x: Entity)
    requires m.Valid()
    ensures x in m.entities <==> x.id in m.entityMap && m.entityMap[x.id] == x
    ensures x in m.entities <==> x in m.Bucket(x.kind)
    ensures forall t :: t != x.kind ==> x !in m.Bucket(t)
    ensures forall t :: IdsIncreasing(m.Bucket(t))
  {
    OfTypeMembers(m.entities, x.kind, x);
    forall t | t != x.kind
      ensures x !in m.Bucket(t)
    {
      OfTypeMembers(m.entities, t, x);
    }
    forall t
      ensures IdsIncreasing(m.Bucket(t))
    {
      OfTypeIncreasing(m.entities, t);
    }
  }

  /** Ids are never reused: an entity made after a destroy gets the next id, not the freed one. */
  method IdsNeverReused() returns (first: Entity, second: Entity)
    ensures first.id == 0 && second.id == 1 && !first.alive && second.alive
  {
    var m := new EntityManager();
    first := m.MakeEntity(Player);
    m.DestroyEntity(first.id);
    m.DestroyAllEntities();
    second := m.MakeEntity(Enemy);
  }
}

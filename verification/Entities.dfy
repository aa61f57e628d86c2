/**
 The entity cache of one block: it collects the changes that handlers make, answers reads as if the
 changes were already stored, and finally turns them into one modification per entity.
 */
module Entities {
  import opened Wrappers

  datatype Attr = Null | Data(text: string)
  type Entity = map<string, Attr>
  datatype EntityKey = EntityKey(entityType: string, entityId: string)

  /** What the store holds. A null attribute is stored as SQL NULL and is absent when read back. */
  type Content = map<EntityKey, Entity>

  /** Changes to one entity that can be accumulated. */
  datatype EntityOp = Remove | Update(data: Entity) | Overwrite(data: Entity)

  type Ops = map<EntityKey, EntityOp>
  type Lfu = map<EntityKey, Option<Entity>>

  datatype Modification =
    | InsertEntity(key: EntityKey, data: Entity)
    | OverwriteEntity(key: EntityKey, data: Entity)
    | RemoveEntity(key: EntityKey)

  // ------------------------------------------------------------------ entities

  function WithoutNulls(e: Entity): Entity {
    map a | a in e && e[a] != Null :: e[a]
  }

  function MergeRemoveNullFields(e: Entity, update: Entity): Entity {
    map a | a in e.Keys + update.Keys && (a in update ==> update[a] != Null) :: if a in update then update[a] else e[a]
  }

  function Clean(e: Option<Entity>): Option<Entity> {
    if e.None? then None else Some(WithoutNulls(e.value))
  }

  function Lookup<V>(m: map<EntityKey, V>, k: EntityKey): Option<V> {
    if k in m then Some(m[k]) else None
  }

  ghost predicate NullFree(c: Content) {
    forall k :: k in c ==> WithoutNulls(c[k]) == c[k]
  }

  // ------------------------------------------------------------------ operations

  /** What a reader inside the block gets for an entity that is stored as `entity`. */
  function ApplyTo(op: EntityOp, entity: Option<Entity>): Option<Entity> {
    match op
    case Remove => None
    case Overwrite(data) => Some(data)
    case Update(data) => if entity.None? then Some(data) else Some(MergeRemoveNullFields(entity.value, data))
  }

  function Accumulate(op: EntityOp, next: EntityOp): EntityOp {
    match next
    case Remove => next
    case Overwrite(_) => next
    case Update(update) =>
      match op
      case Remove => Overwrite(update)
      case Update(data) => Update(data + update)
      case Overwrite(data) => Overwrite(data + update)
  }

  /** What an operation means to the stored entity. */
  function Meaning(op: EntityOp, entity: Option<Entity>): Option<Entity> {
    match op
    case Remove => None
    case Overwrite(data) => Some(WithoutNulls(data))
    case Update(data) => Some(MergeRemoveNullFields(if entity.None? then map[] else entity.value, data))
  }

  lemma MergeTwice(base: Entity, first: Entity, second: Entity)
    ensures MergeRemoveNullFields(base, first + second)
         == MergeRemoveNullFields(MergeRemoveNullFields(base, first), second)
  {
  }

  lemma CleanMerge(data: Entity, update: Entity)
    ensures WithoutNulls(data + update) == MergeRemoveNullFields(WithoutNulls(data), update)
    ensures WithoutNulls(MergeRemoveNullFields(data, update)) == MergeRemoveNullFields(WithoutNulls(data), update)
  {
  }

  lemma CleanIsMerge(data: Entity)
    ensures WithoutNulls(data) == MergeRemoveNullFields(map[], data)
    ensures WithoutNulls(WithoutNulls(data)) == WithoutNulls(data)
  {
  }

  /** Accumulating two operations means doing one after the other. */
  lemma AccumulateMeaning(op: EntityOp, next: EntityOp, entity: Option<Entity>)
    ensures Meaning(Accumulate(op, next), entity) == Meaning(next, Meaning(op, entity))
  {
    if next.Update? {
      match op
      case Remove => CleanIsMerge(next.data);
      case Overwrite(data) => CleanMerge(data, next.data);
      case Update(data) => MergeTwice(if entity.None? then map[] else entity.value, data, next.data);
    }
  }

  /** A reader sees the meaning of an operation, except that nulls may still be spelled out. */
  lemma ApplyToMeaning(op: EntityOp, entity: Option<Entity>)
    ensures Clean(ApplyTo(op, entity)) == Meaning(op, Clean(entity))
  {
    if op.Update? {
      if entity.None? {
        CleanIsMerge(op.data);
      } else {
        CleanMerge(entity.value, op.data);
      }
    }
  }

  // ------------------------------------------------------------------ pending operations on a store

  function AfterOps(c: Content, ops: Ops, k: EntityKey): Option<Entity> {
    if k in ops then Meaning(ops[k], Lookup(c, k)) else Lookup(c, k)
  }

  /** The content once the pending operations are done. */
  function View(c: Content, ops: Ops): Content {
    map k | k in c.Keys + ops.Keys && AfterOps(c, ops, k).Some? :: AfterOps(c, ops, k).value
  }

  function AddOp(ops: Ops, k: EntityKey, op: EntityOp): Ops {
    ops[k := if k in ops then Accumulate(ops[k], op) else op]
  }

  lemma ViewLookup(c: Content, ops: Ops, k: EntityKey)
    ensures Lookup(View(c, ops), k) == AfterOps(c, ops, k)
  {
  }

  /** Two contents that agree on every key are equal. */
  lemma SameContent(c: Content, d: Content)
    requires forall k :: Lookup(c, k) == Lookup(d, k)
    ensures c == d
  {
    forall k ensures k in c <==> k in d {
      assert Lookup(c, k) == Lookup(d, k);
    }
    forall k | k in c ensures c[k] == d[k] {
      assert Lookup(c, k) == Lookup(d, k);
    }
  }

  lemma ViewAddOpAt(c: Content, ops: Ops, k: EntityKey, op: EntityOp, j: EntityKey)
    ensures Lookup(View(c, AddOp(ops, k, op)), j) == Lookup(View(View(c, ops), map[k := op]), j)
  {
    ViewLookup(c, AddOp(ops, k, op), j);
    ViewLookup(View(c, ops), map[k := op], j);
    ViewLookup(c, ops, j);
    if j == k && k in ops {
      AccumulateMeaning(ops[k], op, Lookup(c, k));
    }
  }

  /** Recording an operation behind the pending ones means doing it last. */
  lemma ViewAddOp(c: Content, ops: Ops, k: EntityKey, op: EntityOp)
    ensures View(c, AddOp(ops, k, op)) == View(View(c, ops), map[k := op])
  {
    var left, right := View(c, AddOp(ops, k, op)), View(View(c, ops), map[k := op]);
    forall j ensures Lookup(left, j) == Lookup(right, j) {
      ViewAddOpAt(c, ops, k, op, j);
    }
    SameContent(left, right);
  }

  lemma MoveOpAt(c: Content, inner: Ops, outer: Ops, k: EntityKey, j: EntityKey)
    requires k in outer
    ensures Lookup(View(View(c, AddOp(inner, k, outer[k])), outer - {k}), j) == Lookup(View(View(c, inner), outer), j)
  {
    var added := AddOp(inner, k, outer[k]);
    ViewLookup(View(c, added), outer - {k}, j);
    ViewLookup(c, added, j);
    ViewLookup(View(c, inner), outer, j);
    ViewLookup(c, inner, j);
    if j == k && k in inner {
      AccumulateMeaning(inner[k], outer[k], Lookup(c, k));
    }
  }

  /** Moving one operation from the outer to the inner layer changes nothing that is seen. */
  lemma MoveOp(c: Content, inner: Ops, outer: Ops, k: EntityKey)
    requires k in outer
    ensures View(View(c, AddOp(inner, k, outer[k])), outer - {k}) == View(View(c, inner), outer)
  {
    var left, right := View(View(c, AddOp(inner, k, outer[k])), outer - {k}), View(View(c, inner), outer);
    forall j ensures Lookup(left, j) == Lookup(right, j) {
      MoveOpAt(c, inner, outer, k, j);
    }
    SameContent(left, right);
  }

  lemma ViewNothing(c: Content)
    ensures View(c, map[]) == c
  {
  }

  /** A handler's `set`: the attributes given are merged into what is there. */
  function SetIn(c: Content, k: EntityKey, data: Entity): Content {
    c[k := MergeRemoveNullFields(if k in c then c[k] else map[], data)]
  }

  lemma ViewOfSet(c: Content, k: EntityKey, data: Entity)
    ensures View(c, map[k := Update(data)]) == SetIn(c, k, data)
  {
  }

  lemma ViewOfRemove(c: Content, k: EntityKey)
    ensures View(c, map[k := Remove]) == c - {k}
  {
  }

  // ------------------------------------------------------------------ the cache and the store

  /** Every cached entity is the stored one, up to nulls that are spelled out. */
  ghost predicate Agrees(cache: Lfu, c: Content) {
    forall k :: k in cache ==> Clean(cache[k]) == Lookup(c, k)
  }

  function Applicable(c: Content, m: Modification): bool {
    m.InsertEntity? <==> m.key !in c
  }

  function ApplyOne(c: Content, m: Modification): Content {
    match m
    case InsertEntity(k, data) => c[k := WithoutNulls(data)]
    case OverwriteEntity(k, data) => c[k := WithoutNulls(data)]
    case RemoveEntity(k) => c - {k}
  }

  /** Immutable entities can be inserted, but neither be updated nor deleted. */
  predicate Permitted(immutable: set<string>, m: Modification) {
    m.InsertEntity? || m.key.entityType !in immutable
  }

  /**
   The store's transaction: it fails as a whole when an inserted entity exists, or a changed one does not
   or is immutable.
   */
  function ApplyAll(c: Content, immutable: set<string>, mods: seq<Modification>): (r: Option<Content>)
  {
    if mods == [] then Some(c)
    else
      var r := ApplyAll(c, immutable, mods[..|mods| - 1]);
      var m := mods[|mods| - 1];
      if r.None? || !Applicable(r.value, m) || !Permitted(immutable, m) then None else Some(ApplyOne(r.value, m))
  }

  ghost predicate DistinctKeys(mods: seq<Modification>) {
    forall i, j :: 0 <= i < j < |mods| ==> mods[i].key != mods[j].key
  }

  predicate Mentions(mods: seq<Modification>, k: EntityKey) {
    exists i :: 0 <= i < |mods| && mods[i].key == k
  }

  /** With one modification per key, the transaction acts on each key independently. */
  lemma {:induction false} ApplyAllPointwise(c: Content, immutable: set<string>, mods: seq<Modification>)
    requires DistinctKeys(mods)
    ensures ApplyAll(c, immutable, mods).Some? <==> forall i :: 0 <= i < |mods| ==> Applicable(c, mods[i]) && Permitted(immutable, mods[i])
    ensures ApplyAll(c, immutable, mods).Some? ==>
      && (forall k :: !Mentions(mods, k) ==> Lookup(ApplyAll(c, immutable, mods).value, k) == Lookup(c, k))
      && (forall i :: 0 <= i < |mods| ==> Lookup(ApplyAll(c, immutable, mods).value, mods[i].key) == Lookup(ApplyOne(c, mods[i]), mods[i].key))
  {
    if mods == [] {
    } else {
      var front, m := mods[..|mods| - 1], mods[|mods| - 1];
      assert forall i :: 0 <= i < |front| ==> front[i] == mods[i];
      ApplyAllPointwise(c, immutable, front);
      var before := ApplyAll(c, immutable, front);
      assert !Mentions(front, m.key);
      if before.Some? && Applicable(before.value, m) && Permitted(immutable, m) {
        ApplyLast(c, before.value, front, m);
        var r := ApplyAll(c, immutable, mods).value;
        forall k | !Mentions(mods, k) ensures Lookup(r, k) == Lookup(c, k) {
          assert mods[|mods| - 1].key != k && !Mentions(front, k);
        }
        forall i | 0 <= i < |mods| ensures Lookup(r, mods[i].key) == Lookup(ApplyOne(c, mods[i]), mods[i].key) {
          assert i < |front| ==> mods[i] == front[i];
        }
      }
    }
  }

  lemma ApplyLast(c: Content, before: Content, front: seq<Modification>, m: Modification)
    requires Lookup(before, m.key) == Lookup(c, m.key)
    ensures forall k :: k != m.key ==> Lookup(ApplyOne(before, m), k) == Lookup(before, k)
    ensures Lookup(ApplyOne(before, m), m.key) == Lookup(ApplyOne(c, m), m.key)
  {
  }

  // ------------------------------------------------------------------ turning changes into modifications

  /** The modification for one entity, given what the cache or the store holds for it. */
  function ModificationFor(k: EntityKey, current: Option<Entity>, op: EntityOp): Option<Modification> {
    match op
    case Remove => if current.Some? then Some(RemoveEntity(k)) else None
    case Update(data) =>
      if current.None? then Some(InsertEntity(k, MergeRemoveNullFields(map[], data)))
      else
        var merged := MergeRemoveNullFields(current.value, data);
        if merged != current.value then Some(OverwriteEntity(k, merged)) else None
    case Overwrite(data) =>
      if current.None? then Some(InsertEntity(k, MergeRemoveNullFields(map[], data)))
      else if data != current.value then Some(OverwriteEntity(k, data)) else None
  }

  /** What the cache keeps for the entity afterwards, if anything. */
  function CachedAfter(current: Option<Entity>, op: EntityOp): Option<Option<Entity>> {
    match op
    case Remove => if current.Some? then Some(None) else None
    case Update(data) => Some(Some(MergeRemoveNullFields(if current.None? then map[] else current.value, data)))
    case Overwrite(data) => Some(Some(if current.None? then MergeRemoveNullFields(map[], data) else data))
  }

  /** The modification and the cached value are right for an entity whose current state is known. */
  lemma ModificationMeaning(c: Content, k: EntityKey, current: Option<Entity>, op: EntityOp)
    requires NullFree(c) && Clean(current) == Lookup(c, k)
    ensures var m := ModificationFor(k, current, op);
      if m.None? then Meaning(op, Lookup(c, k)) == Lookup(c, k)
      else m.value.key == k && Applicable(c, m.value) && Lookup(ApplyOne(c, m.value), k) == Meaning(op, Lookup(c, k))
    ensures CachedAfter(current, op).Some? ==> Clean(CachedAfter(current, op).value) == Meaning(op, Lookup(c, k))
  {
    ApplyToMeaning(op, current);
    if !op.Remove? {
      CleanIsMerge(op.data);
    }
  }

  /**
   A modification changes the stored entity, except when an entity was removed and set again with
   attributes that equal the stored ones but for nulls spelled out.
   */
  lemma ModificationIsIdleIff(c: Content, k: EntityKey, op: EntityOp)
    requires NullFree(c) && ModificationFor(k, Lookup(c, k), op).Some?
    ensures ApplyOne(c, ModificationFor(k, Lookup(c, k), op).value) == c
            <==> op.Overwrite? && k in c && WithoutNulls(op.data) == c[k]
  {
    assert k in c ==> Clean(Lookup(c, k)) == Lookup(c, k);
    ModificationMeaning(c, k, Lookup(c, k), op);
    var d := ApplyOne(c, ModificationFor(k, Lookup(c, k), op).value);
    assert Lookup(d, k) == Meaning(op, Lookup(c, k));
    if op.Update? && k in c {
      var merged := MergeRemoveNullFields(c[k], op.data);
      ApplyToMeaning(op, Lookup(c, k));
      assert WithoutNulls(merged) == merged;
    }
    if Lookup(d, k) == Lookup(c, k) {
      forall j ensures Lookup(d, j) == Lookup(c, j) {
      }
      SameContent(d, c);
    }
  }

  /** The current state that `as_modifications` works with: cached, or else looked up unless immutable. */
  function Known(cache: Lfu, c: Content, immutable: set<string>, k: EntityKey): Option<Entity> {
    if k in cache then cache[k]
    else if k.entityType in immutable then None
    else Lookup(c, k)
  }

  /** Immutable entities that the block changes are new, as the cache assumes, or known and set to what they are. */
  ghost predicate WellBehaved(cache: Lfu, c: Content, immutable: set<string>, ops: Ops) {
    forall k :: k in ops && k.entityType in immutable && k in c ==> k in cache && ModificationFor(k, cache[k], ops[k]).None?
  }

  /** The cache knows every stored immutable entity that the block changes. */
  ghost predicate ImmutablesKnown(cache: Lfu, c: Content, immutable: set<string>, ops: Ops) {
    forall k :: k in ops && k.entityType in immutable && k in c ==> k in cache
  }

  /** `mods` holds exactly the modifications of `ops`, at most one per entity. */
  ghost predicate Enumerates(mods: seq<Modification>, cache: Lfu, c: Content, immutable: set<string>, ops: Ops) {
    && DistinctKeys(mods)
    && (forall i :: 0 <= i < |mods| ==>
          mods[i].key in ops && ModificationFor(mods[i].key, Known(cache, c, immutable, mods[i].key), ops[mods[i].key]) == Some(mods[i]))
    && (forall k :: k in ops && ModificationFor(k, Known(cache, c, immutable, k), ops[k]).Some? ==>
          ModificationFor(k, Known(cache, c, immutable, k), ops[k]).value in mods)
  }

  /** The cache handed back: entries of the old one, looked-up entities and what the operations made of them. */
  function CacheAfter(cache: Lfu, c: Content, immutable: set<string>, ops: Ops): Lfu {
    map k | k in cache.Keys + ops.Keys &&
            (k in ops ==> CachedAfter(Known(cache, c, immutable, k), ops[k]).Some?)
      :: if k in ops then CachedAfter(Known(cache, c, immutable, k), ops[k]).value else cache[k]
  }

  /** For well-behaved changes the modifications do to the store what the operations mean. */
  lemma ModificationsDoView(mods: seq<Modification>, cache: Lfu, c: Content, immutable: set<string>, ops: Ops)
    requires NullFree(c) && Agrees(cache, c) && Enumerates(mods, cache, c, immutable, ops)
    requires WellBehaved(cache, c, immutable, ops)
    ensures ApplyAll(c, immutable, mods) == Some(View(c, ops))
  {
    ApplyAllPointwise(c, immutable, mods);
    forall k | k in ops ensures Clean(Known(cache, c, immutable, k)) == Lookup(c, k) {
      assert k in c ==> WithoutNulls(c[k]) == c[k];
    }
    forall i | 0 <= i < |mods| ensures Applicable(c, mods[i]) && Permitted(immutable, mods[i]) {
      ModificationMeaning(c, mods[i].key, Known(cache, c, immutable, mods[i].key), ops[mods[i].key]);
    }
    var r := ApplyAll(c, immutable, mods).value;
    forall k ensures Lookup(r, k) == Lookup(View(c, ops), k) {
      if k in ops {
        var m := ModificationFor(k, Known(cache, c, immutable, k), ops[k]);
        ModificationMeaning(c, k, Known(cache, c, immutable, k), ops[k]);
        if m.Some? {
          assert m.value in mods;
        } else {
          assert !Mentions(mods, k);
        }
      } else {
        assert !Mentions(mods, k);
      }
    }
    SameContent(r, View(c, ops));
  }

  /** An immutable entity that exists already makes the transaction fail or its removal get lost. */
  lemma IllBehavedDiffers(mods: seq<Modification>, cache: Lfu, c: Content, immutable: set<string>, ops: Ops, k: EntityKey)
    requires Agrees(cache, c) && Enumerates(mods, cache, c, immutable, ops)
    requires k in ops && k.entityType in immutable && k in c
    requires k !in cache || ModificationFor(k, cache[k], ops[k]).Some?
    ensures ApplyAll(c, immutable, mods) != Some(View(c, ops))
    ensures k in cache ==> ApplyAll(c, immutable, mods).None?
  {
    ApplyAllPointwise(c, immutable, mods);
    var m := ModificationFor(k, Known(cache, c, immutable, k), ops[k]);
    if k !in cache && ops[k].Remove? {
      assert !Mentions(mods, k);
      assert ApplyAll(c, immutable, mods).Some? ==> k in ApplyAll(c, immutable, mods).value by {
        assert ApplyAll(c, immutable, mods).Some? ==> Lookup(ApplyAll(c, immutable, mods).value, k) == Lookup(c, k);
      }
      assert k !in View(c, ops);
    } else {
      assert m.value in mods;
      var i :| 0 <= i < |mods| && mods[i] == m.value;
      assert !Applicable(c, mods[i]) || !Permitted(immutable, mods[i]);
    }
  }

  /**
   The modifications do exactly what the handlers asked for iff every changed immutable entity is new, or
   known and set to what it is.
   */
  lemma ModificationsExactIff(mods: seq<Modification>, cache: Lfu, c: Content, immutable: set<string>, ops: Ops)
    requires NullFree(c) && Agrees(cache, c) && Enumerates(mods, cache, c, immutable, ops)
    ensures ApplyAll(c, immutable, mods) == Some(View(c, ops)) <==> WellBehaved(cache, c, immutable, ops)
  {
    if WellBehaved(cache, c, immutable, ops) {
      ModificationsDoView(mods, cache, c, immutable, ops);
    } else {
      var k :| k in ops && k.entityType in immutable && k in c && !(k in cache && ModificationFor(k, cache[k], ops[k]).None?);
      IllBehavedDiffers(mods, cache, c, immutable, ops, k);
    }
  }

  /** A transaction that succeeds did what the handlers asked for iff the changed immutable entities were known or new. */
  lemma TransactedExactlyIff(mods: seq<Modification>, cache: Lfu, c: Content, immutable: set<string>, ops: Ops)
    requires NullFree(c) && Agrees(cache, c) && Enumerates(mods, cache, c, immutable, ops)
    requires ApplyAll(c, immutable, mods).Some?
    ensures ApplyAll(c, immutable, mods).value == View(c, ops) <==> ImmutablesKnown(cache, c, immutable, ops)
  {
    ModificationsExactIff(mods, cache, c, immutable, ops);
    if ImmutablesKnown(cache, c, immutable, ops) && !WellBehaved(cache, c, immutable, ops) {
      var k :| k in ops && k.entityType in immutable && k in c && !(k in cache && ModificationFor(k, cache[k], ops[k]).None?);
      IllBehavedDiffers(mods, cache, c, immutable, ops, k);
      assert false;
    }
  }

  /** What a successful transaction leaves for an entity that the block changed. */
  lemma TransactedEntity(mods: seq<Modification>, cache: Lfu, c: Content, immutable: set<string>, ops: Ops, k: EntityKey)
    requires Enumerates(mods, cache, c, immutable, ops) && ApplyAll(c, immutable, mods).Some? && k in ops
    ensures var m := ModificationFor(k, Known(cache, c, immutable, k), ops[k]);
      && (m.Some? ==> Applicable(c, m.value) && Permitted(immutable, m.value))
      && Lookup(ApplyAll(c, immutable, mods).value, k) == if m.Some? then Lookup(ApplyOne(c, m.value), k) else Lookup(c, k)
  {
    ApplyAllPointwise(c, immutable, mods);
    var m := ModificationFor(k, Known(cache, c, immutable, k), ops[k]);
    if m.Some? {
      var i :| 0 <= i < |mods| && mods[i] == m.value;
      assert m.value.key == k;
    } else {
      assert !Mentions(mods, k);
    }
  }

  /** Whenever the transaction succeeds, the cache handed back agrees with the new content. */
  lemma CacheAgreesAfter(mods: seq<Modification>, cache: Lfu, c: Content, immutable: set<string>, ops: Ops)
    requires NullFree(c) && Agrees(cache, c) && Enumerates(mods, cache, c, immutable, ops)
    requires ApplyAll(c, immutable, mods).Some?
    ensures Agrees(CacheAfter(cache, c, immutable, ops), ApplyAll(c, immutable, mods).value)
  {
    var r := ApplyAll(c, immutable, mods).value;
    var after := CacheAfter(cache, c, immutable, ops);
    forall k | k in after ensures Clean(after[k]) == Lookup(r, k) {
      if k in ops {
        TransactedEntity(mods, cache, c, immutable, ops, k);
        EntityAgreesAfter(c, k, cache, immutable, ops[k]);
      } else {
        UntouchedEntity(mods, cache, c, immutable, ops, k);
      }
    }
  }

  lemma UntouchedEntity(mods: seq<Modification>, cache: Lfu, c: Content, immutable: set<string>, ops: Ops, k: EntityKey)
    requires Enumerates(mods, cache, c, immutable, ops) && ApplyAll(c, immutable, mods).Some? && k !in ops
    ensures Lookup(ApplyAll(c, immutable, mods).value, k) == Lookup(c, k)
  {
    ApplyAllPointwise(c, immutable, mods);
    assert !Mentions(mods, k);
  }

  lemma EntityAgreesAfter(c: Content, k: EntityKey, cache: Lfu, immutable: set<string>, op: EntityOp)
    requires NullFree(c) && Agrees(cache, c)
    requires var m := ModificationFor(k, Known(cache, c, immutable, k), op); m.Some? ==> Applicable(c, m.value)
    ensures var known := Known(cache, c, immutable, k);
      var m := ModificationFor(k, known, op);
      CachedAfter(known, op).Some? ==>
        Clean(CachedAfter(known, op).value) == if m.Some? then Lookup(ApplyOne(c, m.value), k) else Lookup(c, k)
  {
    var known := Known(cache, c, immutable, k);
    assert k in c ==> WithoutNulls(c[k]) == c[k];
    if Clean(known) == Lookup(c, k) {
      ModificationMeaning(c, k, known, op);
    }
  }

  // ------------------------------------------------------------------ the cache itself

  /** What the cache or the store said about an entity: an absent entry and a cached absence look the same. */
  function Flatten(e: Option<Option<Entity>>): Option<Entity> {
    if e.None? then None else e.value
  }

  /**
   What the schema says of an entity that is set: its id contradicts the key, it is valid by itself, or it
   has to be merged with what is there, which then is valid or not.
   */
  datatype Check = IdConflict | Complete | Partial(mergedIsValid: bool) {
    predicate Accepted() {
      Complete? || (Partial? && mergedIsValid)
    }
  }

  class EntityCache {
    var current: Lfu
    var updates: Ops
    var handlerUpdates: Ops
    var inHandler: bool
    const store: Content
    const immutable: set<string>

    ghost predicate Valid()
      reads this
    {
      NullFree(store) && Agrees(current, store) && (!inHandler ==> handlerUpdates == map[])
    }

    /** The content once the finished handlers' changes are stored. */
    ghost function Outside(): Content
      reads this
    {
      View(store, updates)
    }

    /** The content a running handler must see. */
    ghost function Seen(): Content
      reads this
    {
      View(Outside(), handlerUpdates)
    }

    /** The entities with pending changes. */
    ghost function Touched(): set<EntityKey>
      reads this
    {
      updates.Keys + handlerUpdates.Keys
    }

    constructor WithCurrent(store: Content, immutable: set<string>, current: Lfu)
      requires NullFree(store) && Agrees(current, store)
      ensures Valid() && !inHandler && Seen() == Outside() == store && Touched() == {}
      ensures this.store == store && this.immutable == immutable && this.current == current && updates == map[]
    {
      this.store := store;
      this.immutable := immutable;
      this.current := current;
      updates := map[];
      handlerUpdates := map[];
      inHandler := false;
      new;
      ViewNothing(store);
    }

    method EnterHandler()
      requires Valid() && !inHandler
      modifies this`inHandler
      ensures Valid() && inHandler && Seen() == old(Seen()) && Outside() == old(Seen())
    {
      inHandler := true;
      ViewNothing(Outside());
    }

    method ExitHandler()
      requires Valid() && inHandler
      modifies this`inHandler, this`updates, this`handlerUpdates
      ensures Valid() && !inHandler && Seen() == old(Seen()) == Outside()
      ensures Touched() == old(Touched())
    {
      inHandler := false;
      var pending := handlerUpdates;
      handlerUpdates := map[];
      while pending != map[]
        invariant handlerUpdates == map[] && !inHandler
        invariant updates.Keys + pending.Keys == old(Touched())
        invariant View(View(store, updates), pending) == old(Seen())
        decreases pending.Keys
      {
        var key :| key in pending;
        MoveOp(store, updates, pending, key);
        updates := AddOp(updates, key, pending[key]);
        assert (pending - {key}).Keys == pending.Keys - {key};
        pending := pending - {key};
      }
      ViewNothing(Outside());
    }

    method ExitHandlerAndDiscardChanges()
      requires Valid() && inHandler
      modifies this`inHandler, this`handlerUpdates
      ensures Valid() && !inHandler && Seen() == old(Outside()) == Outside()
      ensures Touched() == old(updates).Keys
    {
      inHandler := false;
      handlerUpdates := map[];
      ViewNothing(Outside());
    }

    method RecordOp(key: EntityKey, op: EntityOp)
      requires Valid()
      modifies this`updates, this`handlerUpdates
      ensures Valid() && Seen() == View(old(Seen()), map[key := op])
      ensures Touched() == old(Touched()) + {key}
      ensures inHandler ==> Outside() == old(Outside()) && updates == old(updates)
      ensures !inHandler ==> Outside() == Seen()
    {
      if inHandler {
        ViewAddOp(Outside(), handlerUpdates, key, op);
        handlerUpdates := handlerUpdates[key := if key in handlerUpdates then Accumulate(handlerUpdates[key], op) else op];
      } else {
        ViewAddOp(store, updates, key, op);
        ViewNothing(Outside());
        updates := updates[key := if key in updates then Accumulate(updates[key], op) else op];
        ViewNothing(Outside());
      }
    }

    /** What is not valid by itself is looked up and validated again; the update stays even if that fails. */
    method Set(key: EntityKey, data: Entity, check: Check) returns (ok: bool)
      requires Valid()
      modifies this`current, this`updates, this`handlerUpdates
      ensures Valid() && ok == check.Accepted()
      ensures check.IdConflict? ==> unchanged(this)
      ensures !check.IdConflict? ==> Seen() == SetIn(old(Seen()), key, data) && Touched() == old(Touched()) + {key}
      ensures current.Keys == old(current).Keys + if check.Partial? then {key} else {}
      ensures if inHandler then Outside() == old(Outside()) && updates == old(updates)
              else !check.IdConflict? ==> Outside() == Seen()
    {
      if check.IdConflict? {
        return false;
      }
      ViewOfSet(Seen(), key, data);
      RecordOp(key, Update(data));
      if check.Partial? {
        var _ := Get(key);
        return check.mergedIsValid;
      }
      return true;
    }

    method RemoveKey(key: EntityKey)
      requires Valid()
      modifies this`updates, this`handlerUpdates
      ensures Valid() && Seen() == old(Seen()) - {key}
      ensures Touched() == old(Touched()) + {key}
      ensures if inHandler then Outside() == old(Outside()) && updates == old(updates) else Outside() == Seen()
    {
      ViewOfRemove(Seen(), key);
      RecordOp(key, Remove);
    }

    method Get(key: EntityKey) returns (entity: Option<Entity>)
      requires Valid()
      modifies this`current
      ensures Valid() && Clean(entity) == Lookup(Seen(), key) && current.Keys == old(current).Keys + {key}
    {
      if key in current {
        entity := current[key];
      } else {
        entity := Lookup(store, key);
        assert key in store ==> WithoutNulls(store[key]) == store[key];
        current := current[key := entity];
      }
      ViewLookup(store, updates, key);
      ViewLookup(Outside(), handlerUpdates, key);
      if key in updates {
        ApplyToMeaning(updates[key], entity);
        entity := ApplyTo(updates[key], entity);
      }
      if key in handlerUpdates {
        ApplyToMeaning(handlerUpdates[key], entity);
        entity := ApplyTo(handlerUpdates[key], entity);
      }
    }

    /** Looks up the entities that are changed but not cached; immutable ones are taken to be new. */
    method LoadMissing()
      requires Valid()
      modifies this`current
      ensures forall k :: k in updates ==> Flatten(Lookup(current, k)) == Known(old(current), store, immutable, k)
      ensures forall k :: k !in updates ==> Lookup(current, k) == Lookup(old(current), k)
    {
      var missing := set k | k in updates && k !in current && k.entityType !in immutable;
      ghost var all := missing;
      while missing != {}
        invariant missing <= all
        invariant forall k :: k !in all || k in missing ==> Lookup(current, k) == Lookup(old(current), k)
        invariant forall k :: k in all && k !in missing ==>
          Lookup(current, k) == if k in store then Some(Some(store[k])) else None
      {
        var k :| k in missing;
        if k in store {
          current := current[k := Some(store[k])];
        }
        missing := missing - {k};
      }
    }

    /** The match in the loop of `as_modifications`, for one entity. */
    method Modify(key: EntityKey) returns (modification: Option<Modification>)
      requires key in updates
      modifies this`current
      ensures modification == ModificationFor(key, Flatten(Lookup(old(current), key)), updates[key])
      ensures Lookup(current, key) == CachedAfter(Flatten(Lookup(old(current), key)), updates[key])
      ensures forall k :: k != key ==> Lookup(current, k) == Lookup(old(current), k)
    {
      var entity := Flatten(Lookup(current, key));
      current := current - {key};
      match updates[key]
      case Remove =>
        if entity.Some? {
          current := current[key := None];
          modification := Some(RemoveEntity(key));
        } else {
          modification := None;
        }
      case Update(data) =>
        if entity.None? {
          var merged := MergeRemoveNullFields(map[], data);
          current := current[key := Some(merged)];
          modification := Some(InsertEntity(key, merged));
        } else {
          var merged := MergeRemoveNullFields(entity.value, data);
          current := current[key := Some(merged)];
          modification := if entity.value != merged then Some(OverwriteEntity(key, merged)) else None;
        }
      case Overwrite(data) =>
        if entity.None? {
          var merged := MergeRemoveNullFields(map[], data);
          current := current[key := Some(merged)];
          modification := Some(InsertEntity(key, merged));
        } else {
          current := current[key := Some(data)];
          modification := if entity.value != data then Some(OverwriteEntity(key, data)) else None;
        }
    }

    /** The loop of `as_modifications`. */
    method ModifyAll() returns (mods: seq<Modification>)
      requires Valid()
      modifies this`current
      ensures Enumerates(mods, old(current), store, immutable, updates)
      ensures forall k :: k in updates ==> Lookup(current, k) == CachedAfter(Known(old(current), store, immutable, k), updates[k])
      ensures forall k :: k !in updates ==> Lookup(current, k) == Lookup(old(current), k)
    {
      ghost var current0 := current;
      LoadMissing();
      mods := [];
      var todo := updates.Keys;
      while todo != {}
        invariant todo <= updates.Keys
        invariant DistinctKeys(mods)
        invariant forall i :: 0 <= i < |mods| ==>
          && mods[i].key in updates && mods[i].key !in todo
          && ModificationFor(mods[i].key, Known(current0, store, immutable, mods[i].key), updates[mods[i].key]) == Some(mods[i])
        invariant forall k :: k in updates && k !in todo && ModificationFor(k, Known(current0, store, immutable, k), updates[k]).Some? ==>
          ModificationFor(k, Known(current0, store, immutable, k), updates[k]).value in mods
        invariant forall k :: k in todo ==> Flatten(Lookup(current, k)) == Known(current0, store, immutable, k)
        invariant forall k :: k !in updates ==> Lookup(current, k) == Lookup(current0, k)
        invariant forall k :: k in updates && k !in todo ==>
          Lookup(current, k) == CachedAfter(Known(current0, store, immutable, k), updates[k])
      {
        var key :| key in todo;
        todo := todo - {key};
        var modification := Modify(key);
        if modification.Some? {
          assert modification.value.key == key;
          mods := mods + [modification.value];
        }
      }
    }

    method AsModifications(keep: set<EntityKey>) returns (mods: seq<Modification>, cache: Lfu)
      requires Valid() && !inHandler
      modifies this`current
      ensures Enumerates(mods, old(current), store, immutable, updates)
      ensures forall k :: k in keep ==> Lookup(cache, k) == Lookup(CacheAfter(old(current), store, immutable, updates), k)
      ensures forall k :: k !in keep ==> k !in cache
      ensures ApplyAll(store, immutable, mods) == Some(Seen()) <==> WellBehaved(old(current), store, immutable, updates)
      ensures ApplyAll(store, immutable, mods).Some? ==>
                && Agrees(cache, ApplyAll(store, immutable, mods).value)
                && (ApplyAll(store, immutable, mods).value == Seen() <==> ImmutablesKnown(old(current), store, immutable, updates))
    {
      ghost var current0 := current;
      mods := ModifyAll();
      // What survives eviction is up to the least-frequently-used policy.
      cache := map k | k in current && k in keep :: current[k];
      current := cache;
      assert forall k :: k in keep ==> Lookup(cache, k) == Lookup(CacheAfter(current0, store, immutable, updates), k);
      ViewNothing(Outside());
      ModificationsExactIff(mods, current0, store, immutable, updates);
      if ApplyAll(store, immutable, mods).Some? {
        TransactedExactlyIff(mods, current0, store, immutable, updates);
        CacheAgreesAfter(mods, current0, store, immutable, updates);
        forall k | k in cache ensures Clean(cache[k]) == Lookup(ApplyAll(store, immutable, mods).value, k) {
          assert Lookup(cache, k) == Lookup(CacheAfter(current0, store, immutable, updates), k);
        }
      }
    }
  }
}

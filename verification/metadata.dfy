/**
 The deep merge of document metadata (backend/src/documents/metadata.rs) and
 what it means path by path. A null in the update is stored like any value.
*/
module Metadata {
  import opened Common

  /** A number is kept as an integer or as a float, and 1 is not the same value as 1.0. */
  datatype Num = Whole(n: int) | Float(x: real)

  datatype Json =
    | Null
    | Bool(b: bool)
    | Number(n: Num)
    | String(s: string)
    | Array(items: seq<Json>)
    | Object(fields: map<string, Json>)

  datatype MergeError = ExistingNotObject | UpdateNotObject

  /** The merge of two values: objects are merged key by key, anything else is replaced by the update. */
  function Merge(base: Json, update: Json): Json
    decreases update
  {
    if base.Object? && update.Object? then
      Object(map k | k in base.fields.Keys + update.fields.Keys ::
        if k !in update.fields then base.fields[k]
        else if k in base.fields then Merge(base.fields[k], update.fields[k])
        else update.fields[k])
    else update
  }

  /** A JSON map that is changed where it is. */
  class JsonMap {
    var fields: map<string, Json>

    constructor (fields: map<string, Json>)
      ensures this.fields == fields
    {
      this.fields := fields;
    }
  }

  /** merge_metadata_maps: enters the updates one by one, in any order, into the target itself. */
  method MergeMetadataMaps(target: JsonMap, updates: map<string, Json>)
    modifies target
    ensures Object(target.fields) == Merge(Object(old(target.fields)), Object(updates))
    decreases Object(updates)
  {
    ghost var base := target.fields;
    var rest := updates.Keys;
    while rest != {}
      invariant rest <= updates.Keys
      invariant PartlyMerged(target.fields, base, updates, rest)
      decreases rest
    {
      var key :| key in rest;
      ghost var before := target.fields;
      match updates[key] {
        case Object(updateMap) =>
          if key in target.fields && target.fields[key].Object? {
            var existing := new JsonMap(target.fields[key].fields);
            assert Object(updateMap) == updates[key];
            MergeMetadataMaps(existing, updateMap);
            target.fields := target.fields[key := Object(existing.fields)];
          } else {
            target.fields := target.fields[key := Object(updateMap)];
          }
        case other =>
          target.fields := target.fields[key := other];
      }
      EnteredOne(before, base, updates, rest, key);
      rest := rest - {key};
    }
    assert target.fields == Merge(Object(base), Object(updates)).fields;
  }

  /** What one update entry leaves under its key. */
  function Entered(base: map<string, Json>, updates: map<string, Json>, key: string): Json
    requires key in updates
  {
    if key in base then Merge(base[key], updates[key]) else updates[key]
  }

  /** All entries but the rest have been entered. */
  ghost predicate PartlyMerged(merged: map<string, Json>, base: map<string, Json>, updates: map<string, Json>, rest: set<string>) {
    && merged.Keys == base.Keys + (updates.Keys - rest)
    && (forall k :: k in merged && (k in rest || k !in updates) ==> merged[k] == base[k])
    && forall k :: k in updates && k !in rest ==> merged[k] == Entered(base, updates, k)
  }

  lemma EnteredOne(merged: map<string, Json>, base: map<string, Json>, updates: map<string, Json>, rest: set<string>, key: string)
    requires PartlyMerged(merged, base, updates, rest) && key in rest && rest <= updates.Keys
    ensures key in merged <==> key in base
    ensures key in merged ==> merged[key] == base[key]
    ensures PartlyMerged(merged[key := Entered(base, updates, key)], base, updates, rest - {key})
  {
  }

  function MergeDocumentMetadata(existing: Json, updates: Json): Result<Json, MergeError> {
    if !existing.Object? && !existing.Null? then Err(ExistingNotObject)
    else if !updates.Object? then Err(UpdateNotObject)
    else Ok(Merge(if existing.Object? then existing else Object(map[]), updates))
  }

  method MergeMetadata(existing: Json, updates: Json) returns (r: Result<Json, MergeError>)
    ensures r == MergeDocumentMetadata(existing, updates)
  {
    var base: map<string, Json> := map[];
    match existing {
      case Object(fields) => base := fields;
      case Null =>
      case _ => return Err(ExistingNotObject);
    }
    if !updates.Object? {
      return Err(UpdateNotObject);
    }
    var target := new JsonMap(base);
    MergeMetadataMaps(target, updates.fields);
    return Ok(Object(target.fields));
  }

  // ---------- Path by path ----------

  function Lookup(j: Json, path: seq<string>): Option<Json> {
    if path == [] then Some(j)
    else if j.Object? && path[0] in j.fields then Lookup(j.fields[path[0]], path[1..])
    else None
  }

  predicate ObjectAt(j: Json, path: seq<string>) {
    Lookup(j, path).Some? && Lookup(j, path).value.Object?
  }

  /** At some point on the way the update has a value where not both sides have an object. */
  ghost predicate Overrides(base: Json, update: Json, path: seq<string>) {
    exists n :: 0 <= n <= |path| && OverridesAt(base, update, path[..n])
  }

  ghost predicate OverridesAt(base: Json, update: Json, path: seq<string>) {
    Lookup(update, path).Some? && !(ObjectAt(base, path) && ObjectAt(update, path))
  }

  lemma OverridesBelow(base: Json, update: Json, path: seq<string>)
    requires base.Object? && update.Object? && path != []
    ensures Overrides(base, update, path) <==>
              path[0] in update.fields
              && (path[0] in base.fields ==> Overrides(base.fields[path[0]], update.fields[path[0]], path[1..]))
  {
    assert !OverridesAt(base, update, path[..0]);
    if Overrides(base, update, path) {
      var n :| 0 <= n <= |path| && OverridesAt(base, update, path[..n]);
      assert path[..n][0] == path[0] && path[..n][1..] == path[1..][..n - 1];
      assert path[0] in base.fields ==> OverridesAt(base.fields[path[0]], update.fields[path[0]], path[1..][..n - 1]);
    }
    if path[0] in update.fields {
      if path[0] in base.fields {
        if Overrides(base.fields[path[0]], update.fields[path[0]], path[1..]) {
          var n :| 0 <= n <= |path[1..]| && OverridesAt(base.fields[path[0]], update.fields[path[0]], path[1..][..n]);
          assert path[..n + 1][0] == path[0] && path[..n + 1][1..] == path[1..][..n];
          assert OverridesAt(base, update, path[..n + 1]);
        }
      } else {
        assert path[..1][0] == path[0] && path[..1][1..] == [];
        var first := path[..1];
        assert Lookup(base, first).None? && Lookup(update, first).Some?;
        assert OverridesAt(base, update, path[..1]);
      }
    }
  }

  /**
   The merged value at every path: the update's where the update overrides, the
   merge of both where both have an object, and the base's otherwise.
   */
  lemma {:induction false} MergePathwise(base: Json, update: Json, path: seq<string>)
    requires base.Object? && update.Object?
    ensures Lookup(Merge(base, update), path) ==
              if Overrides(base, update, path) then Lookup(update, path)
              else if ObjectAt(base, path) && ObjectAt(update, path) then
                Some(Merge(Lookup(base, path).value, Lookup(update, path).value))
              else Lookup(base, path)
    decreases |path|
  {
    if path == [] {
      assert forall n :: 0 <= n <= |path| ==> path[..n] == [];
      assert !Overrides(base, update, path);
    } else {
      OverridesBelow(base, update, path);
      var key := path[0];
      if key in base.fields && key in update.fields {
        if base.fields[key].Object? && update.fields[key].Object? {
          MergePathwise(base.fields[key], update.fields[key], path[1..]);
        } else {
          assert OverridesAt(base.fields[key], update.fields[key], path[1..][..0]);
        }
      }
    }
  }

  /** Every value of the update that is not an object appears at its path. */
  lemma UpdateAppears(base: Json, update: Json, path: seq<string>)
    requires base.Object? && update.Object?
    requires Lookup(update, path).Some? && !Lookup(update, path).value.Object?
    ensures Lookup(Merge(base, update), path) == Lookup(update, path)
  {
    MergePathwise(base, update, path);
    assert path[..|path|] == path;
    assert OverridesAt(base, update, path[..|path|]);
  }

  /** What the base has at a path that is not overridden stays: a plain value as it is, an object as an object. */
  lemma BaseIsKept(base: Json, update: Json, path: seq<string>)
    requires base.Object? && update.Object?
    requires Lookup(base, path).Some? && !Overrides(base, update, path)
    ensures Lookup(Merge(base, update), path).Some?
    ensures !Lookup(base, path).value.Object? ==> Lookup(Merge(base, update), path) == Lookup(base, path)
    ensures Lookup(base, path).value.Object? ==> ObjectAt(Merge(base, update), path)
  {
    MergePathwise(base, update, path);
  }

  /** Nothing else appears. */
  lemma NothingElseAppears(base: Json, update: Json, path: seq<string>)
    requires base.Object? && update.Object? && Lookup(Merge(base, update), path).Some?
    ensures Lookup(base, path).Some? || Lookup(update, path).Some?
    ensures !Lookup(Merge(base, update), path).value.Object? ==>
              Lookup(Merge(base, update), path) == Lookup(base, path) || Lookup(Merge(base, update), path) == Lookup(update, path)
  {
    MergePathwise(base, update, path);
  }

  // ---------- Idempotence ----------

  lemma {:induction false} MergeWithItself(update: Json)
    ensures Merge(update, update) == update
    decreases update
  {
    if update.Object? {
      forall k | k in update.fields
        ensures Merge(update.fields[k], update.fields[k]) == update.fields[k]
      {
        MergeWithItself(update.fields[k]);
      }
    }
  }

  /** Applying the same update a second time changes nothing. */
  lemma {:induction false} MergeIdempotent(base: Json, update: Json)
    ensures Merge(Merge(base, update), update) == Merge(base, update)
    decreases update
  {
    if base.Object? && update.Object? {
      var merged := Merge(base, update);
      forall k | k in update.fields
        ensures Merge(merged.fields[k], update.fields[k]) == merged.fields[k]
      {
        if k in base.fields {
          MergeIdempotent(base.fields[k], update.fields[k]);
        } else {
          MergeWithItself(update.fields[k]);
        }
      }
      assert Merge(merged, update).fields == merged.fields;
    } else {
      MergeWithItself(update);
    }
  }

  /**
   The merge is not associative: between two objects a and c under one key, a
   plain value in the middle cuts a off on the left grouping only.
   */
  lemma GroupingMatters(key: string, a: Json, plain: Json, c: Json)
    requires a.Object? && c.Object? && !plain.Object?
    ensures Merge(Merge(Object(map[key := a]), Object(map[key := plain])), Object(map[key := c])) == Object(map[key := c])
    ensures Merge(Object(map[key := a]), Merge(Object(map[key := plain]), Object(map[key := c])))
              == Object(map[key := Merge(a, c)])
  {
    assert Merge(Object(map[key := a]), Object(map[key := plain])).fields == map[key := plain];
    assert Merge(Object(map[key := plain]), Object(map[key := c])).fields == map[key := c];
    assert Merge(Object(map[key := a]), Object(map[key := c])).fields == map[key := Merge(a, c)];
  }

  // ---------- Storing ----------

  /** A value as a column gives it back that rewrites numbers, each by itself, and nothing else. */
  function StoreJson(j: Json, storeNumber: Num -> Num): Json
    decreases j
  {
    match j
    case Number(n) => Number(storeNumber(n))
    case Array(items) => Array(seq(|items|, i requires 0 <= i < |items| => StoreJson(items[i], storeNumber)))
    case Object(fields) => Object(map k | k in fields :: StoreJson(fields[k], storeNumber))
    case _ => j
  }

  /** What was rewritten once is not rewritten again. */
  ghost predicate StoresOnce(storeNumber: Num -> Num) {
    forall n {:trigger storeNumber(n)} :: storeNumber(storeNumber(n)) == storeNumber(n)
  }

  lemma {:induction false} StoreTwice(j: Json, storeNumber: Num -> Num)
    requires StoresOnce(storeNumber)
    ensures StoreJson(StoreJson(j, storeNumber), storeNumber) == StoreJson(j, storeNumber)
    decreases j
  {
    match j
    case Array(items) =>
      forall i | 0 <= i < |items|
        ensures StoreJson(StoreJson(items[i], storeNumber), storeNumber) == StoreJson(items[i], storeNumber)
      {
        StoreTwice(items[i], storeNumber);
      }
    case Object(fields) =>
      forall k | k in fields
        ensures StoreJson(StoreJson(fields[k], storeNumber), storeNumber) == StoreJson(fields[k], storeNumber)
      {
        StoreTwice(fields[k], storeNumber);
      }
    case _ =>
  }

  /** Storing a merged value is merging stored values. */
  lemma {:induction false} StoreMerge(base: Json, update: Json, storeNumber: Num -> Num)
    ensures StoreJson(Merge(base, update), storeNumber) == Merge(StoreJson(base, storeNumber), StoreJson(update, storeNumber))
    decreases update
  {
    if base.Object? && update.Object? {
      forall k | k in update.fields && k in base.fields
        ensures StoreJson(Merge(base.fields[k], update.fields[k]), storeNumber)
             == Merge(StoreJson(base.fields[k], storeNumber), StoreJson(update.fields[k], storeNumber))
      {
        StoreMerge(base.fields[k], update.fields[k], storeNumber);
      }
      assert StoreJson(Merge(base, update), storeNumber).fields
          == Merge(StoreJson(base, storeNumber), StoreJson(update, storeNumber)).fields;
    }
  }

  /** Over a stored base, the merged value comes back unchanged exactly when the update itself does. */
  lemma {:induction false} MergeStoredExactly(base: Json, update: Json, storeNumber: Num -> Num)
    requires StoreJson(base, storeNumber) == base
    ensures StoreJson(Merge(base, update), storeNumber) == Merge(base, update) <==> StoreJson(update, storeNumber) == update
    decreases update
  {
    StoreMerge(base, update, storeNumber);
    if StoreJson(Merge(base, update), storeNumber) == Merge(base, update) && base.Object? && update.Object? {
      var merged := Merge(base, update);
      forall k | k in update.fields
        ensures StoreJson(update.fields[k], storeNumber) == update.fields[k]
      {
        assert StoreJson(merged.fields[k], storeNumber) == StoreJson(merged, storeNumber).fields[k] == merged.fields[k];
        if k in base.fields {
          assert StoreJson(base.fields[k], storeNumber) == StoreJson(base, storeNumber).fields[k] == base.fields[k];
          MergeStoredExactly(base.fields[k], update.fields[k], storeNumber);
        }
      }
      assert StoreJson(update, storeNumber).fields == update.fields;
    }
  }

  /** A stored value has at every path the stored value. */
  lemma {:induction false} StoreLookup(j: Json, path: seq<string>, storeNumber: Num -> Num)
    ensures Lookup(StoreJson(j, storeNumber), path) ==
              match Lookup(j, path) case None => None case Some(v) => Some(StoreJson(v, storeNumber))
    decreases |path|
  {
    if path != [] && j.Object? && path[0] in j.fields {
      StoreLookup(j.fields[path[0]], path[1..], storeNumber);
    }
  }
}

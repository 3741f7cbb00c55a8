/**
 Root paths of folders: they name folders uniquely, `ensure_folder_path`
 extends them by exactly the requested segments, and a move rewrites only the
 paths below the moved folder.
*/
module FolderPaths {
  import opened Common
  import opened Folders
  import opened FolderForest

  /** The names from the root down to x. */
  ghost function Path(t: Table, x: Id): (p: seq<string>)
    requires Acyclic(t) && x in t
    ensures p != [] && p[|p| - 1] == t[x].name
    decreases RankOf(t).rank[x]
  {
    match LocalParent(t, x)
    case None => [t[x].name]
    case Some(p) => Path(t, p) + [t[x].name]
  }

  ghost function PathTo(t: Table, at: Option<Id>): seq<string>
    requires Acyclic(t) && (at.Some? ==> at.value in t)
  {
    if at.None? then [] else Path(t, at.value)
  }

  /** The set of all root paths of a tenant. */
  ghost function Paths(t: Table, tenant: TenantId): set<seq<string>>
    requires Acyclic(t)
  {
    set x | x in t && t[x].tenant == tenant :: Path(t, x)
  }

  predicate Within(t: Table, tenant: TenantId, at: Option<Id>) {
    at.Some? ==> at.value in t && t[at.value].tenant == tenant
  }

  lemma LocalInForest(t: Table, x: Id)
    requires Forest(t) && x in t
    ensures LocalParent(t, x) == t[x].parent && Within(t, t[x].tenant, t[x].parent)
    ensures Path(t, x) == PathTo(t, t[x].parent) + [t[x].name]
  {
    assert ParentExists(t, x) && !ForeignParent(t, t[x].tenant, t[x].parent);
    assert [] + [t[x].name] == [t[x].name];
  }

  // ---------- Uniqueness and stability ----------

  /** A root path names at most one folder of a tenant. */
  lemma {:induction false} PathIsUnique(t: Table, x: Id, y: Id)
    requires Forest(t) && x in t && y in t && t[x].tenant == t[y].tenant
    requires Path(t, x) == Path(t, y)
    ensures x == y
    decreases RankOf(t).rank[x]
  {
    LocalInForest(t, x);
    LocalInForest(t, y);
    var above, beside := PathTo(t, t[x].parent), PathTo(t, t[y].parent);
    assert above == Path(t, x)[..|Path(t, x)| - 1] == Path(t, y)[..|Path(t, y)| - 1] == beside;
    if t[x].parent.Some? && t[y].parent.Some? {
      PathIsUnique(t, t[x].parent.value, t[y].parent.value);
    }
    assert Apart(t, x, y);
  }

  /** Adding rows changes no existing path. */
  lemma {:induction false} PathIsStable(t: Table, t': Table, tenant: TenantId, x: Id)
    requires Forest(t) && Forest(t') && Extends(t', t, tenant) && x in t
    ensures Path(t', x) == Path(t, x)
    decreases RankOf(t).rank[x]
  {
    LocalInForest(t, x);
    LocalInForest(t', x);
    if t[x].parent.Some? {
      PathIsStable(t, t', tenant, t[x].parent.value);
    }
  }

  // ---------- ensure_folder_path ----------

  /** The normalised form of each segment. */
  function Normalized(segments: seq<string>): (names: seq<string>)
    requires AllNormalize(segments)
    ensures |names| == |segments|
  {
    seq(|segments|, i requires 0 <= i < |segments| => NormalizeFolderName(segments[i]).value)
  }

  lemma EnsureChildPath(t: Table, tenant: TenantId, at: Option<Id>, name: string, newId: Id)
    requires Forest(t) && Within(t, tenant, at) && newId !in t
    requires IsNormal(name)
    ensures EnsureChild(t, tenant, at, name, newId).Ok?
    ensures var placed := EnsureChild(t, tenant, at, name, newId).value;
            && Forest(placed.table) && Extends(placed.table, t, tenant)
            && placed.table.Keys <= t.Keys + {newId}
            && IsChild(placed.table, tenant, at, placed.id)
            && Path(placed.table, placed.id) == PathTo(t, at) + [name]
            && (forall y :: y in placed.table && y !in t ==> y == placed.id)
  {
    EnsureChildKeepsSound(t, tenant, at, name, newId);
    var placed := EnsureChild(t, tenant, at, name, newId).value;
    LocalInForest(placed.table, placed.id);
    if at.Some? {
      PathIsStable(t, placed.table, tenant, at.value);
    }
  }

  function WayPoint(base: seq<string>, names: seq<string>, k: nat): seq<string>
    requires k <= |names|
  {
    base + names[..k]
  }

  /** The paths met on the way down from `base` along the names. */
  ghost function Way(base: seq<string>, names: seq<string>): set<seq<string>> {
    set k | 0 < k <= |names| :: WayPoint(base, names, k)
  }

  lemma WaySplits(base: seq<string>, names: seq<string>)
    requires names != []
    ensures Way(base, names) == {base + [names[0]]} + Way(base + [names[0]], names[1..])
  {
    var next, rest := base + [names[0]], names[1..];
    assert WayPoint(base, names, 1) == next;
    forall k | 0 < k <= |rest|
      ensures WayPoint(next, rest, k) == WayPoint(base, names, k + 1)
    {
      assert names[..k + 1] == [names[0]] + rest[..k];
    }
    forall p | p in Way(base, names)
      ensures p in {next} + Way(next, rest)
    {
      var k :| 0 < k <= |names| && p == WayPoint(base, names, k);
      assert k > 1 ==> p == WayPoint(next, rest, k - 1);
    }
  }

  /** Every row added lies on the way, and the whole way exists. */
  ghost predicate WayBuilt(t': Table, t: Table, tenant: TenantId, way: set<seq<string>>)
    requires Acyclic(t')
  {
    (forall y :: y in t' && y !in t ==> Path(t', y) in way) && way <= Paths(t', tenant)
  }

  /** The walk ends at the folder whose root path is that of the start extended by the names. */
  ghost predicate Arrived(tenant: TenantId, base: seq<string>, names: seq<string>, r: Reached)
    requires Acyclic(r.table)
  {
    Within(r.table, tenant, r.at) && PathTo(r.table, r.at) == base + names && (names != [] ==> r.at.Some?)
  }

  /** What a walk from `at` down the names leaves: no row changes, too. */
  ghost predicate Walked(t: Table, tenant: TenantId, at: Option<Id>, names: seq<string>, r: Reached)
    requires Forest(t) && Within(t, tenant, at)
  {
    && Forest(r.table) && Extends(r.table, t, tenant)
    && Arrived(tenant, PathTo(t, at), names, r)
    && WayBuilt(r.table, t, tenant, Way(PathTo(t, at), names))
  }

  lemma WalkedFurther(t: Table, tenant: TenantId, at: Option<Id>, names: seq<string>, t1: Table, x: Id, r: Reached)
    requires Forest(t) && Within(t, tenant, at) && names != []
    requires Forest(t1) && Extends(t1, t, tenant) && x in t1 && t1[x].tenant == tenant
    requires Path(t1, x) == PathTo(t, at) + [names[0]]
    requires forall y :: y in t1 && y !in t ==> y == x
    ensures Walked(t1, tenant, Some(x), names[1..], r) ==> Walked(t, tenant, at, names, r)
  {
    if Walked(t1, tenant, Some(x), names[1..], r) {
      PathIsStable(t1, r.table, tenant, x);
      ArrivedFurther(tenant, PathTo(t, at), names, r);
      WayFurther(t, t1, tenant, PathTo(t, at), names, x, r.table);
    }
  }

  lemma ArrivedFurther(tenant: TenantId, base: seq<string>, names: seq<string>, r: Reached)
    requires Acyclic(r.table) && names != [] && r.at.Some?
    ensures Arrived(tenant, base + [names[0]], names[1..], r) ==> Arrived(tenant, base, names, r)
  {
    assert names == [names[0]] + names[1..];
  }

  lemma WayFurther(t: Table, t1: Table, tenant: TenantId, base: seq<string>, names: seq<string>, x: Id, t2: Table)
    requires Acyclic(t2) && names != [] && x in t2 && t2[x].tenant == tenant && Path(t2, x) == base + [names[0]]
    requires forall y :: y in t1 && y !in t ==> y == x
    ensures WayBuilt(t2, t1, tenant, Way(base + [names[0]], names[1..])) ==> WayBuilt(t2, t, tenant, Way(base, names))
  {
    WaySplits(base, names);
    assert Path(t2, x) in Paths(t2, tenant);
  }

  lemma FreshRest(newIds: seq<Id>, t: Table, t1: Table)
    requires newIds != [] && Fresh(newIds, t) && t1.Keys <= t.Keys + {newIds[0]}
    ensures Fresh(newIds[1..], t1)
    ensures t1.Keys + Elems(newIds[1..]) <= t.Keys + Elems(newIds)
  {
    forall id | id in newIds[1..]
      ensures id in newIds && id != newIds[0]
    {
    }
  }

  lemma {:induction false} EnsureSegmentsPath(t: Table, tenant: TenantId, at: Option<Id>, segments: seq<string>, newIds: seq<Id>)
    requires Forest(t) && Within(t, tenant, at) && |newIds| == |segments| && Fresh(newIds, t)
    requires AllNormalize(segments)
    ensures var r := EnsureSegments(t, tenant, at, segments, newIds);
            r.Ok? && r.value.table.Keys <= t.Keys + Elems(newIds) && Walked(t, tenant, at, Normalized(segments), r.value)
    decreases |segments|
  {
    var names := Normalized(segments);
    if segments == [] {
      assert PathTo(t, at) + names == PathTo(t, at);
    } else {
      NormalFolderName(segments[0]);
      EnsureChildPath(t, tenant, at, names[0], newIds[0]);
      var placed := EnsureChild(t, tenant, at, names[0], newIds[0]).value;
      FreshRest(newIds, t, placed.table);
      assert Normalized(segments[1..]) == names[1..];
      EnsureSegmentsPath(placed.table, tenant, Some(placed.id), segments[1..], newIds[1..]);
      var r := EnsureSegments(placed.table, tenant, Some(placed.id), segments[1..], newIds[1..]).value;
      WalkedFurther(t, tenant, at, names, placed.table, placed.id, r);
    }
  }

  /** The request fails exactly on an empty segment list or a segment that is no folder name. */
  lemma {:induction false} EnsureSegmentsFails(t: Table, tenant: TenantId, at: Option<Id>, segments: seq<string>, newIds: seq<Id>)
    requires Forest(t) && Within(t, tenant, at) && |newIds| == |segments| && Fresh(newIds, t)
    ensures EnsureSegments(t, tenant, at, segments, newIds).Ok? <==> AllNormalize(segments)
    ensures EnsurePath(t, tenant, at, segments, newIds).Ok? <==> segments != [] && AllNormalize(segments)
    decreases |segments|
  {
    if segments != [] && NormalizeFolderName(segments[0]).Ok? {
      NormalFolderName(segments[0]);
      var name := NormalizeFolderName(segments[0]).value;
      EnsureChildPath(t, tenant, at, name, newIds[0]);
      var placed := EnsureChild(t, tenant, at, name, newIds[0]).value;
      EnsureSegmentsFails(placed.table, tenant, Some(placed.id), segments[1..], newIds[1..]);
      AllNormalizeSplits(segments);
    }
  }

  /** When the whole way exists, asking for it changes nothing and finds its end. */
  lemma {:induction false} EnsureExistingPath(
    t: Table, tenant: TenantId, at: Option<Id>, segments: seq<string>, newIds: seq<Id>, x: Id)
    requires Forest(t) && Within(t, tenant, at) && |newIds| == |segments| && AllNormalize(segments) && segments != []
    requires x in t && t[x].tenant == tenant && Path(t, x) == PathTo(t, at) + Normalized(segments)
    ensures EnsurePath(t, tenant, at, segments, newIds) == Ok(Reached(t, Some(x)))
    decreases |segments|
  {
    var y := NextOnWay(t, tenant, at, segments, x);
    ExistingChild(t, tenant, at, segments[0], newIds[0], y);
    if |segments| > 1 {
      EnsureExistingPath(t, tenant, Some(y), segments[1..], newIds[1..], x);
    }
    ExistingStep(t, tenant, at, segments, newIds, y, x);
  }

  lemma NextOnWay(t: Table, tenant: TenantId, at: Option<Id>, segments: seq<string>, x: Id) returns (y: Id)
    requires Forest(t) && Within(t, tenant, at) && AllNormalize(segments) && segments != []
    requires x in t && t[x].tenant == tenant && Path(t, x) == PathTo(t, at) + Normalized(segments)
    ensures IsChild(t, tenant, at, y) && NormalizeFolderName(segments[0]) == Ok(t[y].name)
    ensures AllNormalize(segments[1..]) && Path(t, x) == Path(t, y) + Normalized(segments[1..])
    ensures |segments| == 1 ==> y == x
  {
    y := AncestorAt(t, tenant, at, Normalized(segments), x);
    NormalizedRest(PathTo(t, at), segments);
    if |segments| == 1 {
      PathIsUnique(t, x, y);
    }
  }

  lemma NormalizedRest(base: seq<string>, segments: seq<string>)
    requires AllNormalize(segments) && segments != []
    ensures AllNormalize(segments[1..])
    ensures base + Normalized(segments) == base + Normalized(segments)[..1] + Normalized(segments[1..])
    ensures |segments| == 1 ==> base + Normalized(segments) == base + Normalized(segments)[..1]
    ensures NormalizeFolderName(segments[0]) == Ok(Normalized(segments)[0])
  {
    assert Normalized(segments[1..]) == Normalized(segments)[1..];
    ConcatSplits(base, Normalized(segments));
  }

  lemma ConcatSplits<T>(a: seq<T>, b: seq<T>)
    requires b != []
    ensures a + b == a + b[..1] + b[1..]
    ensures |b| == 1 ==> a + b == a + b[..1]
  {
    assert b == b[..1] + b[1..];
  }

  lemma ExistingChild(t: Table, tenant: TenantId, at: Option<Id>, raw: string, newId: Id, y: Id)
    requires SiblingsDiffer(t) && IsChild(t, tenant, at, y) && NormalizeFolderName(raw) == Ok(t[y].name)
    ensures Create(t, tenant, at, raw, newId) == Ok(Placed(t, y, false))
  {
    LookupIsUnique(t, tenant, at, y);
  }

  lemma ExistingStep(t: Table, tenant: TenantId, at: Option<Id>, segments: seq<string>, newIds: seq<Id>, y: Id, x: Id)
    requires |segments| == |newIds| && segments != [] && Create(t, tenant, at, segments[0], newIds[0]) == Ok(Placed(t, y, false))
    requires |segments| == 1 ==> x == y
    requires |segments| > 1 ==> EnsurePath(t, tenant, Some(y), segments[1..], newIds[1..]) == Ok(Reached(t, Some(x)))
    ensures EnsurePath(t, tenant, at, segments, newIds) == Ok(Reached(t, Some(x)))
  {
    if |segments| == 1 {
      assert EnsureSegments(t, tenant, Some(y), segments[1..], newIds[1..]) == Ok(Reached(t, Some(x)));
    }
  }

  /** The first folder on the way from `at` down to x. */
  lemma {:induction false} AncestorAt(t: Table, tenant: TenantId, at: Option<Id>, names: seq<string>, x: Id) returns (y: Id)
    requires Forest(t) && Within(t, tenant, at) && names != []
    requires x in t && t[x].tenant == tenant && Path(t, x) == PathTo(t, at) + names
    ensures IsChild(t, tenant, at, y) && t[y].name == names[0] && Path(t, y) == PathTo(t, at) + names[..1]
    decreases |names|
  {
    LocalInForest(t, x);
    var base, above := PathTo(t, at), PathTo(t, t[x].parent);
    assert above == Path(t, x)[..|Path(t, x)| - 1] == base + names[..|names| - 1];
    if |names| == 1 {
      y := x;
      assert above == base;
      if t[x].parent.Some? && at.Some? {
        PathIsUnique(t, t[x].parent.value, at.value);
      }
    } else {
      y := AncestorAt(t, tenant, at, names[..|names| - 1], t[x].parent.value);
      assert names[..|names| - 1][..1] == names[..1];
    }
  }

  /**
   ensure_folder_path on a forest: it returns the one folder at the requested
   path, adds only folders whose path was missing, keeps all other rows and
   paths, and asking again changes nothing.
   */
  lemma EnsurePathTheorem(t: Table, tenant: TenantId, at: Option<Id>, segments: seq<string>, newIds: seq<Id>, againIds: seq<Id>)
    requires Forest(t) && Within(t, tenant, at) && segments != [] && AllNormalize(segments)
    requires |newIds| == |segments| == |againIds| && Fresh(newIds, t)
    ensures EnsurePath(t, tenant, at, segments, newIds).Ok?
    ensures var r := EnsurePath(t, tenant, at, segments, newIds).value;
            && Forest(r.table) && Extends(r.table, t, tenant)
            && r.at.Some? && Within(r.table, tenant, r.at)
            && (forall y :: y in r.table && r.table[y].tenant == tenant ==>
                  (Path(r.table, y) == PathTo(t, at) + Normalized(segments) <==> y == r.at.value))
            && (forall x :: x in t ==> Path(r.table, x) == Path(t, x))
            && (forall y :: y in r.table && y !in t ==>
                  Path(r.table, y) in Way(PathTo(t, at), Normalized(segments)) && Path(r.table, y) !in Paths(t, tenant))
            && Paths(r.table, tenant) == Paths(t, tenant) + Way(PathTo(t, at), Normalized(segments))
            && EnsurePath(r.table, tenant, at, segments, againIds) == Ok(Reached(r.table, r.at))
  {
    EnsureSegmentsPath(t, tenant, at, segments, newIds);
    var r := EnsureSegments(t, tenant, at, segments, newIds).value;
    var names, base := Normalized(segments), PathTo(t, at);
    forall x | x in t
      ensures Path(r.table, x) == Path(t, x)
    {
      PathIsStable(t, r.table, tenant, x);
    }
    forall y | y in r.table && r.table[y].tenant == tenant && Path(r.table, y) == base + names
      ensures y == r.at.value
    {
      PathIsUnique(r.table, y, r.at.value);
    }
    forall y | y in r.table && y !in t
      ensures Path(r.table, y) !in Paths(t, tenant)
    {
      if x :| x in t && t[x].tenant == tenant && Path(t, x) == Path(r.table, y) {
        PathIsUnique(r.table, x, y);
      }
    }
    EnsureExistingPath(r.table, tenant, at, segments, againIds, r.at.value);
    PathsAfter(t, r.table, tenant, base, names);
  }

  lemma PathsAfter(t: Table, t': Table, tenant: TenantId, base: seq<string>, names: seq<string>)
    requires Forest(t) && Forest(t') && Extends(t', t, tenant)
    requires forall x :: x in t ==> Path(t', x) == Path(t, x)
    requires WayBuilt(t', t, tenant, Way(base, names))
    ensures Paths(t', tenant) == Paths(t, tenant) + Way(base, names)
  {
    var way := Way(base, names);
    forall p | p in Paths(t', tenant)
      ensures p in Paths(t, tenant) + way
    {
      var y :| y in t' && t'[y].tenant == tenant && Path(t', y) == p;
    }
    forall p | p in Paths(t, tenant)
      ensures p in Paths(t', tenant)
    {
      var x :| x in t && t[x].tenant == tenant && Path(t, x) == p;
      assert x in t' && Path(t', x) == p;
    }
  }

  // ---------- Moves ----------

  /** The names from a (excluded) down to x. */
  ghost function RelativePath(t: Table, a: Id, x: Id): seq<string>
    requires Acyclic(t) && a in t && x in t && IsUnder(t, t[a].tenant, a, x) && t[x].tenant == t[a].tenant
    decreases RankOf(t).rank[x]
  {
    if x == a then []
    else if LocalParent(t, x).Some? then RelativePath(t, a, LocalParent(t, x).value) + [t[x].name]
    else [t[x].name]
  }

  /** A path splits at any folder above. */
  lemma {:induction false} PathSplits(t: Table, a: Id, x: Id)
    requires Forest(t) && a in t && x in t && t[x].tenant == t[a].tenant && IsUnder(t, t[a].tenant, a, x)
    ensures Path(t, x) == Path(t, a) + RelativePath(t, a, x)
    decreases RankOf(t).rank[x]
  {
    if x == a {
      assert Path(t, a) + [] == Path(t, a);
    } else {
      LocalInForest(t, x);
      PathSplits(t, a, t[x].parent.value);
      assert Path(t, a) + RelativePath(t, a, t[x].parent.value) + [t[x].name]
          == Path(t, a) + (RelativePath(t, a, t[x].parent.value) + [t[x].name]);
    }
  }

  lemma {:induction false} MoveKeepsBelow(t: Table, t': Table, id: Id, x: Id)
    requires Forest(t) && Forest(t') && t'.Keys == t.Keys && id in t && t'[id].tenant == t[id].tenant
    requires forall y :: y in t && y != id ==> t'[y] == t[y]
    requires x in t && t[x].tenant == t[id].tenant
    ensures IsUnder(t, t[id].tenant, id, x) ==>
              IsUnder(t', t[id].tenant, id, x) && RelativePath(t', id, x) == RelativePath(t, id, x)
    ensures !IsUnder(t, t[id].tenant, id, x) ==> Path(t', x) == Path(t, x)
    decreases RankOf(t).rank[x]
  {
    if x != id {
      LocalInForest(t, x);
      LocalInForest(t', x);
      if t[x].parent.Some? {
        MoveKeepsBelow(t, t', id, t[x].parent.value);
      }
    }
  }

  /** Below id every path gets the new path of id as prefix; every other path of the tenant is unchanged. */
  ghost predicate RewritesBelow(t: Table, t': Table, id: Id)
    requires Acyclic(t) && Acyclic(t')
  {
    && t'.Keys == t.Keys && id in t && t'[id].tenant == t[id].tenant
    && forall x :: x in t && t[x].tenant == t[id].tenant ==>
         if IsUnder(t, t[id].tenant, id, x)
         then Path(t, x) == Path(t, id) + RelativePath(t, id, x) && Path(t', x) == Path(t', id) + RelativePath(t, id, x)
         else Path(t', x) == Path(t, x)
  }

  /**
   A move or rename rewrites the path of the folder and of everything below it
   by the same change of prefix, and no other path.
   */
  lemma UpdateRewritesPaths(
    t: Table, t': Table, tenant: TenantId, id: Id, parentField: Option<Option<Id>>, nameField: Option<Option<string>>)
    requires Forest(t) && Update(t, tenant, id, parentField, nameField) == Ok(t')
    ensures Forest(t') && RewritesBelow(t, t', id)
  {
    UpdateKeepsSound(t, tenant, id, parentField, nameField);
    forall x | x in t && t[x].tenant == t[id].tenant
      ensures if IsUnder(t, t[id].tenant, id, x)
              then Path(t, x) == Path(t, id) + RelativePath(t, id, x) && Path(t', x) == Path(t', id) + RelativePath(t, id, x)
              else Path(t', x) == Path(t, x)
    {
      MoveKeepsBelow(t, t', id, x);
      if IsUnder(t, t[id].tenant, id, x) {
        PathSplits(t, id, x);
        PathSplits(t', id, x);
      }
    }
  }

  /** The parent a request leads to: the one it names, or the old one. */
  function RequestedParent(t: Table, id: Id, parentField: Option<Option<Id>>): Option<Id>
    requires id in t
  {
    if parentField.Some? then parentField.value else t[id].parent
  }

  /** The name is the normal form of the one requested, or the old one. */
  predicate IsRequestedName(t: Table, id: Id, nameField: Option<Option<string>>, name: string)
    requires id in t
  {
    match nameField
    case None => name == t[id].name
    case Some(None) => false
    case Some(Some(raw)) => NormalizeFolderName(raw) == Ok(name)
  }

  /** A successful update puts the folder where the request says, under the name it says. */
  lemma UpdatedFolderIsThere(
    t: Table, t': Table, tenant: TenantId, id: Id, parentField: Option<Option<Id>>, nameField: Option<Option<string>>)
    requires Forest(t) && Update(t, tenant, id, parentField, nameField) == Ok(t')
    ensures Forest(t') && id in t && id in t' && t'[id].tenant == tenant
    ensures t'[id].parent == RequestedParent(t, id, parentField) && IsRequestedName(t, id, nameField, t'[id].name)
    ensures Within(t, tenant, t'[id].parent) && Path(t', id) == PathTo(t, t'[id].parent) + [t'[id].name]
  {
    UpdateKeepsSound(t, tenant, id, parentField, nameField);
    ReplacedPath(t, t', tenant, id);
  }

  lemma ReplacedPath(t: Table, t': Table, tenant: TenantId, id: Id)
    requires Forest(t) && Forest(t') && t'.Keys == t.Keys && id in t && t[id].tenant == t'[id].tenant == tenant
    requires forall y :: y in t && y != id ==> t'[y] == t[y]
    ensures Within(t, tenant, t'[id].parent) && Path(t', id) == PathTo(t, t'[id].parent) + [t'[id].name]
  {
    LocalInForest(t', id);
    if t'[id].parent.Some? {
      var p := t'[id].parent.value;
      assert p != id by {
        assert LocalParent(t', id) == Some(p);
      }
      NotBelowItself(t, t', tenant, id, p);
      MoveKeepsBelow(t, t', id, p);
    }
  }

  lemma NotBelowItself(t: Table, t': Table, tenant: TenantId, id: Id, p: Id)
    requires Forest(t) && Forest(t') && t'.Keys == t.Keys && id in t && t[id].tenant == t'[id].tenant == tenant
    requires forall y :: y in t && y != id ==> t'[y] == t[y]
    requires p in t && t[p].tenant == tenant && t'[id].parent == Some(p)
    ensures !IsUnder(t, tenant, id, p)
  {
    if IsUnder(t, tenant, id, p) {
      MoveKeepsBelow(t, t', id, p);
      assert LocalParent(t', id) == Some(p);
      UnderRanks(t', tenant, id, p);
    }
  }

  /**
   A move or rename succeeds exactly when the folder is the tenant's, the new
   parent is the tenant's and not the folder or below it, the name is a folder
   name, and no other folder there has it.
   */
  lemma UpdateSucceedsExactly(
    t: Table, tenant: TenantId, id: Id, parentField: Option<Option<Id>>, nameField: Option<Option<string>>)
    requires Forest(t)
    ensures Update(t, tenant, id, parentField, nameField).Ok? <==>
              && id in t && t[id].tenant == tenant
              && (forall p :: parentField == Some(Some(p)) ==> p in t && t[p].tenant == tenant && !IsUnder(t, tenant, id, p))
              && exists name :: IsRequestedName(t, id, nameField, name)
                   && forall y :: y != id && IsChild(t, tenant, RequestedParent(t, id, parentField), y) ==> t[y].name != name
  {
    if id in t && t[id].tenant == tenant {
      var name := if nameField.Some? && nameField.value.Some? && NormalizeFolderName(nameField.value.value).Ok?
                  then NormalizeFolderName(nameField.value.value).value else t[id].name;
      assert forall n :: IsRequestedName(t, id, nameField, n) ==> n == name;
      OldParentIsAbove(t, tenant, id);
      if parentField.Some? && parentField.value.Some? && parentField.value.value in t {
        assert parentField.value.value in Descendants(t, tenant, id) <==> IsUnder(t, tenant, id, parentField.value.value);
      }
      forall y | y != id && IsChild(t, tenant, t[id].parent, y)
        ensures t[y].name != t[id].name
      {
        assert Apart(t, id, y);
      }
      if Update(t, tenant, id, parentField, nameField).Ok? {
        assert IsRequestedName(t, id, nameField, name);
      }
    }
  }

  lemma OldParentIsAbove(t: Table, tenant: TenantId, id: Id)
    requires Forest(t) && id in t && t[id].tenant == tenant
    ensures t[id].parent.Some? ==> !IsUnder(t, tenant, id, t[id].parent.value)
  {
    LocalInForest(t, id);
    if t[id].parent.Some? && IsUnder(t, tenant, id, t[id].parent.value) {
      UnderRanks(t, tenant, id, t[id].parent.value);
    }
  }
}

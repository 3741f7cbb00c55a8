/**
 The folder part of the account migration (scripts/migrate.py): the source's
 folder tree is flattened to root paths and every path is ensured on the target.
*/
module Migration {
  import opened Common
  import opened Folders
  import opened FolderForest
  import opened FolderPaths
  import opened FolderTree
  import opened FolderService

  datatype Entry = Entry(id: Id, name: string, segments: seq<string>)

  // ---------- flatten_folder_tree ----------

  function Flatten(ns: seq<Node>, prefix: seq<string>): seq<Entry> {
    if ns == [] then []
    else
      var segments := prefix + [ns[0].name];
      [Entry(ns[0].id, ns[0].name, segments)] + Flatten(ns[0].children, segments) + Flatten(ns[1..], prefix)
  }

  method FlattenFolderTree(nodes: seq<Node>, parentSegments: seq<string>) returns (result: seq<Entry>)
    ensures result == Flatten(nodes, parentSegments)
    decreases nodes
  {
    result := [];
    for i := 0 to |nodes|
      invariant Flatten(nodes, parentSegments) == result + Flatten(nodes[i..], parentSegments)
    {
      var node := nodes[i];
      var segments := parentSegments + [node.name];
      FlattenStep(nodes, i, parentSegments, result);
      result := result + [Entry(node.id, node.name, segments)];
      if node.children != [] {
        var below := FlattenFolderTree(node.children, segments);
        result := result + below;
      }
    }
  }

  lemma FlattenStep(nodes: seq<Node>, i: nat, prefix: seq<string>, before: seq<Entry>)
    requires i < |nodes|
    ensures before + Flatten(nodes[i..], prefix) ==
              before + [Entry(nodes[i].id, nodes[i].name, prefix + [nodes[i].name])]
              + Flatten(nodes[i].children, prefix + [nodes[i].name]) + Flatten(nodes[i + 1..], prefix)
  {
    assert nodes[i..][1..] == nodes[i + 1..];
  }

  lemma {:induction false} FlattenKeepsIds(ns: seq<Node>, prefix: seq<string>)
    ensures |Flatten(ns, prefix)| == |TreeIds(ns)|
    ensures forall i :: 0 <= i < |TreeIds(ns)| ==> Flatten(ns, prefix)[i].id == TreeIds(ns)[i]
    decreases ns
  {
    if ns != [] {
      var segments := prefix + [ns[0].name];
      FlattenKeepsIds(ns[0].children, segments);
      FlattenKeepsIds(ns[1..], prefix);
    }
  }

  /** Every entry of a flattened listing carries the root path of its folder. */
  lemma {:induction false} FlattenGivesPaths(
    t: Table, tenant: TenantId, rows: seq<Id>, parent: Option<Id>, ids: seq<Id>, ns: seq<Node>, e: Entry)
    requires Forest(t) && IsListing(t, tenant, rows) && (parent.Some? ==> parent.value in rows)
    requires forall c :: c in ids ==> c in rows && t[c].parent == parent
    requires ListsIds(t, rows, ids, ns) && e in Flatten(ns, PathTo(t, parent))
    ensures e.id in rows && e.name == t[e.id].name && e.segments == Path(t, e.id)
    decreases ns
  {
    var segments := PathTo(t, parent) + [ns[0].name];
    LocalInForest(t, ids[0]);
    assert segments == PathTo(t, Some(ids[0]));
    if e == Entry(ns[0].id, ns[0].name, segments) {
    } else if e in Flatten(ns[0].children, segments) {
      FlattenGivesPaths(t, tenant, rows, Some(ids[0]), ChildrenIn(t, rows, Some(ids[0])), ns[0].children, e);
    } else {
      FlattenGivesPaths(t, tenant, rows, parent, ids[1..], ns[1..], e);
    }
  }

  // ---------- The folder loop of import_data ----------

  datatype Imported = Imported(table: Table, folderMap: map<Id, Id>, failed: bool)

  /** Ensures every entry's path in turn; an error response ends the import. newIds[i] are the ids drawn for entry i. */
  ghost function Import(t: Table, tenant: TenantId, folderMap: map<Id, Id>, entries: seq<Entry>, newIds: seq<seq<Id>>): Imported
    requires |newIds| == |entries| && forall i :: 0 <= i < |entries| ==> |newIds[i]| == |entries[i].segments|
    decreases |entries|
  {
    if entries == [] then Imported(t, folderMap, false)
    else
      match EnsurePath(t, tenant, None, entries[0].segments, newIds[0])
      case Err(_) => Imported(t, folderMap, true)
      case Ok(reached) =>
        if reached.at.None? then Imported(t, folderMap, true)
        else Import(reached.table, tenant, folderMap[entries[0].id := reached.at.value], entries[1..], newIds[1..])
  }

  method ImportFolders(target: FolderTable, tenant: TenantId, entries: seq<Entry>, newIds: seq<seq<Id>>)
    returns (folderMap: map<Id, Id>, failed: bool)
    requires target.Valid()
    requires |newIds| == |entries| && forall i :: 0 <= i < |entries| ==> |newIds[i]| == |entries[i].segments|
    modifies target
    ensures target.Valid()
    ensures Imported(target.rows, folderMap, failed) == Import(old(target.rows), tenant, map[], entries, newIds)
  {
    folderMap := map[];
    failed := false;
    for i := 0 to |entries|
      invariant target.Valid() && !failed
      invariant Import(old(target.rows), tenant, map[], entries, newIds)
             == Import(target.rows, tenant, folderMap, entries[i..], newIds[i..])
    {
      var result := target.EnsureFolderPath(tenant, None, entries[i].segments, newIds[i]);
      assert entries[i..][1..] == entries[i + 1..] && newIds[i..][1..] == newIds[i + 1..];
      if result.Err? {
        failed := true;
        return;
      }
      folderMap := folderMap[entries[i].id := result.value];
    }
  }

  // ---------- What the import does to the target ----------

  /** The drawn ids are all different and none is in use. */
  ghost predicate Supply(newIds: seq<seq<Id>>, used: set<Id>)
    decreases |newIds|
  {
    newIds != [] ==>
      && NoDup(newIds[0]) && (forall id :: id in newIds[0] ==> id !in used)
      && Supply(newIds[1..], used + Elems(newIds[0]))
  }

  lemma {:induction false} SupplyShrinks(newIds: seq<seq<Id>>, used: set<Id>, fewer: set<Id>)
    requires Supply(newIds, used) && fewer <= used
    ensures Supply(newIds, fewer)
    decreases |newIds|
  {
    if newIds != [] {
      SupplyShrinks(newIds[1..], used + Elems(newIds[0]), fewer + Elems(newIds[0]));
    }
  }

  predicate Importable(e: Entry) {
    e.segments != [] && forall i :: 0 <= i < |e.segments| ==> IsNormal(e.segments[i])
  }

  lemma ImportableNormalizes(e: Entry)
    requires Importable(e)
    ensures AllNormalize(e.segments) && Normalized(e.segments) == e.segments
  {
    forall i | 0 <= i < |e.segments|
      ensures NormalizeFolderName(e.segments[i]) == Ok(e.segments[i])
    {
      assert IsNormal(e.segments[i]);
      NormalExactly(e.segments[i]);
    }
  }

  ghost predicate DistinctIds(entries: seq<Entry>) {
    forall i, j :: 0 <= i < j < |entries| ==> entries[i].id != entries[j].id
  }

  ghost function AllPrefixes(entries: seq<Entry>): set<seq<string>> {
    if entries == [] then {} else Way([], entries[0].segments) + AllPrefixes(entries[1..])
  }

  ghost predicate HasEntry(entries: seq<Entry>, id: Id) {
    exists i :: 0 <= i < |entries| && entries[i].id == id
  }

  lemma HasEntryUnfolds(entries: seq<Entry>, id: Id)
    requires entries != []
    ensures HasEntry(entries, id) <==> entries[0].id == id || HasEntry(entries[1..], id)
  {
    if HasEntry(entries, id) && entries[0].id != id {
      var i :| 0 <= i < |entries| && entries[i].id == id;
      assert entries[1..][i - 1].id == id;
    }
    if HasEntry(entries[1..], id) {
      var i :| 0 <= i < |entries[1..]| && entries[1..][i].id == id;
      assert entries[i + 1].id == id;
    }
  }

  /** The entry is mapped to the folder at the entry's path. */
  ghost predicate Mapped(t: Table, tenant: TenantId, folderMap: map<Id, Id>, e: Entry)
    requires Acyclic(t)
  {
    && e.id in folderMap && folderMap[e.id] in t && t[folderMap[e.id]].tenant == tenant
    && Path(t, folderMap[e.id]) == e.segments
  }

  /** What an import started at t with this map leaves. */
  ghost predicate ImportDone(t: Table, tenant: TenantId, folderMap: map<Id, Id>, entries: seq<Entry>, r: Imported)
    requires Forest(t)
  {
    && !r.failed && Forest(r.table) && Extends(r.table, t, tenant)
    && Paths(r.table, tenant) == Paths(t, tenant) + AllPrefixes(entries)
    && (forall k :: k in r.folderMap ==> k in folderMap || HasEntry(entries, k))
    && (forall k :: k in folderMap && !HasEntry(entries, k) ==> k in r.folderMap && r.folderMap[k] == folderMap[k])
    && (forall e :: e in entries ==> Mapped(r.table, tenant, r.folderMap, e))
  }

  lemma EnsureEntry(t: Table, tenant: TenantId, e: Entry, newIds: seq<Id>) returns (t1: Table, x: Id)
    requires Forest(t) && Importable(e) && |newIds| == |e.segments| && Fresh(newIds, t)
    ensures EnsurePath(t, tenant, None, e.segments, newIds) == Ok(Reached(t1, Some(x)))
    ensures Forest(t1) && Extends(t1, t, tenant) && t1.Keys <= t.Keys + Elems(newIds)
    ensures x in t1 && t1[x].tenant == tenant && Path(t1, x) == e.segments
    ensures Paths(t1, tenant) == Paths(t, tenant) + Way([], e.segments)
  {
    ImportableNormalizes(e);
    EnsureSegmentsPath(t, tenant, None, e.segments, newIds);
    EnsurePathTheorem(t, tenant, None, e.segments, newIds, newIds);
    var r := EnsurePath(t, tenant, None, e.segments, newIds).value;
    t1, x := r.table, r.at.value;
    assert PathTo(t, None) + e.segments == e.segments;
  }

  lemma {:induction false} ImportMeetsSpec(t: Table, tenant: TenantId, folderMap: map<Id, Id>, entries: seq<Entry>, newIds: seq<seq<Id>>)
    requires Forest(t) && DistinctIds(entries) && forall e :: e in entries ==> Importable(e)
    requires |newIds| == |entries| && forall i :: 0 <= i < |entries| ==> |newIds[i]| == |entries[i].segments|
    requires Supply(newIds, t.Keys)
    ensures ImportDone(t, tenant, folderMap, entries, Import(t, tenant, folderMap, entries, newIds))
    decreases |entries|
  {
    if entries != [] {
      var e := entries[0];
      var t1, x := EnsureEntry(t, tenant, e, newIds[0]);
      SupplyShrinks(newIds[1..], t.Keys + Elems(newIds[0]), t1.Keys);
      var map1 := folderMap[e.id := x];
      ImportMeetsSpec(t1, tenant, map1, entries[1..], newIds[1..]);
      var r := Import(t1, tenant, map1, entries[1..], newIds[1..]);
      PathIsStable(t1, r.table, tenant, x);
      ImportDoneFirst(t, tenant, folderMap, entries, t1, x, r);
    }
  }

  lemma ImportDoneFirst(t: Table, tenant: TenantId, folderMap: map<Id, Id>, entries: seq<Entry>, t1: Table, x: Id, r: Imported)
    requires Forest(t) && entries != [] && DistinctIds(entries)
    requires Forest(t1) && Extends(t1, t, tenant) && x in t1 && t1[x].tenant == tenant
    requires Paths(t1, tenant) == Paths(t, tenant) + Way([], entries[0].segments)
    requires ImportDone(t1, tenant, folderMap[entries[0].id := x], entries[1..], r)
    requires Path(r.table, x) == entries[0].segments
    ensures ImportDone(t, tenant, folderMap, entries, r)
  {
    forall k
      ensures HasEntry(entries, k) <==> entries[0].id == k || HasEntry(entries[1..], k)
    {
      HasEntryUnfolds(entries, k);
    }
    assert !HasEntry(entries[1..], entries[0].id);
    forall e | e in entries
      ensures Mapped(r.table, tenant, r.folderMap, e)
    {
      assert e == entries[0] || e in entries[1..];
    }
  }

  /** Where every entry's path already exists, an import changes no row and maps each entry to the folder there. */
  lemma {:induction false} ImportAgain(
    t: Table, tenant: TenantId, folderMap: map<Id, Id>, entries: seq<Entry>, newIds: seq<seq<Id>>, known: map<Id, Id>)
    requires Forest(t) && forall e :: e in entries ==> Importable(e)
    requires |newIds| == |entries| && forall i :: 0 <= i < |entries| ==> |newIds[i]| == |entries[i].segments|
    requires forall e :: e in entries ==> Mapped(t, tenant, known, e)
    requires forall k :: k in folderMap ==> k in known && folderMap[k] == known[k]
    requires forall k :: k in known ==> k in folderMap || HasEntry(entries, k)
    ensures Import(t, tenant, folderMap, entries, newIds) == Imported(t, known, false)
    decreases |entries|
  {
    if entries == [] {
      assert folderMap == known;
    } else {
      var e := entries[0];
      ImportableNormalizes(e);
      assert Mapped(t, tenant, known, e);
      assert PathTo(t, None) + e.segments == e.segments;
      EnsureExistingPath(t, tenant, None, e.segments, newIds[0], known[e.id]);
      var map1 := folderMap[e.id := known[e.id]];
      forall k | k in known
        ensures k in map1 || HasEntry(entries[1..], k)
      {
        HasEntryUnfolds(entries, k);
      }
      ImportAgain(t, tenant, map1, entries[1..], newIds[1..], known);
    }
  }

  // ---------- The round trip ----------

  lemma {:induction false} PrefixIsPath(t: Table, tenant: TenantId, x: Id, k: nat)
    requires Forest(t) && x in t && t[x].tenant == tenant && 0 < k <= |Path(t, x)|
    ensures Path(t, x)[..k] in Paths(t, tenant)
    decreases RankOf(t).rank[x]
  {
    LocalInForest(t, x);
    if k == |Path(t, x)| {
      assert Path(t, x)[..k] == Path(t, x);
    } else {
      var p := t[x].parent.value;
      assert Path(t, x)[..k] == Path(t, p)[..k];
      PrefixIsPath(t, tenant, p, k);
    }
  }

  lemma {:induction false} PathIsNormal(t: Table, x: Id, i: nat)
    requires Forest(t) && x in t && i < |Path(t, x)|
    ensures IsNormal(Path(t, x)[i])
    decreases RankOf(t).rank[x]
  {
    LocalInForest(t, x);
    if i == |Path(t, x)| - 1 {
      assert IsNormal(t[x].name);
    } else {
      PathIsNormal(t, t[x].parent.value, i);
    }
  }

  /** Entries that are exactly the tenant's folders, each once, with their root paths. */
  ghost predicate Describes(entries: seq<Entry>, t: Table, tenant: TenantId)
    requires Acyclic(t)
  {
    && DistinctIds(entries)
    && (forall i :: 0 <= i < |entries| ==>
          entries[i].id in t && t[entries[i].id].tenant == tenant && entries[i].segments == Path(t, entries[i].id))
    && (forall x :: x in t && t[x].tenant == tenant ==> exists i :: 0 <= i < |entries| && entries[i].id == x)
  }

  /** Listing the tree and flattening it describes the whole account. */
  lemma FlattenDescribes(t: Table, tenant: TenantId, rows: seq<Id>, ns: seq<Node>)
    requires Forest(t) && IsListing(t, tenant, rows) && Lists(t, rows, None, ns)
    ensures Describes(Flatten(ns, []), t, tenant)
  {
    var entries := Flatten(ns, []);
    ListingIsExact(t, tenant, rows, ns);
    FlattenKeepsIds(ns, []);
    forall i | 0 <= i < |entries|
      ensures entries[i].id in t && t[entries[i].id].tenant == tenant && entries[i].segments == Path(t, entries[i].id)
    {
      FlattenGivesPaths(t, tenant, rows, None, ChildrenIn(t, rows, None), ns, entries[i]);
    }
    forall x | x in t && t[x].tenant == tenant
      ensures exists i :: 0 <= i < |entries| && entries[i].id == x
    {
      ForestIsRooted(t, x);
      var i :| 0 <= i < |TreeIds(ns)| && TreeIds(ns)[i] == x;
      assert entries[i].id == x;
    }
  }

  lemma {:induction false} PrefixesWithin(entries: seq<Entry>, t: Table, tenant: TenantId)
    requires Forest(t)
    requires forall i :: 0 <= i < |entries| ==>
               entries[i].id in t && t[entries[i].id].tenant == tenant && entries[i].segments == Path(t, entries[i].id)
    ensures AllPrefixes(entries) <= Paths(t, tenant)
    ensures forall i :: 0 <= i < |entries| ==> entries[i].segments in AllPrefixes(entries)
    decreases |entries|
  {
    if entries != [] {
      var segments := entries[0].segments;
      forall k | 0 < k <= |segments|
        ensures WayPoint([], segments, k) in Paths(t, tenant)
      {
        PrefixIsPath(t, tenant, entries[0].id, k);
        assert [] + segments[..k] == segments[..k];
      }
      assert WayPoint([], segments, |segments|) == segments;
      PrefixesWithin(entries[1..], t, tenant);
      forall i | 0 <= i < |entries|
        ensures entries[i].segments in AllPrefixes(entries)
      {
        if i > 0 {
          assert entries[1..][i - 1] == entries[i];
        }
      }
    }
  }

  lemma DescribedPrefixes(entries: seq<Entry>, t: Table, tenant: TenantId)
    requires Forest(t) && Describes(entries, t, tenant)
    ensures AllPrefixes(entries) == Paths(t, tenant)
    ensures forall e :: e in entries ==> Importable(e)
  {
    PrefixesWithin(entries, t, tenant);
    forall p | p in Paths(t, tenant)
      ensures p in AllPrefixes(entries)
    {
      var x :| x in t && t[x].tenant == tenant && Path(t, x) == p;
      var i :| 0 <= i < |entries| && entries[i].id == x;
      assert entries[i].segments == p;
    }
    forall e | e in entries
      ensures Importable(e)
    {
      forall i | 0 <= i < |e.segments|
        ensures IsNormal(e.segments[i])
      {
        PathIsNormal(t, e.id, i);
      }
    }
  }

  /**
   folderMap carries each source folder to a different target folder with the
   same name, the same root path and the image of its parent as parent.
   */
  ghost predicate Embeds(s: Table, a: TenantId, g: Table, b: TenantId, folderMap: map<Id, Id>)
    requires Acyclic(s) && Acyclic(g)
  {
    && (forall x :: x in folderMap <==> x in s && s[x].tenant == a)
    && (forall x :: x in folderMap ==>
          && folderMap[x] in g && g[folderMap[x]].tenant == b
          && Path(g, folderMap[x]) == Path(s, x)
          && g[folderMap[x]].name == s[x].name
          && (s[x].parent.None? ==> g[folderMap[x]].parent.None?)
          && (s[x].parent.Some? ==> s[x].parent.value in folderMap && g[folderMap[x]].parent == Some(folderMap[s[x].parent.value])))
    && (forall x, y :: x in folderMap && y in folderMap && folderMap[x] == folderMap[y] ==> x == y)
  }

  lemma MappedEmbeds(s: Table, a: TenantId, g: Table, b: TenantId, folderMap: map<Id, Id>)
    requires Forest(s) && Forest(g)
    requires forall x :: x in folderMap <==> x in s && s[x].tenant == a
    requires forall x :: x in folderMap ==>
               folderMap[x] in g && g[folderMap[x]].tenant == b && Path(g, folderMap[x]) == Path(s, x)
    ensures Embeds(s, a, g, b, folderMap)
  {
    forall x | x in folderMap
      ensures g[folderMap[x]].name == s[x].name
      ensures s[x].parent.None? ==> g[folderMap[x]].parent.None?
      ensures s[x].parent.Some? ==>
                s[x].parent.value in folderMap && g[folderMap[x]].parent == Some(folderMap[s[x].parent.value])
    {
      var y := folderMap[x];
      LocalInForest(s, x);
      LocalInForest(g, y);
      assert PathTo(s, s[x].parent) == Path(s, x)[..|Path(s, x)| - 1];
      assert PathTo(g, g[y].parent) == Path(g, y)[..|Path(g, y)| - 1];
      if s[x].parent.Some? {
        PathIsUnique(g, g[y].parent.value, folderMap[s[x].parent.value]);
      }
    }
    forall x, y | x in folderMap && y in folderMap && folderMap[x] == folderMap[y]
      ensures x == y
    {
      PathIsUnique(s, x, y);
    }
  }

  lemma ImportEmbeds(s: Table, a: TenantId, entries: seq<Entry>, g: Table, b: TenantId, r: Imported)
    requires Forest(s) && Describes(entries, s, a) && Forest(g) && ImportDone(g, b, map[], entries, r)
    ensures Embeds(s, a, r.table, b, r.folderMap)
  {
    forall x
      ensures x in r.folderMap <==> x in s && s[x].tenant == a
      ensures x in r.folderMap ==>
                r.folderMap[x] in r.table && r.table[r.folderMap[x]].tenant == b && Path(r.table, r.folderMap[x]) == Path(s, x)
    {
      if x in r.folderMap || (x in s && s[x].tenant == a) {
        assert HasEntry(entries, x);
        var i :| 0 <= i < |entries| && entries[i].id == x;
        assert Mapped(r.table, b, r.folderMap, entries[i]);
      }
    }
    MappedEmbeds(s, a, r.table, b, r.folderMap);
  }

  /** Every folder of the target account is the image of a source folder. */
  ghost predicate Onto(g: Table, b: TenantId, folderMap: map<Id, Id>) {
    forall y :: y in g && g[y].tenant == b ==> exists x :: x in folderMap && folderMap[x] == y
  }

  lemma EmbeddingIsOnto(s: Table, a: TenantId, g: Table, b: TenantId, folderMap: map<Id, Id>)
    requires Forest(s) && Forest(g) && Embeds(s, a, g, b, folderMap) && Paths(g, b) == Paths(s, a)
    ensures Onto(g, b, folderMap)
  {
    forall y | y in g && g[y].tenant == b
      ensures exists x :: x in folderMap && folderMap[x] == y
    {
      assert Path(g, y) in Paths(s, a);
      var x :| x in s && s[x].tenant == a && Path(s, x) == Path(g, y);
      PathIsUnique(g, folderMap[x], y);
    }
  }

  /** What an import of all of s/a leaves of g/b. */
  ghost predicate Migrated(s: Table, a: TenantId, g: Table, b: TenantId, r: Imported)
    requires Forest(s) && Forest(g)
  {
    && !r.failed && Forest(r.table)
    && Paths(r.table, b) == Paths(g, b) + Paths(s, a)
    && Extends(r.table, g, b) && (forall x :: x in g ==> Path(r.table, x) == Path(g, x))
    && Embeds(s, a, r.table, b, r.folderMap)
    && ((forall x :: x in g ==> g[x].tenant != b) ==> Onto(r.table, b, r.folderMap))
  }

  lemma DoneIsMigrated(s: Table, a: TenantId, entries: seq<Entry>, g: Table, b: TenantId, r: Imported)
    requires Forest(s) && Forest(g) && Describes(entries, s, a) && ImportDone(g, b, map[], entries, r)
    ensures Migrated(s, a, g, b, r)
  {
    DescribedPrefixes(entries, s, a);
    forall x | x in g
      ensures Path(r.table, x) == Path(g, x)
    {
      PathIsStable(g, r.table, b, x);
    }
    ImportEmbeds(s, a, entries, g, b, r);
    if forall x :: x in g ==> g[x].tenant != b {
      assert Paths(g, b) == {};
      EmbeddingIsOnto(s, a, r.table, b, r.folderMap);
    }
  }

  /**
   Migrating all folders of an account s/a into an account g/b: the import
   succeeds; the target's set of paths becomes the union of both; existing
   folders keep id, row and path; the folder map is an embedding of the source
   tree, onto when the target account was empty; and a second import, whatever
   ids it may draw, changes nothing and gives the same map.
   */
  lemma MigrationTheorem(
    s: Table, a: TenantId, rows: seq<Id>, ns: seq<Node>, entries: seq<Entry>,
    g: Table, b: TenantId, newIds: seq<seq<Id>>, againIds: seq<seq<Id>>)
    requires Forest(s) && IsListing(s, a, rows) && Lists(s, rows, None, ns) && entries == Flatten(ns, [])
    requires Forest(g) && Supply(newIds, g.Keys)
    requires |newIds| == |entries| == |againIds|
    requires forall i :: 0 <= i < |entries| ==> |newIds[i]| == |entries[i].segments| == |againIds[i]|
    ensures Migrated(s, a, g, b, Import(g, b, map[], entries, newIds))
    ensures Import(Import(g, b, map[], entries, newIds).table, b, map[], entries, againIds)
              == Import(g, b, map[], entries, newIds)
  {
    FlattenDescribes(s, a, rows, ns);
    DescribedPrefixes(entries, s, a);
    ImportMeetsSpec(g, b, map[], entries, newIds);
    var r := Import(g, b, map[], entries, newIds);
    DoneIsMigrated(s, a, entries, g, b, r);
    ImportAgain(r.table, b, map[], entries, againIds, r.folderMap);
  }
}

/**
 FolderService of backend/src/services/folders.rs over a mutable table. Every
 method is tied to the table function of module Folders that it computes; the
 two loops that read the table, the descendant walk and the tree listing, are
 proved against what they must return.
*/
module FolderService {
  import opened Common
  import opened Folders
  import opened FolderForest
  import opened FolderTree

  class FolderTable {
    var rows: Table

    ghost predicate Valid()
      reads this
    {
      Sound(rows)
    }

    constructor ()
      ensures Valid() && rows == map[]
    {
      EmptyTableIsForest();
      rows := map[];
    }

    method SelectByName(tenant: TenantId, parent: Option<Id>, name: string) returns (r: Option<Id>)
      requires Valid()
      ensures r == Lookup(rows, tenant, parent, name)
    {
      if x :| x in rows && IsChild(rows, tenant, parent, x) && rows[x].name == name {
        LookupIsUnique(rows, tenant, parent, x);
        return Some(x);
      }
      return None;
    }

    /** A query without ORDER BY: the children come in any order. */
    method SelectChildren(tenant: TenantId, parent: Id) returns (ids: seq<Id>)
      ensures NoDup(ids) && forall x :: x in ids <==> IsChild(rows, tenant, Some(parent), x)
    {
      var rest := set x | x in rows && IsChild(rows, tenant, Some(parent), x);
      ids := [];
      while rest != {}
        invariant NoDup(ids) && forall x :: x in ids ==> x !in rest
        invariant forall x :: IsChild(rows, tenant, Some(parent), x) <==> x in rest || x in ids
        decreases rest
      {
        var x :| x in rest;
        rest := rest - {x};
        ids := ids + [x];
      }
    }

    method EnsureChildRow(tenant: TenantId, parent: Option<Id>, name: string, newId: Id) returns (r: Result<(Id, bool), Error>)
      requires Valid() && IsNormal(name)
      modifies this
      ensures Valid()
      ensures match EnsureChild(old(rows), tenant, parent, name, newId)
              case Ok(placed) => rows == placed.table && r == Ok((placed.id, placed.created))
              case Err(e) => rows == old(rows) && r == Err(e)
    {
      var existing := SelectByName(tenant, parent, name);
      if existing.Some? {
        return Ok((existing.value, false));
      }
      if newId !in rows {
        if parent.Some? && parent.value !in rows {
          return Err(Database);
        }
        InsertedRowKeepsSound(rows, newId, Folder(name, parent, tenant));
        rows := rows[newId := Folder(name, parent, tenant)];
        return Ok((newId, true));
      }
      existing := SelectByName(tenant, parent, name);
      r := match existing case Some(x) => Ok((x, false)) case None => Err(NotFound);
    }

    method CreateFolder(tenant: TenantId, parent: Option<Id>, raw: string, newId: Id) returns (r: Result<(Id, bool), Error>)
      requires Valid()
      modifies this
      ensures Valid()
      ensures match Create(old(rows), tenant, parent, raw, newId)
              case Ok(placed) => rows == placed.table && r == Ok((placed.id, placed.created))
              case Err(e) => rows == old(rows) && r == Err(e)
    {
      var name := NormalizeFolderName(raw);
      if name.Err? {
        return Err(BadRequest);
      }
      NormalFolderName(raw);
      r := EnsureChildRow(tenant, parent, name.value, newId);
    }

    method EnsureFolderPath(tenant: TenantId, parent: Option<Id>, segments: seq<string>, newIds: seq<Id>)
      returns (r: Result<Id, Error>)
      requires Valid() && |segments| == |newIds|
      modifies this
      ensures Valid()
      ensures match EnsurePath(old(rows), tenant, parent, segments, newIds)
              case Ok(reached) => rows == reached.table && reached.at.Some? && r == Ok(reached.at.value)
              case Err(e) => rows == old(rows) && r == Err(e)
    {
      if segments == [] {
        return Err(BadRequest);
      }
      var before := rows;
      var current := parent;
      var i := 0;
      while i < |segments|
        invariant 0 <= i <= |segments| && Valid()
        invariant i > 0 ==> current.Some?
        invariant EnsureSegments(before, tenant, parent, segments, newIds)
               == EnsureSegments(rows, tenant, current, segments[i..], newIds[i..])
      {
        var placed := CreateFolder(tenant, current, segments[i], newIds[i]);
        assert segments[i..][1..] == segments[i + 1..] && newIds[i..][1..] == newIds[i + 1..];
        if placed.Err? {
          rows := before;
          return Err(placed.error);
        }
        current := Some(placed.value.0);
        i := i + 1;
      }
      return Ok(current.value);
    }

    /**
     The walk keeps no set of visited folders. It ends, and finds the folder and
     everything below it once each, because the tenant's parent relation has no cycle.
     */
    method GatherDescendants(tenant: TenantId, start: Id) returns (ids: seq<Id>)
      requires Valid()
      ensures NoDup(ids) && Elems(ids) == Descendants(rows, tenant, start)
    {
      ids := [start];
      var queue := [start];
      while queue != []
        invariant Walking(tenant, start, ids, queue)
        decreases (rows.Keys + {start}) - Elems(ids), |queue|
      {
        var current := queue[|queue| - 1];
        ghost var before := ids;
        var children := SelectChildren(tenant, current);
        WalkStep(tenant, start, ids, queue, children);
        queue := queue[..|queue| - 1] + children;
        ids := ids + children;
        if children != [] {
          assert children[0] in Elems(ids) - Elems(before);
        }
      }
      forall x | IsUnder(rows, tenant, start, x)
        ensures x in ids
      {
        ClosedUnderChildren(tenant, start, x, Elems(ids));
      }
    }

    /** In the middle of the walk: found once, waiting once, and closed below what no longer waits. */
    ghost predicate Walking(tenant: TenantId, start: Id, ids: seq<Id>, queue: seq<Id>)
      requires Valid()
      reads this
    {
      && NoDup(ids) && NoDup(queue) && start in ids
      && (forall x :: x in queue ==> x in ids)
      && (forall x :: x in ids ==> IsUnder(rows, tenant, start, x))
      && (forall x :: x in ids && x != start ==>
            x in rows && rows[x].tenant == tenant && rows[x].parent.Some?
            && rows[x].parent.value in ids && rows[x].parent.value !in queue)
      && (forall x, y :: y in ids && y !in queue && IsChild(rows, tenant, Some(y), x) ==> x in ids)
    }

    lemma WalkStep(tenant: TenantId, start: Id, ids: seq<Id>, queue: seq<Id>, children: seq<Id>)
      requires Valid() && queue != [] && Walking(tenant, start, ids, queue)
      requires NoDup(children)
      requires forall x :: x in children <==> IsChild(rows, tenant, Some(queue[|queue| - 1]), x)
      ensures Walking(tenant, start, ids + children, queue[..|queue| - 1] + children)
      ensures forall c :: c in children ==> c !in ids && c in rows
    {
      var current, rest := queue[|queue| - 1], queue[..|queue| - 1];
      forall c | c in children
        ensures c !in ids && IsUnder(rows, tenant, start, c)
      {
        ChildIsNew(tenant, start, current, c);
      }
      LastAndRest(queue);
      NoDupConcat(rest, children);
      NoDupConcat(ids, children);
    }

    lemma LastAndRest(queue: seq<Id>)
      requires queue != [] && NoDup(queue)
      ensures NoDup(queue[..|queue| - 1]) && queue[|queue| - 1] !in queue[..|queue| - 1]
      ensures forall x :: x in queue <==> x == queue[|queue| - 1] || x in queue[..|queue| - 1]
    {
    }

    lemma ChildIsNew(tenant: TenantId, start: Id, current: Id, c: Id)
      requires Valid() && IsUnder(rows, tenant, start, current) && IsChild(rows, tenant, Some(current), c)
      ensures c != start && IsUnder(rows, tenant, start, c)
    {
      assert IsUnder(rows, tenant, start, c);
      if c == start {
        assert LocalParent(rows, start).Some? ==> LocalParent(rows, start) == Some(current);
        UnderRanks(rows, tenant, start, current);
      }
    }

    lemma {:induction false} ClosedUnderChildren(tenant: TenantId, start: Id, x: Id, found: set<Id>)
      requires Valid() && IsUnder(rows, tenant, start, x) && start in found
      requires forall x, y :: y in found && IsChild(rows, tenant, Some(y), x) ==> x in found
      ensures x in found
      decreases if x in rows && rows[x].tenant == tenant then RankOf(rows).rank[x] + 1 else 0
    {
      if x != start {
        assert LocalParent(rows, x).Some? ==> LocalParent(rows, x) == rows[x].parent;
        ClosedUnderChildren(tenant, start, rows[x].parent.value, found);
        assert IsChild(rows, tenant, Some(rows[x].parent.value), x);
      }
    }

    method UpdateFolder(tenant: TenantId, id: Id, parentField: Option<Option<Id>>, nameField: Option<Option<string>>)
      returns (r: Result<(), Error>)
      requires Valid()
      modifies this
      ensures Valid()
      ensures match Update(old(rows), tenant, id, parentField, nameField)
              case Ok(t) => rows == t && r.Ok?
              case Err(e) => rows == old(rows) && r == Err(e)
    {
      if id !in rows || rows[id].tenant != tenant {
        return Err(NotFound);
      }
      var folder := rows[id];
      var nextParent, parentChanged := folder.parent, false;
      match parentField {
        case None =>
        case Some(None) =>
          parentChanged := folder.parent.Some?;
          nextParent := None;
        case Some(Some(parent)) =>
          if parent == id {
            return Err(BadRequest);
          }
          if parent !in rows || rows[parent].tenant != tenant {
            return Err(NotFound);
          }
          if folder.parent != Some(parent) {
            var descendants := GatherDescendants(tenant, id);
            assert parent in descendants <==> parent in Elems(descendants);
            if parent in descendants {
              return Err(BadRequest);
            }
            parentChanged := true;
          }
          nextParent := Some(parent);
      }
      var newName, nameChanged := folder.name, false;
      match nameField {
        case None =>
        case Some(None) =>
          return Err(BadRequest);
        case Some(Some(raw)) =>
          var normalized := NormalizeFolderName(raw);
          if normalized.Err? {
            return Err(BadRequest);
          }
          if normalized.value != folder.name {
            newName, nameChanged := normalized.value, true;
          }
      }
      if !parentChanged && !nameChanged {
        return Ok(());
      }
      if y :| y in rows && y != id && IsChild(rows, tenant, nextParent, y) && rows[y].name == newName {
        return Err(BadRequest);
      }
      UpdateKeepsSound(rows, tenant, id, parentField, nameField);
      rows := rows[id := Folder(newName, nextParent, tenant)];
      return Ok(());
    }

    method DeleteFolder(tenant: TenantId, id: Id, holdsDocuments: bool) returns (r: Result<(), Error>)
      requires Valid()
      modifies this
      ensures Valid()
      ensures match Delete(old(rows), tenant, id, holdsDocuments)
              case Ok(t) => rows == t && r.Ok?
              case Err(e) => rows == old(rows) && r == Err(e)
    {
      if id !in rows || rows[id].tenant != tenant {
        return Err(NotFound);
      }
      if exists x :: x in rows && IsChild(rows, tenant, Some(id), x) {
        return Err(BadRequest);
      }
      if holdsDocuments {
        return Err(BadRequest);
      }
      var after := Detach(rows, id);
      if exists x, y :: x in after && y in after && !Apart(after, x, y) {
        return Err(Database);
      }
      DeleteKeepsSound(rows, tenant, id, holdsDocuments);
      rows := after;
      return Ok(());
    }

    /** The tables of nodes and of children, and the roots, from the listed rows. */
    method GroupByParent(tenant: TenantId, listing: seq<Id>)
      returns (nodes: map<Id, Node>, childMap: map<Id, seq<Id>>, roots: seq<Id>)
      requires Valid() && IsListing(rows, tenant, listing)
      ensures MapsOf(rows, listing, nodes, childMap)
      ensures roots == ChildrenIn(rows, listing, None)
    {
      nodes, childMap, roots := map[], map[], [];
      var table := rows;
      for i := 0 to |listing|
        invariant MapsOf(table, listing[..i], nodes, childMap)
        invariant roots == ChildrenIn(table, listing[..i], None)
      {
        var id := listing[i];
        var parent := table[id].parent;
        MapsOfNext(table, listing, i, nodes, childMap);
        if parent.Some? {
          childMap := WithChild(childMap, parent, id);
        } else {
          roots := roots + [id];
        }
        nodes := nodes[id := Node(id, table[id].name, parent, [])];
      }
      assert listing[..|listing|] == listing;
    }

    /** `listing` is the answer of the ordered query for the tenant's folders. */
    method ListFolderTree(tenant: TenantId, listing: seq<Id>) returns (tree: seq<Node>)
      requires Valid() && IsListing(rows, tenant, listing)
      ensures Lists(rows, listing, None, tree)
      ensures NoDup(TreeIds(tree))
      ensures forall x :: x in TreeIds(tree) <==> x in rows && rows[x].tenant == tenant && Rooted(rows, x)
    {
      var nodes, childMap, roots := GroupByParent(tenant, listing);
      RowsDescend(rows, tenant, listing, nodes, childMap);
      ghost var r := RankOf(rows);
      tree := BuildNodes(nodes, childMap, roots, r, r.bound + 1);
      BuildNodesLists(rows, listing, nodes, childMap, roots, r, r.bound + 1);
      ListingIsExact(rows, tenant, listing, tree);
    }
  }
}

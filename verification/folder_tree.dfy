/**
 The nested listing of a tenant's folders (list_folder_tree and build_node of
 backend/src/services/folders.rs): what the builder makes of the two maps, and
 that on a sound table it lists every rooted folder exactly once.

 The listing reads the rows once, groups them by parent and then builds the
 nodes from the roots down. A folder below another tenant's folder is a child of
 no row that was read and hangs below no root, so it and everything below it are
 left out; `EverythingListedExactly` says that this is the only reason. Within
 the tenant no parents run in a circle, which is why building the nodes ends.
*/
module FolderTree {
  import opened Common
  import opened Folders

  datatype Node = Node(id: Id, name: string, parent: Option<Id>, children: seq<Node>)

  /** `rows` is the query result: the tenant's ids, each once, in the order of the query. */
  ghost predicate IsListing(t: Table, tenant: TenantId, rows: seq<Id>) {
    NoDup(rows) && forall x :: x in rows <==> x in t && t[x].tenant == tenant
  }

  /** The rows with this parent, in row order. */
  function ChildrenIn(t: Table, rows: seq<Id>, parent: Option<Id>): (r: seq<Id>)
    requires forall x :: x in rows ==> x in t
    ensures forall x :: x in r <==> x in rows && t[x].parent == parent
  {
    if rows == [] then []
    else if t[rows[0]].parent == parent then [rows[0]] + ChildrenIn(t, rows[1..], parent)
    else ChildrenIn(t, rows[1..], parent)
  }

  lemma {:induction false} ChildrenInNoDup(t: Table, rows: seq<Id>, parent: Option<Id>)
    requires NoDup(rows) && forall x :: x in rows ==> x in t
    ensures NoDup(ChildrenIn(t, rows, parent))
  {
    if rows != [] {
      ChildrenInNoDup(t, rows[1..], parent);
    }
  }

  lemma {:induction false} ChildrenInSnoc(t: Table, rows: seq<Id>, x: Id, parent: Option<Id>)
    requires x in t && forall y :: y in rows ==> y in t
    ensures ChildrenIn(t, rows + [x], parent) ==
              ChildrenIn(t, rows, parent) + if t[x].parent == parent then [x] else []
  {
    if rows == [] {
      assert rows + [x] == [x];
    } else {
      assert (rows + [x])[1..] == rows[1..] + [x];
      ChildrenInSnoc(t, rows[1..], x, parent);
    }
  }

  // ---------- build_node ----------

  /** Every listed child is known and ranks above its parent. */
  ghost predicate Descends(nodes: map<Id, Node>, childMap: map<Id, seq<Id>>, r: Ranking) {
    && nodes.Keys <= r.rank.Keys
    && (forall x :: x in nodes ==> r.rank[x] <= r.bound)
    && forall p, c :: p in nodes && p in childMap && c in childMap[p] ==> c in nodes && r.rank[p] < r.rank[c]
  }

  /** build_node: its lookup of the id never fails, because every child id is a known node. */
  function BuildNode(nodes: map<Id, Node>, childMap: map<Id, seq<Id>>, id: Id, ghost r: Ranking): Node
    requires Descends(nodes, childMap, r) && id in nodes
    decreases r.bound - r.rank[id], 1, 0
  {
    if id in childMap then
      nodes[id].(children := BuildNodes(nodes, childMap, childMap[id], r, r.bound - r.rank[id]))
    else nodes[id]
  }

  function BuildNodes(nodes: map<Id, Node>, childMap: map<Id, seq<Id>>, ids: seq<Id>, ghost r: Ranking, ghost level: nat): seq<Node>
    requires Descends(nodes, childMap, r)
    requires forall c :: c in ids ==> c in nodes && r.bound - r.rank[c] < level
    decreases level, 0, |ids|
  {
    if ids == [] then []
    else [BuildNode(nodes, childMap, ids[0], r)] + BuildNodes(nodes, childMap, ids[1..], r, level)
  }

  // ---------- What a correct listing is ----------

  /** ns lists, in row order and recursively, exactly the rows whose parent is `parent`. */
  ghost predicate Lists(t: Table, rows: seq<Id>, parent: Option<Id>, ns: seq<Node>)
    requires forall x :: x in rows ==> x in t
    decreases ns, 1
  {
    ListsIds(t, rows, ChildrenIn(t, rows, parent), ns)
  }

  ghost predicate ListsIds(t: Table, rows: seq<Id>, ids: seq<Id>, ns: seq<Node>)
    requires forall x :: x in rows ==> x in t
    requires forall x :: x in ids ==> x in t
    decreases ns, 0
  {
    if ids == [] then ns == []
    else
      && ns != [] && ns[0].id == ids[0] && ns[0].name == t[ids[0]].name && ns[0].parent == t[ids[0]].parent
      && Lists(t, rows, Some(ids[0]), ns[0].children)
      && ListsIds(t, rows, ids[1..], ns[1..])
  }

  function ChildList(childMap: map<Id, seq<Id>>, p: Id): seq<Id> {
    if p in childMap then childMap[p] else []
  }

  /** The two maps hold what the loop over the rows puts in them. */
  ghost predicate MapsOf(t: Table, rows: seq<Id>, nodes: map<Id, Node>, childMap: map<Id, seq<Id>>)
    requires forall x :: x in rows ==> x in t
  {
    && nodes.Keys == Elems(rows)
    && (forall x :: x in nodes ==> nodes[x] == Node(x, t[x].name, t[x].parent, []))
    && forall p {:trigger ChildList(childMap, p)} :: ChildList(childMap, p) == ChildrenIn(t, rows, Some(p))
  }

  function WithChild(childMap: map<Id, seq<Id>>, parent: Option<Id>, id: Id): (r: map<Id, seq<Id>>)
    ensures forall p: Id {:trigger ChildList(r, p)} ::
              ChildList(r, p) == ChildList(childMap, p) + if parent == Some(p) then [id] else []
  {
    match parent
    case None => childMap
    case Some(p) => childMap[p := ChildList(childMap, p) + [id]]
  }

  /** One more row: the node is entered, and the id joins its parent's list or the roots. */
  lemma MapsOfSnoc(t: Table, rows: seq<Id>, id: Id, nodes: map<Id, Node>, childMap: map<Id, seq<Id>>)
    requires id in t && forall x :: x in rows ==> x in t
    requires MapsOf(t, rows, nodes, childMap)
    ensures MapsOf(t, rows + [id], nodes[id := Node(id, t[id].name, t[id].parent, [])], WithChild(childMap, t[id].parent, id))
    ensures ChildrenIn(t, rows + [id], None) == ChildrenIn(t, rows, None) + if t[id].parent.None? then [id] else []
  {
    var childMap' := WithChild(childMap, t[id].parent, id);
    ChildrenInSnoc(t, rows, id, None);
    forall p {:trigger ChildList(childMap', p)}
      ensures ChildList(childMap', p) == ChildrenIn(t, rows + [id], Some(p))
    {
      ChildrenInSnoc(t, rows, id, Some(p));
      assert ChildList(childMap, p) == ChildrenIn(t, rows, Some(p));
    }
  }

  lemma MapsOfNext(t: Table, rows: seq<Id>, i: nat, nodes: map<Id, Node>, childMap: map<Id, seq<Id>>)
    requires i < |rows| && forall x :: x in rows ==> x in t
    requires MapsOf(t, rows[..i], nodes, childMap)
    ensures var id := rows[i];
            && MapsOf(t, rows[..i + 1], nodes[id := Node(id, t[id].name, t[id].parent, [])], WithChild(childMap, t[id].parent, id))
            && ChildrenIn(t, rows[..i + 1], None) == ChildrenIn(t, rows[..i], None) + if t[id].parent.None? then [id] else []
  {
    assert rows[..i + 1] == rows[..i] + [rows[i]];
    MapsOfSnoc(t, rows[..i], rows[i], nodes, childMap);
  }

  lemma RowsDescend(t: Table, tenant: TenantId, rows: seq<Id>, nodes: map<Id, Node>, childMap: map<Id, seq<Id>>)
    requires Acyclic(t) && IsListing(t, tenant, rows) && MapsOf(t, rows, nodes, childMap)
    ensures Descends(nodes, childMap, RankOf(t))
  {
    forall p, c | p in nodes && p in childMap && c in childMap[p]
      ensures c in nodes && RankOf(t).rank[p] < RankOf(t).rank[c]
    {
      assert c in ChildList(childMap, p);
      assert LocalParent(t, c) == Some(p);
    }
  }

  lemma {:induction false} BuildNodeLists(
    t: Table, rows: seq<Id>, nodes: map<Id, Node>, childMap: map<Id, seq<Id>>, id: Id, r: Ranking)
    requires forall x :: x in rows ==> x in t
    requires MapsOf(t, rows, nodes, childMap) && Descends(nodes, childMap, r) && id in rows
    ensures var n := BuildNode(nodes, childMap, id, r);
            n.id == id && n.name == t[id].name && n.parent == t[id].parent && Lists(t, rows, Some(id), n.children)
    decreases r.bound - r.rank[id], 1, 0
  {
    var children := ChildrenIn(t, rows, Some(id));
    assert ChildList(childMap, id) == children;
    if id in childMap {
      BuildNodesLists(t, rows, nodes, childMap, children, r, r.bound - r.rank[id]);
    }
  }

  lemma {:induction false} BuildNodesLists(
    t: Table, rows: seq<Id>, nodes: map<Id, Node>, childMap: map<Id, seq<Id>>, ids: seq<Id>, r: Ranking, level: nat)
    requires forall x :: x in rows ==> x in t
    requires MapsOf(t, rows, nodes, childMap) && Descends(nodes, childMap, r)
    requires forall c :: c in ids ==> c in rows && r.bound - r.rank[c] < level
    ensures ListsIds(t, rows, ids, BuildNodes(nodes, childMap, ids, r, level))
    decreases level, 0, |ids|
  {
    if ids != [] {
      BuildNodeLists(t, rows, nodes, childMap, ids[0], r);
      BuildNodesLists(t, rows, nodes, childMap, ids[1..], r, level);
    }
  }

  // ---------- Exactly once ----------

  function TreeIds(ns: seq<Node>): seq<Id> {
    if ns == [] then [] else [ns[0].id] + TreeIds(ns[0].children) + TreeIds(ns[1..])
  }

  /** The chain of x's parents stays within the tenant up to a root. */
  ghost predicate Rooted(t: Table, x: Id)
    requires Acyclic(t) && x in t
    decreases RankOf(t).rank[x]
  {
    t[x].parent.None? || (LocalParent(t, x).Some? && Rooted(t, LocalParent(t, x).value))
  }

  lemma {:induction false} ListedAreUnder(t: Table, tenant: TenantId, rows: seq<Id>, ids: seq<Id>, ns: seq<Node>, x: Id)
    requires Acyclic(t) && IsListing(t, tenant, rows) && (forall c :: c in ids ==> c in rows)
    requires ListsIds(t, rows, ids, ns) && x in TreeIds(ns)
    ensures x in rows && exists c :: c in ids && IsUnder(t, tenant, c, x)
    decreases ns
  {
    var id := ids[0];
    if x == id {
      assert IsUnder(t, tenant, id, x);
    } else if x in TreeIds(ns[0].children) {
      var children := ChildrenIn(t, rows, Some(id));
      ListedAreUnder(t, tenant, rows, children, ns[0].children, x);
      var c :| c in children && IsUnder(t, tenant, c, x);
      assert IsUnder(t, tenant, id, c);
      UnderTransitive(t, tenant, id, c, x);
    } else {
      ListedAreUnder(t, tenant, rows, ids[1..], ns[1..], x);
    }
  }

  lemma {:induction false} ListedOnce(t: Table, tenant: TenantId, rows: seq<Id>, parent: Option<Id>, ids: seq<Id>, ns: seq<Node>)
    requires Acyclic(t) && IsListing(t, tenant, rows)
    requires parent.Some? ==> parent.value in rows
    requires NoDup(ids) && forall c :: c in ids ==> c in rows && IsChild(t, tenant, parent, c)
    requires ListsIds(t, rows, ids, ns)
    ensures NoDup(TreeIds(ns))
    decreases ns
  {
    if ids != [] {
      var id := ids[0];
      var children := ChildrenIn(t, rows, Some(id));
      var below, beside := TreeIds(ns[0].children), TreeIds(ns[1..]);
      ChildrenInNoDup(t, rows, Some(id));
      ListedOnce(t, tenant, rows, Some(id), children, ns[0].children);
      ListedOnce(t, tenant, rows, parent, ids[1..], ns[1..]);
      forall x | x in below
        ensures x != id && IsUnder(t, tenant, id, x)
      {
        ListedAreUnder(t, tenant, rows, children, ns[0].children, x);
        var c :| c in children && IsUnder(t, tenant, c, x);
        assert LocalParent(t, c) == Some(id);
        assert IsUnder(t, tenant, id, c);
        UnderRanks(t, tenant, c, x);
        UnderTransitive(t, tenant, id, c, x);
      }
      forall x | x in beside
        ensures x != id && x !in below
      {
        ListedAreUnder(t, tenant, rows, ids[1..], ns[1..], x);
        var c :| c in ids[1..] && IsUnder(t, tenant, c, x);
        assert c != id;
        if x == id || x in below {
          SiblingSubtreesDisjoint(t, tenant, parent, id, c, x);
        }
      }
      NoDupConcat([id], below);
      NoDupConcat([id] + below, beside);
    }
  }

  lemma {:induction false} ChildIsListed(t: Table, rows: seq<Id>, ids: seq<Id>, ns: seq<Node>, p: Id, x: Id)
    requires forall y :: y in rows ==> y in t
    requires forall c :: c in ids ==> c in rows
    requires ListsIds(t, rows, ids, ns) && p in TreeIds(ns) && x in rows && t[x].parent == Some(p)
    ensures x in TreeIds(ns)
    decreases ns
  {
    var children := ChildrenIn(t, rows, Some(ids[0]));
    if p == ids[0] {
      ListedAtTop(t, rows, children, ns[0].children, x);
    } else if p in TreeIds(ns[0].children) {
      ChildIsListed(t, rows, children, ns[0].children, p, x);
    } else {
      ChildIsListed(t, rows, ids[1..], ns[1..], p, x);
    }
  }

  lemma {:induction false} ListedAtTop(t: Table, rows: seq<Id>, ids: seq<Id>, ns: seq<Node>, x: Id)
    requires forall y :: y in rows ==> y in t
    requires forall c :: c in ids ==> c in rows
    requires ListsIds(t, rows, ids, ns) && x in ids
    ensures x in TreeIds(ns)
    decreases |ids|
  {
    if x != ids[0] {
      ListedAtTop(t, rows, ids[1..], ns[1..], x);
    }
  }

  lemma {:induction false} RootedIsListed(t: Table, tenant: TenantId, rows: seq<Id>, ns: seq<Node>, x: Id)
    requires Acyclic(t) && IsListing(t, tenant, rows) && Lists(t, rows, None, ns)
    requires x in rows && Rooted(t, x)
    ensures x in TreeIds(ns)
    decreases RankOf(t).rank[x]
  {
    var roots := ChildrenIn(t, rows, None);
    if t[x].parent.None? {
      ListedAtTop(t, rows, roots, ns, x);
    } else {
      RootedIsListed(t, tenant, rows, ns, LocalParent(t, x).value);
      ChildIsListed(t, rows, roots, ns, t[x].parent.value, x);
    }
  }

  lemma {:induction false} UnderRootIsRooted(t: Table, tenant: TenantId, c: Id, x: Id)
    requires Acyclic(t) && c in t && t[c].tenant == tenant && Rooted(t, c) && IsUnder(t, tenant, c, x)
    ensures x in t && t[x].tenant == tenant && Rooted(t, x)
    decreases if x in t && t[x].tenant == tenant then RankOf(t).rank[x] + 1 else 0
  {
    if x != c {
      UnderRanks(t, tenant, c, x);
      UnderRanks(t, tenant, c, t[x].parent.value);
      assert LocalParent(t, x) == t[x].parent;
      UnderRootIsRooted(t, tenant, c, t[x].parent.value);
    }
  }

  /** The listing holds each rooted folder of the tenant once, and nothing else. */
  lemma ListingIsExact(t: Table, tenant: TenantId, rows: seq<Id>, ns: seq<Node>)
    requires Sound(t) && IsListing(t, tenant, rows) && Lists(t, rows, None, ns)
    ensures NoDup(TreeIds(ns))
    ensures forall x :: x in TreeIds(ns) <==> x in t && t[x].tenant == tenant && Rooted(t, x)
  {
    var roots := ChildrenIn(t, rows, None);
    ChildrenInNoDup(t, rows, None);
    ListedOnce(t, tenant, rows, None, roots, ns);
    forall x | x in TreeIds(ns)
      ensures x in t && t[x].tenant == tenant && Rooted(t, x)
    {
      ListedAreUnder(t, tenant, rows, roots, ns, x);
      var c :| c in roots && IsUnder(t, tenant, c, x);
      UnderRootIsRooted(t, tenant, c, x);
    }
    forall x | x in t && t[x].tenant == tenant && Rooted(t, x)
      ensures x in TreeIds(ns)
    {
      RootedIsListed(t, tenant, rows, ns, x);
    }
  }

  lemma {:induction false} ForestIsRooted(t: Table, x: Id)
    requires Forest(t) && x in t
    ensures Rooted(t, x)
    decreases RankOf(t).rank[x]
  {
    assert ParentExists(t, x) && !ForeignParent(t, t[x].tenant, t[x].parent);
    assert LocalParent(t, x) == t[x].parent;
    if t[x].parent.Some? {
      ForestIsRooted(t, t[x].parent.value);
    }
  }

  /** Every folder of every tenant is listed exactly when the table is closed under tenants. */
  lemma EverythingListedExactly(t: Table)
    requires Sound(t)
    ensures (forall x :: x in t ==> Rooted(t, x)) <==> TenantClosed(t)
  {
    if TenantClosed(t) {
      forall x | x in t
        ensures Rooted(t, x)
      {
        ForestIsRooted(t, x);
      }
    } else {
      var x :| x in t && ForeignParent(t, t[x].tenant, t[x].parent);
      assert !Rooted(t, x);
    }
  }
}

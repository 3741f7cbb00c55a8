/**
 The folder table and what each folder operation does to it
 (backend/src/services/folders.rs, with the constraints of
 backend/migrations/202510300000_initial_schema/up.sql).

 A transaction either commits a new table or leaves the old one. An id passed
 as `newId` is the UUID the operation draws; it is never the requested parent.

 The foreign key of a parent does not look at the tenant. `Sound` is what every
 table meets all the same; `Forest` adds that parents stay within their tenant.
*/
module Folders {
  import opened Common
  import opened Text

  const MAX_FOLDER_NAME_LEN: nat := 255

  datatype Folder = Folder(name: string, parent: Option<Id>, tenant: TenantId)

  type Table = map<Id, Folder>

  datatype Error = BadRequest | NotFound | Database

  function NormalizeFolderName(raw: string): Result<string, NameError> {
    NormalizeIdentifier(raw, MAX_FOLDER_NAME_LEN, c => !IsControl(c))
  }

  // ---------- Constraints of the schema ----------

  predicate ParentExists(t: Table, x: Id)
    requires x in t
  {
    t[x].parent.Some? ==> t[x].parent.value in t
  }

  /** The foreign key on parent_id. It does not look at the tenant. */
  predicate ParentsExist(t: Table) {
    forall x {:trigger ParentExists(t, x)} :: x in t ==> ParentExists(t, x)
  }

  predicate Apart(t: Table, x: Id, y: Id)
    requires x in t && y in t
  {
    x != y && t[x].tenant == t[y].tenant && t[x].parent == t[y].parent ==> t[x].name != t[y].name
  }

  /** The unique index on (tenant, parent or root, name). */
  predicate SiblingsDiffer(t: Table) {
    forall x, y {:trigger Apart(t, x, y)} :: x in t && y in t ==> Apart(t, x, y)
  }

  /** What a stored name is: trimmed, not empty, of at most 255 bytes and printable. */
  predicate IsNormal(name: string) {
    name != "" && Trimmed(name) && ByteLen(name) <= MAX_FOLDER_NAME_LEN && forall c :: c in name ==> !IsControl(c)
  }

  predicate NamesNormal(t: Table) {
    forall x {:trigger IsNormal(t[x].name)} :: x in t ==> IsNormal(t[x].name)
  }

  predicate Consistent(t: Table) {
    ParentsExist(t) && SiblingsDiffer(t) && NamesNormal(t)
  }

  // ---------- Acyclicity ----------

  /** x has a parent row, and that row is of another tenant. */
  predicate ForeignParent(t: Table, tenant: TenantId, parent: Option<Id>) {
    parent.Some? && parent.value in t && t[parent.value].tenant != tenant
  }

  /** Every parent belongs to the tenant of its child. */
  predicate TenantClosed(t: Table) {
    forall x {:trigger ForeignParent(t, t[x].tenant, t[x].parent)} :: x in t ==> !ForeignParent(t, t[x].tenant, t[x].parent)
  }

  /** The parent of x when it is of the same tenant; the walks of the code follow only these. */
  function LocalParent(t: Table, x: Id): (p: Option<Id>)
    requires x in t
    ensures p.Some? ==> p == t[x].parent && p.value in t && t[p.value].tenant == t[x].tenant
  {
    if t[x].parent.Some? && t[x].parent.value in t && t[t[x].parent.value].tenant == t[x].tenant then t[x].parent
    else None
  }

  datatype Ranking = Ranking(rank: map<Id, nat>, bound: nat)

  /** Each folder ranks above its parent, when that parent is of the same tenant. */
  ghost predicate Ranks(t: Table, r: Ranking) {
    && t.Keys <= r.rank.Keys
    && (forall x :: x in t ==> r.rank[x] <= r.bound)
    && (forall x {:trigger LocalParent(t, x)} :: x in t && LocalParent(t, x).Some?
          ==> r.rank[LocalParent(t, x).value] < r.rank[x])
  }

  /** No folder can be reached from itself along parents of its own tenant. */
  ghost predicate Acyclic(t: Table) {
    exists r :: Ranks(t, r)
  }

  ghost function RankOf(t: Table): (r: Ranking)
    requires Acyclic(t)
    ensures Ranks(t, r)
  {
    var r :| Ranks(t, r); r
  }

  /** What every reachable table satisfies. */
  ghost predicate Sound(t: Table) {
    Consistent(t) && Acyclic(t)
  }

  /** A sound table in which no folder hangs below a folder of another tenant. */
  ghost predicate Forest(t: Table) {
    Sound(t) && TenantClosed(t)
  }

  // ---------- Queries ----------

  predicate IsChild(t: Table, tenant: TenantId, parent: Option<Id>, x: Id) {
    x in t && t[x].tenant == tenant && t[x].parent == parent
  }

  /** The tenant's folder of this name under this parent, if there is one. */
  ghost function Lookup(t: Table, tenant: TenantId, parent: Option<Id>, name: string): (r: Option<Id>)
    ensures r.Some? ==> IsChild(t, tenant, parent, r.value) && t[r.value].name == name
    ensures r.None? ==> forall x :: IsChild(t, tenant, parent, x) ==> t[x].name != name
  {
    if x :| IsChild(t, tenant, parent, x) && t[x].name == name then Some(x) else None
  }

  lemma LookupIsUnique(t: Table, tenant: TenantId, parent: Option<Id>, x: Id)
    requires SiblingsDiffer(t) && IsChild(t, tenant, parent, x)
    ensures Lookup(t, tenant, parent, t[x].name) == Some(x)
  {
    forall y | IsChild(t, tenant, parent, y) && t[y].name == t[x].name
      ensures y == x
    {
      assert Apart(t, x, y);
    }
  }

  /** x is a, or lies below a along folders of the tenant. */
  ghost predicate IsUnder(t: Table, tenant: TenantId, a: Id, x: Id)
    requires Acyclic(t)
    decreases if x in t && t[x].tenant == tenant then RankOf(t).rank[x] + 1 else 0
  {
    || x == a
    || (x in t && t[x].tenant == tenant && t[x].parent.Some? &&
        (assert LocalParent(t, x).Some? ==> LocalParent(t, x) == t[x].parent;
         IsUnder(t, tenant, a, t[x].parent.value)))
  }

  ghost function Descendants(t: Table, tenant: TenantId, a: Id): set<Id>
    requires Acyclic(t)
  {
    {a} + set x | x in t && IsUnder(t, tenant, a, x)
  }

  /** Every segment is a folder name once trimmed. */
  predicate AllNormalize(segments: seq<string>) {
    forall i :: 0 <= i < |segments| ==> NormalizeFolderName(segments[i]).Ok?
  }

  /** The drawn ids are new and differ from one another. */
  predicate Fresh(newIds: seq<Id>, t: Table) {
    NoDup(newIds) && forall id :: id in newIds ==> id !in t
  }

  // ---------- Operations ----------

  datatype Placed = Placed(table: Table, id: Id, created: bool)

  /** INSERT ... ON CONFLICT DO NOTHING; the flag says whether a row was written. */
  ghost function Insert(t: Table, id: Id, row: Folder): Result<(Table, bool), Error> {
    if id in t || Lookup(t, row.tenant, row.parent, row.name).Some? then Ok((t, false))
    else if row.parent.Some? && row.parent.value !in t then Err(Database)
    else Ok((t[id := row], true))
  }

  /** Finds the child of this normalised name, or inserts it. */
  ghost function EnsureChild(t: Table, tenant: TenantId, parent: Option<Id>, name: string, newId: Id)
    : Result<Placed, Error>
  {
    match Lookup(t, tenant, parent, name)
    case Some(x) => Ok(Placed(t, x, false))
    case None =>
      match Insert(t, newId, Folder(name, parent, tenant))
      case Err(e) => Err(e)
      case Ok((t', true)) => Ok(Placed(t', newId, true))
      case Ok((t', false)) =>
        match Lookup(t', tenant, parent, name)
        case Some(x) => Ok(Placed(t', x, false))
        case None => Err(NotFound)
  }

  ghost function Create(t: Table, tenant: TenantId, parent: Option<Id>, raw: string, newId: Id): Result<Placed, Error> {
    match NormalizeFolderName(raw)
    case Err(_) => Err(BadRequest)
    case Ok(name) => EnsureChild(t, tenant, parent, name, newId)
  }

  datatype Reached = Reached(table: Table, at: Option<Id>)

  /** Walks the segments down from `at`, creating what is missing. */
  ghost function EnsureSegments(t: Table, tenant: TenantId, at: Option<Id>, segments: seq<string>, newIds: seq<Id>)
    : Result<Reached, Error>
    requires |segments| == |newIds|
    decreases |segments|
  {
    if segments == [] then Ok(Reached(t, at))
    else
      match Create(t, tenant, at, segments[0], newIds[0])
      case Err(e) => Err(e)
      case Ok(placed) => EnsureSegments(placed.table, tenant, Some(placed.id), segments[1..], newIds[1..])
  }

  ghost function EnsurePath(t: Table, tenant: TenantId, at: Option<Id>, segments: seq<string>, newIds: seq<Id>)
    : Result<Reached, Error>
    requires |segments| == |newIds|
  {
    if segments == [] then Err(BadRequest) else EnsureSegments(t, tenant, at, segments, newIds)
  }

  /** Move and rename. The outer option says whether the field is present in the request. */
  ghost function Update(t: Table, tenant: TenantId, id: Id, parentField: Option<Option<Id>>, nameField: Option<Option<string>>)
    : Result<Table, Error>
    requires Acyclic(t)
  {
    if id !in t || t[id].tenant != tenant then Err(NotFound)
    else if parentField == Some(Some(id)) then Err(BadRequest)
    else if parentField.Some? && parentField.value.Some? && (parentField.value.value !in t || t[parentField.value.value].tenant != tenant) then
      Err(NotFound)
    else if parentField.Some? && parentField.value.Some? && t[id].parent != parentField.value
            && parentField.value.value in Descendants(t, tenant, id) then
      Err(BadRequest)
    else if nameField == Some(None) then Err(BadRequest)
    else if nameField.Some? && NormalizeFolderName(nameField.value.value).Err? then Err(BadRequest)
    else
      var parent := if parentField.Some? then parentField.value else t[id].parent;
      var name := if nameField.Some? then NormalizeFolderName(nameField.value.value).value else t[id].name;
      if parent == t[id].parent && name == t[id].name then Ok(t)
      else if exists y :: y != id && IsChild(t, tenant, parent, y) && t[y].name == name then Err(BadRequest)
      else Ok(t[id := Folder(name, parent, tenant)])
  }

  /** ON DELETE SET NULL: children of the deleted row become roots. */
  function Detach(t: Table, id: Id): (r: Table)
    ensures r.Keys == t.Keys - {id}
  {
    map x | x in t && x != id :: if t[x].parent == Some(id) then t[x].(parent := None) else t[x]
  }

  ghost function Delete(t: Table, tenant: TenantId, id: Id, holdsDocuments: bool): Result<Table, Error> {
    if id !in t || t[id].tenant != tenant then Err(NotFound)
    else if exists x :: IsChild(t, tenant, Some(id), x) then Err(BadRequest)
    else if holdsDocuments then Err(BadRequest)
    else if !SiblingsDiffer(Detach(t, id)) then Err(Database)
    else Ok(Detach(t, id))
  }

  // ---------- Facts about IsUnder ----------

  lemma {:induction false} UnderRanks(t: Table, tenant: TenantId, a: Id, x: Id)
    requires Acyclic(t) && IsUnder(t, tenant, a, x)
    requires a in t && t[a].tenant == tenant
    ensures x in t && t[x].tenant == tenant
    ensures x == a || RankOf(t).rank[a] < RankOf(t).rank[x]
    decreases if x in t && t[x].tenant == tenant then RankOf(t).rank[x] + 1 else 0
  {
    if x != a {
      assert LocalParent(t, x).Some? ==> LocalParent(t, x) == t[x].parent;
      UnderRanks(t, tenant, a, t[x].parent.value);
    }
  }

  lemma {:induction false} UnderTransitive(t: Table, tenant: TenantId, a: Id, b: Id, x: Id)
    requires Acyclic(t) && IsUnder(t, tenant, a, b) && IsUnder(t, tenant, b, x)
    ensures IsUnder(t, tenant, a, x)
    decreases if x in t && t[x].tenant == tenant then RankOf(t).rank[x] + 1 else 0
  {
    if x != b {
      assert LocalParent(t, x).Some? ==> LocalParent(t, x) == t[x].parent;
      UnderTransitive(t, tenant, a, b, t[x].parent.value);
    }
  }

  /** Two folders above the same folder are above one another. */
  lemma {:induction false} UnderIsLinear(t: Table, tenant: TenantId, a: Id, b: Id, x: Id)
    requires Acyclic(t) && IsUnder(t, tenant, a, x) && IsUnder(t, tenant, b, x)
    ensures IsUnder(t, tenant, a, b) || IsUnder(t, tenant, b, a)
    decreases if x in t && t[x].tenant == tenant then RankOf(t).rank[x] + 1 else 0
  {
    if x != a && x != b {
      assert LocalParent(t, x).Some? ==> LocalParent(t, x) == t[x].parent;
      UnderIsLinear(t, tenant, a, b, t[x].parent.value);
    }
  }

  /** The subtrees of two different siblings share no folder. */
  lemma SiblingSubtreesDisjoint(t: Table, tenant: TenantId, parent: Option<Id>, a: Id, b: Id, x: Id)
    requires Acyclic(t) && IsChild(t, tenant, parent, a) && IsChild(t, tenant, parent, b)
    requires parent.Some? ==> parent.value in t && t[parent.value].tenant == tenant
    requires IsUnder(t, tenant, a, x) && IsUnder(t, tenant, b, x)
    ensures a == b
  {
    UnderIsLinear(t, tenant, a, b, x);
    if a != b && parent.Some? {
      assert LocalParent(t, a) == LocalParent(t, b) == parent;
      if IsUnder(t, tenant, a, b) {
        UnderRanks(t, tenant, a, parent.value);
      } else {
        UnderRanks(t, tenant, b, parent.value);
      }
    }
  }
}

/**
 What every folder operation keeps, over single operations and whole runs:
 the schema constraints, acyclicity, and - exactly when no folder is inserted
 below another tenant's folder - the forest shape of every tenant.
*/
module FolderForest {
  import opened Common
  import opened Text
  import opened Folders

  /** t' only adds rows to t, all of them the tenant's. */
  predicate Extends(t': Table, t: Table, tenant: TenantId) {
    && t.Keys <= t'.Keys
    && (forall x :: x in t ==> t'[x] == t[x])
    && (forall x :: x in t' && x !in t ==> t'[x].tenant == tenant)
  }

  // ---------- Inserting ----------

  lemma InsertedRowKeepsSound(t: Table, id: Id, row: Folder)
    requires Sound(t) && id !in t
    requires row.parent.Some? ==> row.parent.value in t
    requires IsNormal(row.name)
    requires forall x :: IsChild(t, row.tenant, row.parent, x) ==> t[x].name != row.name
    ensures Sound(t[id := row])
  {
    var t' := t[id := row];
    var r := RankOf(t);
    var above := if row.parent.Some? then r.rank[row.parent.value] + 1 else 0;
    var r' := Ranking(r.rank[id := above], r.bound + 1);
    forall x | x in t' && LocalParent(t', x).Some?
      ensures r'.rank[LocalParent(t', x).value] < r'.rank[x]
    {
      if x != id {
        assert ParentExists(t, x);
        assert LocalParent(t, x) == LocalParent(t', x);
      }
    }
    assert Ranks(t', r');
    forall x | x in t'
      ensures ParentExists(t', x)
    {
      assert x != id ==> ParentExists(t, x);
    }
    forall x, y | x in t' && y in t'
      ensures Apart(t', x, y)
    {
      if x != id && y != id {
        assert Apart(t, x, y);
      } else if !Apart(t', x, y) {
        assert IsChild(t, row.tenant, row.parent, if x == id then y else x);
      }
    }
  }

  lemma EnsureChildKeepsSound(t: Table, tenant: TenantId, parent: Option<Id>, name: string, newId: Id)
    requires Sound(t) && IsNormal(name)
    requires EnsureChild(t, tenant, parent, name, newId).Ok?
    ensures var placed := EnsureChild(t, tenant, parent, name, newId).value;
            && Sound(placed.table) && Extends(placed.table, t, tenant)
            && IsChild(placed.table, tenant, parent, placed.id) && placed.table[placed.id].name == name
            && placed.created == (placed.table != t)
            && (TenantClosed(t) ==> (TenantClosed(placed.table) <==> !ForeignParent(t, tenant, parent)))
  {
    var placed := EnsureChild(t, tenant, parent, name, newId).value;
    if placed.created {
      InsertedRowKeepsSound(t, newId, Folder(name, parent, tenant));
      var t' := placed.table;
      assert t' == t[newId := Folder(name, parent, tenant)];
      if TenantClosed(t) {
        forall x | x in t' && x != newId
          ensures !ForeignParent(t', t'[x].tenant, t'[x].parent)
        {
          assert ParentExists(t, x) && !ForeignParent(t, t[x].tenant, t[x].parent);
        }
        assert ForeignParent(t', t'[newId].tenant, t'[newId].parent) == ForeignParent(t, tenant, parent);
      }
    }
  }

  lemma NormalFolderName(raw: string)
    requires NormalizeFolderName(raw).Ok?
    ensures IsNormal(NormalizeFolderName(raw).value)
  {
    TrimIsTrimmed(raw);
  }

  /** The normal names are those that normalising returns as they are. */
  lemma NormalExactly(name: string)
    ensures IsNormal(name) <==> NormalizeFolderName(name) == Ok(name)
  {
    if IsNormal(name) {
      TrimOfTrimmed(name);
    } else if NormalizeFolderName(name) == Ok(name) {
      NormalFolderName(name);
    }
  }

  lemma {:induction false} EnsureSegmentsKeepsSound(
    t: Table, tenant: TenantId, at: Option<Id>, segments: seq<string>, newIds: seq<Id>)
    requires |segments| == |newIds| && Sound(t)
    requires EnsureSegments(t, tenant, at, segments, newIds).Ok?
    ensures var r := EnsureSegments(t, tenant, at, segments, newIds).value;
            && Sound(r.table) && Extends(r.table, t, tenant)
            && (TenantClosed(t) ==> (TenantClosed(r.table) <==> segments == [] || !ForeignParent(t, tenant, at)))
    decreases |segments|
  {
    if segments != [] {
      NormalFolderName(segments[0]);
      EnsureChildKeepsSound(t, tenant, at, NormalizeFolderName(segments[0]).value, newIds[0]);
      var placed := Create(t, tenant, at, segments[0], newIds[0]).value;
      EnsureSegmentsKeepsSound(placed.table, tenant, Some(placed.id), segments[1..], newIds[1..]);
      var r := EnsureSegments(t, tenant, at, segments, newIds).value;
      if !TenantClosed(placed.table) {
        var x :| x in placed.table && ForeignParent(placed.table, placed.table[x].tenant, placed.table[x].parent);
        assert ForeignParent(r.table, r.table[x].tenant, r.table[x].parent);
      }
    }
  }

  // ---------- Moving, renaming, deleting ----------

  lemma MovedRanking(t: Table, tenant: TenantId, id: Id, row: Folder) returns (r': Ranking)
    requires Sound(t) && id in t && t[id].tenant == tenant && row.tenant == tenant
    requires row.parent.Some? && row.parent != t[id].parent ==> row.parent.value !in Descendants(t, tenant, id)
    ensures Ranks(t[id := row], r')
  {
    var r := RankOf(t);
    var below := Descendants(t, tenant, id);
    r' := Ranking(map x | x in t :: if x in below then r.rank[x] + r.bound + 1 else r.rank[x], 2 * r.bound + 1);
    var t' := t[id := row];
    forall x | x in t' && LocalParent(t', x).Some?
      ensures r'.rank[LocalParent(t', x).value] < r'.rank[x]
    {
      var p := LocalParent(t', x).value;
      if p in below {
        UnderRanks(t, tenant, id, p);
      }
      if x != id {
        assert LocalParent(t, x) == Some(p);
        assert IsUnder(t, tenant, id, p) ==> IsUnder(t, tenant, id, x);
      } else if row.parent == t[id].parent {
        assert LocalParent(t, id) == Some(p);
      }
    }
  }

  /** Replacing the row of one folder, when its new place is free, exists and is not below it. */
  lemma ReplacedRowKeepsSound(t: Table, tenant: TenantId, id: Id, row: Folder)
    requires Sound(t) && id in t && t[id].tenant == tenant && row.tenant == tenant
    requires row.parent.Some? && row.parent != t[id].parent ==>
               && row.parent.value !in Descendants(t, tenant, id)
               && row.parent.value in t && t[row.parent.value].tenant == tenant
    requires IsNormal(row.name)
    requires forall y :: y != id && IsChild(t, tenant, row.parent, y) ==> t[y].name != row.name
    ensures Sound(t[id := row])
    ensures TenantClosed(t) ==> TenantClosed(t[id := row])
  {
    var t' := t[id := row];
    var r' := MovedRanking(t, tenant, id, row);
    forall x | x in t'
      ensures ParentExists(t', x)
      ensures TenantClosed(t) ==> !ForeignParent(t', t'[x].tenant, t'[x].parent)
    {
      assert ParentExists(t, x);
      if TenantClosed(t) {
        assert !ForeignParent(t, t[x].tenant, t[x].parent);
      }
    }
    forall x, y | x in t' && y in t'
      ensures Apart(t', x, y)
    {
      if x != id && y != id {
        assert Apart(t, x, y);
      } else if !Apart(t', x, y) {
        assert IsChild(t, tenant, row.parent, if x == id then y else x);
      }
    }
  }

  lemma UpdateKeepsSound(
    t: Table, tenant: TenantId, id: Id, parentField: Option<Option<Id>>, nameField: Option<Option<string>>)
    requires Sound(t) && Update(t, tenant, id, parentField, nameField).Ok?
    ensures var t' := Update(t, tenant, id, parentField, nameField).value;
            && Sound(t') && t'.Keys == t.Keys && (TenantClosed(t) ==> TenantClosed(t'))
            && (forall x :: x in t && x != id ==> t'[x] == t[x])
  {
    var t' := Update(t, tenant, id, parentField, nameField).value;
    if t' != t {
      if nameField.Some? {
        NormalFolderName(nameField.value.value);
      }
      ReplacedRowKeepsSound(t, tenant, id, t'[id]);
      assert t' == t[id := t'[id]];
    }
  }

  lemma DeleteKeepsSound(t: Table, tenant: TenantId, id: Id, holdsDocuments: bool)
    requires Sound(t) && Delete(t, tenant, id, holdsDocuments).Ok?
    ensures var t' := Delete(t, tenant, id, holdsDocuments).value;
            && Sound(t') && t'.Keys == t.Keys - {id}
            && (TenantClosed(t) ==> TenantClosed(t') && t' == map x | x in t && x != id :: t[x])
  {
    var t' := Delete(t, tenant, id, holdsDocuments).value;
    forall x | x in t'
      ensures ParentExists(t', x)
      ensures LocalParent(t', x).Some? ==> LocalParent(t', x) == LocalParent(t, x)
      ensures ForeignParent(t', t'[x].tenant, t'[x].parent) ==> ForeignParent(t, t[x].tenant, t[x].parent)
      ensures TenantClosed(t) ==> t'[x] == t[x]
    {
      assert ParentExists(t, x);
      assert !IsChild(t, tenant, Some(id), x);
      assert t[x].parent == Some(id) ==> ForeignParent(t, t[x].tenant, t[x].parent);
    }
    assert Ranks(t', RankOf(t));
  }

  /** A deletion succeeds exactly for the tenant's folders without folders of its own and active documents in them. */
  lemma DeleteSucceedsExactly(t: Table, tenant: TenantId, id: Id, holdsDocuments: bool)
    requires Forest(t)
    ensures Delete(t, tenant, id, holdsDocuments).Ok? <==>
              id in t && t[id].tenant == tenant && !holdsDocuments && forall x :: x in t ==> t[x].parent != Some(id)
  {
    if id in t && t[id].tenant == tenant {
      forall x | x in t && t[x].parent == Some(id)
        ensures IsChild(t, tenant, Some(id), x)
      {
        assert !ForeignParent(t, t[x].tenant, t[x].parent);
      }
      if forall x :: !IsChild(t, tenant, Some(id), x) {
        forall x, y | x in Detach(t, id) && y in Detach(t, id)
          ensures Apart(Detach(t, id), x, y)
        {
          assert Apart(t, x, y);
        }
      }
    }
  }

  // ---------- Runs ----------

  datatype Op =
    | CreateOp(tenant: TenantId, parent: Option<Id>, raw: string, newId: Id)
    | EnsureOp(tenant: TenantId, parent: Option<Id>, segments: seq<string>, newIds: seq<Id>)
    | UpdateOp(tenant: TenantId, id: Id, parentField: Option<Option<Id>>, nameField: Option<Option<string>>)
    | DeleteOp(tenant: TenantId, id: Id, holdsDocuments: bool)

  predicate WellFormed(op: Op) {
    op.EnsureOp? ==> |op.segments| == |op.newIds|
  }

  ghost function Apply(t: Table, op: Op): (r: Result<Table, Error>)
    requires Sound(t) && WellFormed(op)
    ensures r.Ok? ==> Sound(r.value)
  {
    match op
    case CreateOp(tenant, parent, raw, newId) =>
      (match Create(t, tenant, parent, raw, newId)
       case Err(e) => Err(e)
       case Ok(placed) =>
         NormalFolderName(raw);
         EnsureChildKeepsSound(t, tenant, parent, NormalizeFolderName(raw).value, newId);
         Ok(placed.table))
    case EnsureOp(tenant, parent, segments, newIds) =>
      (match EnsurePath(t, tenant, parent, segments, newIds)
       case Err(e) => Err(e)
       case Ok(reached) =>
         EnsureSegmentsKeepsSound(t, tenant, parent, segments, newIds);
         Ok(reached.table))
    case UpdateOp(tenant, id, parentField, nameField) =>
      (match Update(t, tenant, id, parentField, nameField)
       case Err(e) => Err(e)
       case Ok(t') =>
         UpdateKeepsSound(t, tenant, id, parentField, nameField);
         Ok(t'))
    case DeleteOp(tenant, id, holdsDocuments) =>
      (match Delete(t, tenant, id, holdsDocuments)
       case Err(e) => Err(e)
       case Ok(t') =>
         DeleteKeepsSound(t, tenant, id, holdsDocuments);
         Ok(t'))
  }

  /** A failing operation leaves the table as it was. */
  ghost function Step(t: Table, op: Op): (t': Table)
    requires Sound(t) && WellFormed(op)
    ensures Sound(t')
  {
    match Apply(t, op)
    case Ok(t') => t'
    case Err(_) => t
  }

  /** Every serial run, from a sound table, ends in a sound table. */
  ghost function Run(t: Table, ops: seq<Op>): (t': Table)
    requires Sound(t) && forall op :: op in ops ==> WellFormed(op)
    ensures Sound(t')
    decreases |ops|
  {
    if ops == [] then t else Run(Step(t, ops[0]), ops[1..])
  }

  lemma EmptyTableIsForest()
    ensures Forest(map[])
  {
    assert Ranks(map[], Ranking(map[], 0));
  }

  /** A create or ensure-path with a valid request and new ids, below another tenant's folder. */
  predicate InsertsForeign(t: Table, op: Op) {
    match op
    case CreateOp(tenant, parent, raw, newId) =>
      ForeignParent(t, tenant, parent) && NormalizeFolderName(raw).Ok? && newId !in t
    case EnsureOp(tenant, parent, segments, newIds) =>
      ForeignParent(t, tenant, parent) && segments != [] && AllNormalize(segments) && Fresh(newIds, t)
    case _ => false
  }

  /** Below a folder without children of the tenant, a path is created exactly from folder names and new ids. */
  lemma {:induction false} EnsureBelowEmpty(t: Table, tenant: TenantId, at: Id, segments: seq<string>, newIds: seq<Id>)
    requires Sound(t) && |segments| == |newIds| && at in t && forall x :: !IsChild(t, tenant, Some(at), x)
    ensures EnsureSegments(t, tenant, Some(at), segments, newIds).Ok? <==> AllNormalize(segments) && Fresh(newIds, t)
    decreases |segments|
  {
    if segments != [] && NormalizeFolderName(segments[0]).Ok? && newIds[0] !in t {
      NormalFolderName(segments[0]);
      var row := Folder(NormalizeFolderName(segments[0]).value, Some(at), tenant);
      var t1 := t[newIds[0] := row];
      InsertedRowKeepsSound(t, newIds[0], row);
      forall x
        ensures !IsChild(t1, tenant, Some(newIds[0]), x)
      {
        assert x in t ==> ParentExists(t, x);
      }
      EnsureBelowEmpty(t1, tenant, newIds[0], segments[1..], newIds[1..]);
      FreshSplits(newIds, t, row);
      AllNormalizeSplits(segments);
    }
  }

  lemma FreshSplits(newIds: seq<Id>, t: Table, row: Folder)
    requires newIds != [] && newIds[0] !in t
    ensures Fresh(newIds, t) <==> Fresh(newIds[1..], t[newIds[0] := row])
  {
    assert newIds == [newIds[0]] + newIds[1..];
    if Fresh(newIds[1..], t[newIds[0] := row]) {
      NoDupConcat([newIds[0]], newIds[1..]);
    }
  }

  lemma AllNormalizeSplits(segments: seq<string>)
    requires segments != []
    ensures AllNormalize(segments) <==> NormalizeFolderName(segments[0]).Ok? && AllNormalize(segments[1..])
  {
    assert forall i :: 0 < i < |segments| ==> segments[i] == segments[1..][i - 1];
  }

  /** On a forest the request below a foreign folder succeeds exactly under these conditions. */
  lemma ForeignInsertSucceedsExactly(t: Table, op: Op)
    requires Forest(t) && WellFormed(op) && (op.CreateOp? || op.EnsureOp?) && ForeignParent(t, op.tenant, op.parent)
    ensures Apply(t, op).Ok? <==> InsertsForeign(t, op)
  {
    var at := op.parent.value;
    forall x
      ensures !IsChild(t, op.tenant, op.parent, x)
    {
      assert x in t ==> !ForeignParent(t, t[x].tenant, t[x].parent);
    }
    if op.EnsureOp? {
      EnsureBelowEmpty(t, op.tenant, at, op.segments, op.newIds);
    }
  }

  lemma StepClosedExactly(t: Table, op: Op)
    requires Forest(t) && WellFormed(op)
    ensures TenantClosed(Step(t, op)) <==> !InsertsForeign(t, op)
  {
    if (op.CreateOp? || op.EnsureOp?) && ForeignParent(t, op.tenant, op.parent) {
      ForeignInsertSucceedsExactly(t, op);
    }
    if Apply(t, op).Ok? {
      match op
      case CreateOp(tenant, parent, raw, newId) =>
        NormalFolderName(raw);
        EnsureChildKeepsSound(t, tenant, parent, NormalizeFolderName(raw).value, newId);
      case EnsureOp(tenant, parent, segments, newIds) =>
        EnsureSegmentsKeepsSound(t, tenant, parent, segments, newIds);
      case UpdateOp(tenant, id, parentField, nameField) =>
        UpdateKeepsSound(t, tenant, id, parentField, nameField);
      case DeleteOp(tenant, id, holdsDocuments) =>
        DeleteKeepsSound(t, tenant, id, holdsDocuments);
    }
  }

  ghost predicate AlwaysForest(t: Table, ops: seq<Op>)
    requires Sound(t) && forall op :: op in ops ==> WellFormed(op)
    decreases |ops|
  {
    Forest(t) && (ops != [] ==> AlwaysForest(Step(t, ops[0]), ops[1..]))
  }

  ghost predicate NeverInsertsForeign(t: Table, ops: seq<Op>)
    requires Sound(t) && forall op :: op in ops ==> WellFormed(op)
    decreases |ops|
  {
    ops != [] ==> !InsertsForeign(t, ops[0]) && NeverInsertsForeign(Step(t, ops[0]), ops[1..])
  }

  /** A run keeps every tenant a forest exactly when it never inserts below a foreign folder. */
  lemma {:induction false} RunIsForestExactly(t: Table, ops: seq<Op>)
    requires Forest(t) && forall op :: op in ops ==> WellFormed(op)
    ensures AlwaysForest(t, ops) <==> NeverInsertsForeign(t, ops)
    decreases |ops|
  {
    if ops != [] {
      StepClosedExactly(t, ops[0]);
      if !InsertsForeign(t, ops[0]) {
        RunIsForestExactly(Step(t, ops[0]), ops[1..]);
      }
    }
  }

  // ---------- Cycles ----------

  /** The folder reached from x by n steps to the parent, whoever owns it. */
  function Climb(t: Table, x: Id, n: nat): Option<Id>
    decreases n
  {
    if n == 0 then Some(x)
    else if x in t && t[x].parent.Some? then Climb(t, t[x].parent.value, n - 1)
    else None
  }

  lemma {:induction false} ClimbingDescends(t: Table, x: Id, n: nat)
    requires Forest(t) && x in t && n > 0 && Climb(t, x, n).Some?
    ensures Climb(t, x, n).value in t && RankOf(t).rank[Climb(t, x, n).value] < RankOf(t).rank[x]
    decreases n
  {
    assert ParentExists(t, x) && !ForeignParent(t, t[x].tenant, t[x].parent);
    assert LocalParent(t, x) == t[x].parent;
    if n > 1 {
      ClimbingDescends(t, t[x].parent.value, n - 1);
    }
  }

  /** In a forest no folder is its own ancestor. */
  lemma ForestHasNoCycle(t: Table, x: Id, n: nat)
    requires Forest(t) && x in t && n > 0
    ensures Climb(t, x, n) != Some(x)
  {
    if Climb(t, x, n).Some? {
      ClimbingDescends(t, x, n);
    }
  }

  lemma OneLetterName(name: string)
    requires |name| == 1 && 'a' <= name[0] <= 'z'
    ensures IsNormal(name)
  {
    assert ByteLen(name[1..]) == 0;
    TrimOfTrimmed(name);
  }

  lemma CreateInserts(t: Table, tenant: TenantId, parent: Option<Id>, name: string, id: Id)
    requires Sound(t) && IsNormal(name) && id !in t
    requires parent.Some? ==> parent.value in t
    requires forall x :: IsChild(t, tenant, parent, x) ==> t[x].name != name
    ensures Step(t, CreateOp(tenant, parent, name, id)) == t[id := Folder(name, parent, tenant)]
  {
  }

  lemma MoveReplaces(t: Table, tenant: TenantId, id: Id, parent: Id)
    requires Sound(t) && id in t && t[id].tenant == tenant
    requires parent in t && t[parent].tenant == tenant && parent !in Descendants(t, tenant, id)
    requires t[id].parent != Some(parent)
    requires forall x :: !IsChild(t, tenant, Some(parent), x)
    ensures Step(t, UpdateOp(tenant, id, Some(Some(parent)), None)) == t[id := t[id].(parent := Some(parent))]
  {
    assert parent != id;
  }

  const PLACE_P := CreateOp(1, None, "p", 10)
  const PLACE_F := CreateOp(2, Some(10), "f", 20)
  const PLACE_G := CreateOp(1, Some(20), "g", 30)
  const MOVE_P := UpdateOp(1, 10, Some(Some(30)), None)

  /** Folder 10 of tenant 1, folder 20 of tenant 2 below it, folder 30 of tenant 1 below that; then 10 moves below 30. */
  const CROSS_TENANT_RUN: seq<Op> := [PLACE_P] + ([PLACE_F] + ([PLACE_G] + ([MOVE_P] + [])))

  lemma RunStarts(t: Table, op: Op, ops: seq<Op>)
    requires Sound(t) && WellFormed(op) && forall o :: o in ops ==> WellFormed(o)
    ensures Run(t, [op] + ops) == Run(Step(t, op), ops)
  {
    assert ([op] + ops)[1..] == ops;
  }

  lemma CrossTenantTable() returns (t: Table)
    ensures Forest(map[])
    ensures t == Step(Step(Step(map[], PLACE_P), PLACE_F), PLACE_G)
    ensures t == map[10 := Folder("p", None, 1), 20 := Folder("f", Some(10), 2), 30 := Folder("g", Some(20), 1)]
  {
    EmptyTableIsForest();
    OneLetterName("p");
    OneLetterName("f");
    OneLetterName("g");
    CreateInserts(map[], 1, None, "p", 10);
    var t1 := Step(map[], PLACE_P);
    CreateInserts(t1, 2, Some(10), "f", 20);
    var t2 := Step(t1, PLACE_F);
    CreateInserts(t2, 1, Some(20), "g", 30);
    t := Step(t2, PLACE_G);
  }

  lemma MoveClosesCycle(t: Table) returns (t': Table)
    requires Sound(t)
    requires t == map[10 := Folder("p", None, 1), 20 := Folder("f", Some(10), 2), 30 := Folder("g", Some(20), 1)]
    ensures t' == Step(t, MOVE_P) && Climb(t', 10, 3) == Some(10)
  {
    assert !IsUnder(t, 1, 10, 20);
    assert !IsUnder(t, 1, 10, 30);
    MoveReplaces(t, 1, 10, 30);
    t' := Step(t, MOVE_P);
    assert Climb(t', 10, 3) == Climb(t', 30, 2) == Climb(t', 20, 1) == Climb(t', 10, 0);
  }

  /**
   Without that condition acyclicity fails across tenants: the descendant walk
   of a move stops at the other tenant's folder, so the move closes a cycle.
   */
  lemma ForeignParentAllowsCycle()
    ensures Forest(map[]) && forall op :: op in CROSS_TENANT_RUN ==> WellFormed(op)
    ensures Climb(Run(map[], CROSS_TENANT_RUN), 10, 3) == Some(10)
  {
    var t3 := CrossTenantTable();
    var t4 := MoveClosesCycle(t3);
    RunStarts(t3, MOVE_P, []);
    RunStarts(Step(Step(map[], PLACE_P), PLACE_F), PLACE_G, [MOVE_P] + []);
    RunStarts(Step(map[], PLACE_P), PLACE_F, [PLACE_G] + ([MOVE_P] + []));
    RunStarts(map[], PLACE_P, [PLACE_F] + ([PLACE_G] + ([MOVE_P] + [])));
  }
}

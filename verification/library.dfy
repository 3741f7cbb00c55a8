/**
 Documents in folders: the lifecycle methods of backend/src/services/documents.rs
 together with the folder operations, and where a document can be afterwards.
 The schema sets documents.folder_id to NULL when the folder row goes, and keeps
 file names of active documents unique per tenant and folder.
*/
module Library {
  import opened Common
  import opened Folders
  import opened FolderForest

  datatype Doc = Doc(tenant: TenantId, folder: Option<Id>, filename: string, trashed: bool)

  type Docs = map<Id, Doc>

  datatype DocError = DocBadRequest | DocNotFound | DocConflict | DocDatabase

  // ---------- Constraints ----------

  predicate FileClash(docs: Docs, x: Id, y: Id)
    requires x in docs && y in docs
  {
    && x != y && !docs[x].trashed && !docs[y].trashed && docs[x].tenant == docs[y].tenant
    && docs[x].folder == docs[y].folder && docs[x].filename == docs[y].filename
  }

  predicate FilesDiffer(docs: Docs) {
    forall x, y {:trigger FileClash(docs, x, y)} :: x in docs && y in docs ==> !FileClash(docs, x, y)
  }

  predicate FolderExists(t: Table, tenant: TenantId, folder: Option<Id>) {
    folder.Some? ==> folder.value in t && t[folder.value].tenant == tenant
  }

  /** Every document, trashed or not, is at the root or in an existing folder of its own tenant. */
  predicate InPlace(t: Table, docs: Docs) {
    forall d :: d in docs ==> FolderExists(t, docs[d].tenant, docs[d].folder)
  }

  // ---------- Operations on documents ----------

  /** An UPDATE or INSERT: refused as a whole when it breaks the unique index. */
  function Commit(docs': Docs, refusal: DocError): Result<Docs, DocError> {
    if FilesDiffer(docs') then Ok(docs') else Err(refusal)
  }

  function Upload(t: Table, docs: Docs, tenant: TenantId, folder: Option<Id>, filename: string, newId: Id): Result<Docs, DocError> {
    if !FolderExists(t, tenant, folder) then Err(DocBadRequest)
    else if newId in docs then Err(DocConflict)
    else Commit(docs[newId := Doc(tenant, folder, filename, false)], DocConflict)
  }

  /** An upload of known contents takes the existing document out of the trash, without looking at its folder. */
  function Reuse(docs: Docs, tenant: TenantId, id: Id): Result<Docs, DocError> {
    if id !in docs || docs[id].tenant != tenant then Err(DocNotFound)
    else if !docs[id].trashed then Ok(docs)
    else Commit(docs[id := docs[id].(trashed := false)], DocDatabase)
  }

  function Trash(docs: Docs, tenant: TenantId, id: Id): Result<Docs, DocError> {
    if id !in docs || docs[id].tenant != tenant then Err(DocNotFound)
    else if docs[id].trashed then Err(DocConflict)
    else Ok(docs[id := docs[id].(trashed := true)])
  }

  function Restore(t: Table, docs: Docs, tenant: TenantId, id: Id, folder: Option<Id>): Result<Docs, DocError> {
    if id !in docs || docs[id].tenant != tenant then Err(DocNotFound)
    else if !docs[id].trashed then Ok(docs)
    else if !FolderExists(t, tenant, folder) then Err(DocBadRequest)
    else
      var target := if folder.Some? then folder
                    else if FolderExists(t, tenant, docs[id].folder) then docs[id].folder
                    else None;
      Commit(docs[id := docs[id].(trashed := false, folder := target)], DocDatabase)
  }

  /** Moving a document that is not there updates no row and reports success. */
  function Move(t: Table, docs: Docs, tenant: TenantId, id: Id, folder: Option<Id>): Result<Docs, DocError> {
    if !FolderExists(t, tenant, folder) then Err(DocBadRequest)
    else if id !in docs || docs[id].tenant != tenant then Ok(docs)
    else Commit(docs[id := docs[id].(folder := folder)], DocDatabase)
  }

  function MoveAll(docs: Docs, ids: set<Id>, folder: Option<Id>): (r: Docs)
    ensures r.Keys == docs.Keys
  {
    map d | d in docs :: if d in ids then docs[d].(folder := folder) else docs[d]
  }

  function BulkMove(t: Table, docs: Docs, tenant: TenantId, ids: seq<Id>, folder: Option<Id>): Result<Docs, DocError> {
    if ids == [] then Err(DocBadRequest)
    else if !FolderExists(t, tenant, folder) then Err(DocBadRequest)
    else if exists d :: d in ids && (d !in docs || docs[d].tenant != tenant) then Err(DocBadRequest)
    else if exists d :: d in ids && d in docs && docs[d].trashed then Err(DocBadRequest)
    else Commit(MoveAll(docs, Elems(ids), folder), DocConflict)
  }

  function Purge(docs: Docs, id: Id): Docs {
    if id in docs && docs[id].trashed then docs - {id} else docs
  }

  /** The folder holds an active document, so deleting it is refused. */
  predicate HoldsActive(docs: Docs, tenant: TenantId, folder: Id) {
    exists d :: d in docs && docs[d].tenant == tenant && docs[d].folder == Some(folder) && !docs[d].trashed
  }

  /** ON DELETE SET NULL on documents.folder_id. */
  function Unfile(docs: Docs, folder: Id): (r: Docs)
    ensures r.Keys == docs.Keys
  {
    map d | d in docs :: if docs[d].folder == Some(folder) then docs[d].(folder := None) else docs[d]
  }

  // ---------- The store ----------

  /** The method answered as the table function did, and changed the table only on success. */
  predicate Outcome(spec: Result<Docs, DocError>, before: Docs, after: Docs, r: Result<(), DocError>) {
    match spec
    case Ok(docs) => after == docs && r.Ok?
    case Err(e) => after == before && r == Err(e)
  }

  class DocumentStore {
    var folders: Table
    var docs: Docs

    ghost predicate Valid()
      reads this
    {
      Sound(folders) && InPlace(folders, docs) && FilesDiffer(docs)
    }

    constructor ()
      ensures Valid() && folders == map[] && docs == map[]
    {
      EmptyTableIsForest();
      folders := map[];
      docs := map[];
    }

    method Write(next: Docs, refusal: DocError) returns (r: Result<(), DocError>)
      requires Valid() && InPlace(folders, next)
      modifies this`docs
      ensures Valid()
      ensures Outcome(Commit(next, refusal), old(docs), docs, r)
    {
      if exists x, y :: x in next && y in next && FileClash(next, x, y) {
        return Err(refusal);
      }
      docs := next;
      return Ok(());
    }

    method TrashDocument(tenant: TenantId, id: Id) returns (r: Result<(), DocError>)
      requires Valid()
      modifies this`docs
      ensures Valid()
      ensures Outcome(Trash(old(docs), tenant, id), old(docs), docs, r)
    {
      if id !in docs || docs[id].tenant != tenant {
        return Err(DocNotFound);
      }
      if docs[id].trashed {
        return Err(DocConflict);
      }
      TrashKeepsFiles(docs, id);
      docs := docs[id := docs[id].(trashed := true)];
      return Ok(());
    }

    method RestoreDocument(tenant: TenantId, id: Id, folder: Option<Id>) returns (r: Result<(), DocError>)
      requires Valid()
      modifies this`docs
      ensures Valid()
      ensures Outcome(Restore(folders, old(docs), tenant, id, folder), old(docs), docs, r)
    {
      if id !in docs || docs[id].tenant != tenant {
        return Err(DocNotFound);
      }
      var document := docs[id];
      if !document.trashed {
        return Ok(());
      }
      if folder.Some? {
        if !FolderExists(folders, tenant, folder) {
          return Err(DocBadRequest);
        }
        document := document.(folder := folder);
      } else if document.folder.Some? {
        if !FolderExists(folders, tenant, document.folder) {
          document := document.(folder := None);
        }
      }
      r := Write(docs[id := document.(trashed := false)], DocDatabase);
    }

    method MoveDocument(tenant: TenantId, id: Id, folder: Option<Id>) returns (r: Result<(), DocError>)
      requires Valid()
      modifies this`docs
      ensures Valid()
      ensures Outcome(Move(folders, old(docs), tenant, id, folder), old(docs), docs, r)
    {
      if !FolderExists(folders, tenant, folder) {
        return Err(DocBadRequest);
      }
      if id !in docs || docs[id].tenant != tenant {
        return Ok(());
      }
      r := Write(docs[id := docs[id].(folder := folder)], DocDatabase);
    }

    method BulkMoveDocuments(tenant: TenantId, ids: seq<Id>, folder: Option<Id>) returns (r: Result<(), DocError>)
      requires Valid()
      modifies this`docs
      ensures Valid()
      ensures Outcome(BulkMove(folders, old(docs), tenant, ids, folder), old(docs), docs, r)
    {
      if ids == [] || !FolderExists(folders, tenant, folder) {
        return Err(DocBadRequest);
      }
      if exists d :: d in ids && (d !in docs || docs[d].tenant != tenant) {
        return Err(DocBadRequest);
      }
      if exists d :: d in ids && d in docs && docs[d].trashed {
        return Err(DocBadRequest);
      }
      r := Write(MoveAll(docs, Elems(ids), folder), DocConflict);
    }
  }

  lemma TrashKeepsFiles(docs: Docs, id: Id)
    requires FilesDiffer(docs) && id in docs
    ensures FilesDiffer(docs[id := docs[id].(trashed := true)])
  {
    var docs' := docs[id := docs[id].(trashed := true)];
    forall x, y | x in docs' && y in docs'
      ensures !FileClash(docs', x, y)
    {
      assert !FileClash(docs, x, y);
    }
  }

  // ---------- Where a document is after a call ----------

  /** No other active document of the tenant has this name in this folder. */
  predicate PlaceFree(docs: Docs, tenant: TenantId, folder: Option<Id>, filename: string, id: Id) {
    forall y :: y in docs && y != id && !docs[y].trashed && docs[y].tenant == tenant && docs[y].folder == folder ==>
                  docs[y].filename != filename
  }

  lemma PutKeepsFilesExactly(docs: Docs, id: Id, d: Doc)
    requires FilesDiffer(docs)
    ensures FilesDiffer(docs[id := d]) <==> d.trashed || PlaceFree(docs, d.tenant, d.folder, d.filename, id)
  {
    var docs' := docs[id := d];
    forall x, y | x in docs' && y in docs' && x != id && y != id
      ensures !FileClash(docs', x, y)
    {
      assert !FileClash(docs, x, y);
    }
    if FilesDiffer(docs') && !d.trashed {
      forall y | y in docs && y != id
        ensures !docs[y].trashed && docs[y].tenant == d.tenant && docs[y].folder == d.folder ==> docs[y].filename != d.filename
      {
        assert !FileClash(docs', id, y);
      }
    }
  }

  /** An upload succeeds exactly into an existing folder of the tenant, under a new id and a free name, and adds that document. */
  lemma UploadExactly(t: Table, docs: Docs, tenant: TenantId, folder: Option<Id>, filename: string, newId: Id)
    requires FilesDiffer(docs)
    ensures Upload(t, docs, tenant, folder, filename, newId).Ok? <==>
              FolderExists(t, tenant, folder) && newId !in docs && PlaceFree(docs, tenant, folder, filename, newId)
    ensures Upload(t, docs, tenant, folder, filename, newId).Ok? ==>
              Upload(t, docs, tenant, folder, filename, newId).value == docs[newId := Doc(tenant, folder, filename, false)]
  {
    PutKeepsFilesExactly(docs, newId, Doc(tenant, folder, filename, false));
  }

  /** The document is active afterwards, in this folder, with its name; no other document changes. */
  predicate ActiveIn(docs: Docs, docs': Docs, id: Id, folder: Option<Id>) {
    && id in docs && id in docs' && !docs'[id].trashed && docs'[id].folder == folder
    && docs'[id].filename == docs[id].filename && docs'[id].tenant == docs[id].tenant
    && docs' - {id} == docs - {id}
  }

  /** A restore puts the document into the folder asked for, else back into its own if that is still there, else at the root. */
  lemma RestoredWhere(t: Table, docs: Docs, tenant: TenantId, id: Id, folder: Option<Id>)
    requires FilesDiffer(docs) && id in docs && docs[id].tenant == tenant && docs[id].trashed
    ensures var own := docs[id].folder;
            var target := if folder.Some? then folder
                          else if own.Some? && own.value in t && t[own.value].tenant == tenant then own
                          else None;
            && (Restore(t, docs, tenant, id, folder).Ok? <==>
                  FolderExists(t, tenant, folder) && PlaceFree(docs, tenant, target, docs[id].filename, id))
            && (Restore(t, docs, tenant, id, folder).Ok? ==> ActiveIn(docs, Restore(t, docs, tenant, id, folder).value, id, target))
  {
    var target := if folder.Some? then folder else if FolderExists(t, tenant, docs[id].folder) then docs[id].folder else None;
    PutKeepsFilesExactly(docs, id, docs[id].(trashed := false, folder := target));
  }

  /** A reused document is active again and where it was. */
  lemma ReusedWhere(docs: Docs, tenant: TenantId, id: Id)
    requires FilesDiffer(docs) && id in docs && docs[id].tenant == tenant
    ensures Reuse(docs, tenant, id).Ok? <==> !docs[id].trashed || PlaceFree(docs, tenant, docs[id].folder, docs[id].filename, id)
    ensures Reuse(docs, tenant, id).Ok? ==> ActiveIn(docs, Reuse(docs, tenant, id).value, id, docs[id].folder)
  {
    PutKeepsFilesExactly(docs, id, docs[id].(trashed := false));
  }

  /** A move changes the folder and nothing else; only an active document can meet a name already taken. */
  lemma MovedWhere(t: Table, docs: Docs, tenant: TenantId, id: Id, folder: Option<Id>)
    requires FilesDiffer(docs) && id in docs && docs[id].tenant == tenant
    ensures Move(t, docs, tenant, id, folder).Ok? <==>
              FolderExists(t, tenant, folder) && (docs[id].trashed || PlaceFree(docs, tenant, folder, docs[id].filename, id))
    ensures Move(t, docs, tenant, id, folder).Ok? ==>
              Move(t, docs, tenant, id, folder).value == docs[id := Doc(tenant, folder, docs[id].filename, docs[id].trashed)]
  {
    PutKeepsFilesExactly(docs, id, docs[id].(folder := folder));
  }

  // ---------- What one call undoes ----------

  /** Trashing a document and restoring it where it was gives back the table. */
  lemma TrashRestoreRoundTrip(t: Table, docs: Docs, tenant: TenantId, id: Id)
    requires InPlace(t, docs) && FilesDiffer(docs)
    requires Trash(docs, tenant, id).Ok?
    ensures Restore(t, Trash(docs, tenant, id).value, tenant, id, None) == Ok(docs)
  {
    assert docs[id := docs[id].(trashed := true)][id := docs[id]] == docs;
    assert FolderExists(t, tenant, docs[id].folder);
  }

  /** Moving a document and moving it back gives back the table. */
  lemma MoveBackRoundTrip(t: Table, docs: Docs, tenant: TenantId, id: Id, folder: Option<Id>)
    requires InPlace(t, docs) && FilesDiffer(docs) && id in docs && docs[id].tenant == tenant
    requires Move(t, docs, tenant, id, folder).Ok?
    ensures Move(t, Move(t, docs, tenant, id, folder).value, tenant, id, docs[id].folder) == Ok(docs)
  {
    assert docs[id := docs[id].(folder := folder)][id := docs[id]] == docs;
    assert FolderExists(t, tenant, docs[id].folder);
  }

  function MoveEach(t: Table, docs: Docs, tenant: TenantId, ids: seq<Id>, folder: Option<Id>): Result<Docs, DocError>
    decreases |ids|
  {
    if ids == [] then Ok(docs)
    else
      match Move(t, docs, tenant, ids[0], folder)
      case Err(e) => Err(e)
      case Ok(next) => MoveEach(t, next, tenant, ids[1..], folder)
  }

  lemma MoveAllSplits(docs: Docs, ids: seq<Id>, folder: Option<Id>)
    requires ids != [] && ids[0] in docs
    ensures MoveAll(docs, Elems(ids), folder) == MoveAll(docs[ids[0] := docs[ids[0]].(folder := folder)], Elems(ids[1..]), folder)
  {
    assert Elems(ids) == {ids[0]} + Elems(ids[1..]) by {
      assert ids == [ids[0]] + ids[1..];
    }
  }

  /** Moving some of the documents clashes with nothing if moving all of them does not. */
  lemma MovingFewerClashesNot(docs: Docs, few: set<Id>, all: set<Id>, folder: Option<Id>)
    requires FilesDiffer(docs) && few <= all && FilesDiffer(MoveAll(docs, all, folder))
    ensures FilesDiffer(MoveAll(docs, few, folder))
  {
    var docs' := MoveAll(docs, few, folder);
    forall x, y | x in docs' && y in docs'
      ensures !FileClash(docs', x, y)
    {
      assert !FileClash(docs, x, y) && !FileClash(MoveAll(docs, all, folder), x, y);
    }
  }

  /** A bulk move succeeds exactly when moving the documents one after another does, and leaves the same table. */
  lemma {:induction false} BulkMoveIsMoves(t: Table, docs: Docs, tenant: TenantId, ids: seq<Id>, folder: Option<Id>)
    requires FilesDiffer(docs) && FolderExists(t, tenant, folder)
    requires forall d :: d in ids ==> d in docs && docs[d].tenant == tenant && !docs[d].trashed
    ensures FilesDiffer(MoveAll(docs, Elems(ids), folder)) <==> MoveEach(t, docs, tenant, ids, folder).Ok?
    ensures MoveEach(t, docs, tenant, ids, folder).Ok? ==>
              MoveEach(t, docs, tenant, ids, folder).value == MoveAll(docs, Elems(ids), folder)
    ensures ids != [] ==> (BulkMove(t, docs, tenant, ids, folder).Ok? <==> MoveEach(t, docs, tenant, ids, folder).Ok?)
    decreases |ids|
  {
    if ids == [] {
      assert MoveAll(docs, Elems(ids), folder) == docs;
    } else {
      var first := docs[ids[0] := docs[ids[0]].(folder := folder)];
      MoveAllSplits(docs, ids, folder);
      assert first == MoveAll(docs, {ids[0]}, folder);
      if FilesDiffer(MoveAll(docs, Elems(ids), folder)) {
        MovingFewerClashesNot(docs, {ids[0]}, Elems(ids), folder);
      }
      if FilesDiffer(first) {
        BulkMoveIsMoves(t, first, tenant, ids[1..], folder);
      }
    }
  }

  /** A bulk move is accepted exactly for active documents of the tenant that could be moved there one after another. */
  lemma BulkMoveExactly(t: Table, docs: Docs, tenant: TenantId, ids: seq<Id>, folder: Option<Id>)
    requires FilesDiffer(docs)
    ensures BulkMove(t, docs, tenant, ids, folder).Ok? <==>
              && ids != [] && (forall d :: d in ids ==> d in docs && docs[d].tenant == tenant && !docs[d].trashed)
              && MoveEach(t, docs, tenant, ids, folder).Ok?
    ensures BulkMove(t, docs, tenant, ids, folder).Ok? ==>
              BulkMove(t, docs, tenant, ids, folder) == MoveEach(t, docs, tenant, ids, folder)
  {
    if FolderExists(t, tenant, folder) && forall d :: d in ids ==> d in docs && docs[d].tenant == tenant && !docs[d].trashed {
      BulkMoveIsMoves(t, docs, tenant, ids, folder);
    }
  }

  // ---------- Runs over both tables ----------

  datatype Action =
    | UploadDoc(tenant: TenantId, folder: Option<Id>, filename: string, newId: Id)
    | ReuseDoc(tenant: TenantId, id: Id)
    | TrashDoc(tenant: TenantId, id: Id)
    | RestoreDoc(tenant: TenantId, id: Id, folder: Option<Id>)
    | MoveDoc(tenant: TenantId, id: Id, folder: Option<Id>)
    | BulkMoveDocs(tenant: TenantId, ids: seq<Id>, folder: Option<Id>)
    | PurgeDoc(id: Id)
    | FolderAction(op: Op)

  datatype State = State(folders: Table, docs: Docs)

  ghost predicate Good(s: State) {
    Sound(s.folders) && InPlace(s.folders, s.docs) && FilesDiffer(s.docs)
  }

  /** In a folder deletion `holdsDocuments` is what the query over the documents answers. */
  ghost predicate Faithful(s: State, a: Action) {
    a.FolderAction? ==>
      WellFormed(a.op) && (a.op.DeleteOp? ==> a.op.holdsDocuments == HoldsActive(s.docs, a.op.tenant, a.op.id))
  }

  function DocsAfter(r: Result<Docs, DocError>, before: Docs): Docs {
    match r case Ok(docs) => docs case Err(_) => before
  }

  ghost function Perform(s: State, a: Action): State
    requires Good(s) && Faithful(s, a)
  {
    match a
    case UploadDoc(tenant, folder, filename, newId) =>
      s.(docs := DocsAfter(Upload(s.folders, s.docs, tenant, folder, filename, newId), s.docs))
    case ReuseDoc(tenant, id) => s.(docs := DocsAfter(Reuse(s.docs, tenant, id), s.docs))
    case TrashDoc(tenant, id) => s.(docs := DocsAfter(Trash(s.docs, tenant, id), s.docs))
    case RestoreDoc(tenant, id, folder) => s.(docs := DocsAfter(Restore(s.folders, s.docs, tenant, id, folder), s.docs))
    case MoveDoc(tenant, id, folder) => s.(docs := DocsAfter(Move(s.folders, s.docs, tenant, id, folder), s.docs))
    case BulkMoveDocs(tenant, ids, folder) => s.(docs := DocsAfter(BulkMove(s.folders, s.docs, tenant, ids, folder), s.docs))
    case PurgeDoc(id) => s.(docs := Purge(s.docs, id))
    case FolderAction(op) =>
      if Apply(s.folders, op).Err? then s
      else if op.DeleteOp? then State(Step(s.folders, op), Unfile(s.docs, op.id))
      else s.(folders := Step(s.folders, op))
  }

  lemma FolderStepKeepsTenants(t: Table, op: Op, x: Id)
    requires Sound(t) && WellFormed(op) && x in t
    ensures !(op.DeleteOp? && Apply(t, op).Ok? && op.id == x) ==> x in Step(t, op) && Step(t, op)[x].tenant == t[x].tenant
  {
    if Apply(t, op).Ok? {
      match op
      case CreateOp(tenant, parent, raw, newId) =>
        NormalFolderName(raw);
        EnsureChildKeepsSound(t, tenant, parent, NormalizeFolderName(raw).value, newId);
      case EnsureOp(tenant, parent, segments, newIds) =>
        EnsureSegmentsKeepsSound(t, tenant, parent, segments, newIds);
      case UpdateOp(tenant, id, parentField, nameField) =>
        UpdateKeepsSound(t, tenant, id, parentField, nameField);
      case DeleteOp(tenant, id, holdsDocuments) =>
    }
  }

  /** Clearing the folder of the deleted folder's documents touches trashed documents only. */
  lemma UnfileKeepsFiles(t: Table, docs: Docs, tenant: TenantId, folder: Id)
    requires InPlace(t, docs) && FilesDiffer(docs) && folder in t && t[folder].tenant == tenant
    requires !HoldsActive(docs, tenant, folder)
    ensures FilesDiffer(Unfile(docs, folder))
    ensures forall d :: d in docs && !docs[d].trashed ==> Unfile(docs, folder)[d] == docs[d]
  {
    var docs' := Unfile(docs, folder);
    forall d | d in docs && !docs[d].trashed
      ensures docs'[d] == docs[d]
    {
      assert FolderExists(t, docs[d].tenant, docs[d].folder);
    }
    forall x, y | x in docs' && y in docs'
      ensures !FileClash(docs', x, y)
    {
      assert !FileClash(docs, x, y);
    }
  }

  lemma PerformKeepsGood(s: State, a: Action)
    requires Good(s) && Faithful(s, a)
    ensures Good(Perform(s, a))
  {
    var s' := Perform(s, a);
    match a
    case TrashDoc(tenant, id) =>
      if Trash(s.docs, tenant, id).Ok? {
        TrashKeepsFiles(s.docs, id);
      }
    case PurgeDoc(id) =>
      forall x, y | x in s'.docs && y in s'.docs
        ensures !FileClash(s'.docs, x, y)
      {
        assert !FileClash(s.docs, x, y);
      }
    case FolderAction(op) =>
      if Apply(s.folders, op).Ok? {
        if op.DeleteOp? {
          UnfileKeepsFiles(s.folders, s.docs, op.tenant, op.id);
        }
        forall d | d in s'.docs
          ensures FolderExists(s'.folders, s'.docs[d].tenant, s'.docs[d].folder)
        {
          assert FolderExists(s.folders, s.docs[d].tenant, s.docs[d].folder);
          if s'.docs[d].folder.Some? {
            FolderStepKeepsTenants(s.folders, op, s'.docs[d].folder.value);
          }
        }
      }
    case _ =>
  }

  /**
   What one call does to one document: it goes exactly when it is purged from the
   trash, comes exactly with its upload, and is in the trash or back exactly by a
   call for it. Its name and tenant never change.
   */
  lemma LifecycleExactly(s: State, a: Action, d: Id)
    requires Good(s) && Faithful(s, a)
    ensures var docs, docs' := s.docs, Perform(s, a).docs;
            && (d in docs ==> (d !in docs' <==> a == PurgeDoc(d) && docs[d].trashed))
            && (d !in docs ==>
                  (d in docs' <==> a.UploadDoc? && a.newId == d && FolderExists(s.folders, a.tenant, a.folder)
                                   && PlaceFree(docs, a.tenant, a.folder, a.filename, d)))
            && (d in docs && d in docs' ==>
                  && docs'[d].tenant == docs[d].tenant && docs'[d].filename == docs[d].filename
                  && (!docs[d].trashed ==> (docs'[d].trashed <==> a == TrashDoc(docs[d].tenant, d)))
                  && (docs[d].trashed ==> (!docs'[d].trashed <==> BringsBack(s, a, d))))
  {
    match a
    case UploadDoc(tenant, folder, filename, newId) => UploadExactly(s.folders, s.docs, tenant, folder, filename, newId);
    case _ =>
  }

  /** A call that takes the document out of the trash, and is accepted. */
  predicate BringsBack(s: State, a: Action, d: Id)
    requires d in s.docs
  {
    || (a.RestoreDoc? && a.id == d && Restore(s.folders, s.docs, a.tenant, d, a.folder).Ok? && a.tenant == s.docs[d].tenant)
    || (a.ReuseDoc? && a.id == d && Reuse(s.docs, a.tenant, d).Ok? && a.tenant == s.docs[d].tenant)
  }

  /** A folder goes exactly when no folder and no active document is in it, and leaves trashed documents at the root. */
  lemma FolderDeletedExactly(s: State, tenant: TenantId, id: Id)
    requires Good(s) && Forest(s.folders)
    ensures var s' := Perform(s, FolderAction(DeleteOp(tenant, id, HoldsActive(s.docs, tenant, id))));
            && (id in s.folders && id !in s'.folders <==>
                  && id in s.folders && s.folders[id].tenant == tenant
                  && (forall x :: x in s.folders ==> s.folders[x].parent != Some(id))
                  && forall d :: d in s.docs && s.docs[d].folder == Some(id) ==> s.docs[d].trashed)
            && (id !in s'.folders ==>
                  forall d :: d in s.docs ==>
                    d in s'.docs && s'.docs[d] == if s.docs[d].folder == Some(id) then s.docs[d].(folder := None) else s.docs[d])
  {
    var holds := HoldsActive(s.docs, tenant, id);
    DeleteSucceedsExactly(s.folders, tenant, id, holds);
    if id in s.folders && s.folders[id].tenant == tenant {
      forall d | d in s.docs && s.docs[d].folder == Some(id)
        ensures s.docs[d].tenant == tenant
      {
        assert FolderExists(s.folders, s.docs[d].tenant, s.docs[d].folder);
      }
    } else if id !in s.folders {
      forall d | d in s.docs
        ensures s.docs[d].folder != Some(id)
      {
        assert FolderExists(s.folders, s.docs[d].tenant, s.docs[d].folder);
      }
    }
  }

  ghost predicate FaithfulRun(s: State, actions: seq<Action>)
    requires Good(s)
    decreases |actions|
  {
    actions != [] ==>
      && Faithful(s, actions[0])
      && (PerformKeepsGood(s, actions[0]); FaithfulRun(Perform(s, actions[0]), actions[1..]))
  }

  ghost function PerformAll(s: State, actions: seq<Action>): (s': State)
    requires Good(s) && FaithfulRun(s, actions)
    decreases |actions|
  {
    if actions == [] then s
    else PerformKeepsGood(s, actions[0]); PerformAll(Perform(s, actions[0]), actions[1..])
  }

  /**
   After every serial run from empty tables each document is at the root or in an
   existing folder of its tenant, and active file names are unique per folder.
   */
  lemma {:induction false} DocumentsStayPlaced(s: State, actions: seq<Action>)
    requires Good(s) && FaithfulRun(s, actions)
    ensures Good(PerformAll(s, actions))
    decreases |actions|
  {
    if actions != [] {
      PerformKeepsGood(s, actions[0]);
      DocumentsStayPlaced(Perform(s, actions[0]), actions[1..]);
    }
  }
}

/**
 Permanent deletion of documents: trash, restore and delete requests
 (backend/src/services/documents.rs) interleaved with the purge jobs they lead to
 (backend/src/workers/purge.rs). A purge prepares, deletes objects one by one and
 finalizes; it may report an error at any point, after which it is tried again,
 or lose its worker, after which nobody touches its job (module Jobs).

 Deleting an object that is not there succeeds. Ids are never drawn twice.
*/
module Purge {
  import opened Common
  import opened StoragePaths
  import Jobs

  datatype Version = Version(document: Uuid, number: int)

  datatype Asset = Asset(version: Uuid, kind: string)

  /** Where the pending purge job of a document is. Running keeps the keys it read and those still to delete. */
  datatype Phase =
    | Queued
    | Reserved  // a worker has it and has not prepared yet
    | Running(keys: set<string>, left: set<string>)
    | Ended     // the execution is over, the job is not marked yet
    | Abandoned // still marked as processing, and its worker is gone

  datatype State = State(
    trashed: map<Uuid, bool>,      // the document rows
    versions: map<Uuid, Version>,
    assets: map<Uuid, Asset>,
    stored: set<string>,           // the keys of the object store
    jobs: map<Uuid, Phase>,        // the pending purge jobs; the index allows one a document
    requested: set<Uuid>,          // documents whose deletion was ever accepted
    drawn: set<Uuid>)              // every id used so far

  function EmptyState(): State {
    State(map[], map[], map[], {}, map[], {}, {})
  }

  function VersionKey(s: State, v: Uuid): string
    requires v in s.versions
  {
    KeyOf(VersionObject(s.versions[v].document, s.versions[v].number, v))
  }

  predicate AssetOf(s: State, a: Uuid, d: Uuid) {
    a in s.assets && s.assets[a].version in s.versions && s.versions[s.assets[a].version].document == d
  }

  function AssetKeyOf(s: State, a: Uuid): string
    requires a in s.assets && s.assets[a].version in s.versions
  {
    var v := s.versions[s.assets[a].version];
    KeyOf(AssetObject(v.document, v.number, s.assets[a].kind, a))
  }

  /** The object keys named by the rows of document d. */
  function Keys(s: State, d: Uuid): set<string> {
    (set v | v in s.versions && s.versions[v].document == d :: VersionKey(s, v))
    + (set a | a in s.assets && AssetOf(s, a, d) :: AssetKeyOf(s, a))
  }

  // ---------- Steps ----------

  datatype Step =
    | Upload(document: Uuid, version: Uuid)
    | WriteAsset(version: Uuid, asset: Uuid, kind: string)
    | Trash(document: Uuid)
    | Restore(document: Uuid)
    | Request(document: Uuid)
    | Reserve(document: Uuid)
    | Prepare(document: Uuid)
    | DeleteObject(document: Uuid, key: string)
    | Retry(document: Uuid)       // an error is reported, be it of a commit that did happen
    | Finalize(document: Uuid)
    | MarkSucceeded(document: Uuid)
    | MarkFailed(document: Uuid)  // before an execution starts: an unreadable payload, no storage, no active tenant
    | Crash(document: Uuid)       // the worker is gone, or has no connection left to mark the job with

  predicate IsRunning(s: State, d: Uuid) {
    d in s.jobs && s.jobs[d].Running?
  }

  /** A worker has the job. */
  predicate IsHeld(s: State, d: Uuid) {
    d in s.jobs && (s.jobs[d].Reserved? || s.jobs[d].Running? || s.jobs[d].Ended?)
  }

  predicate Enabled(s: State, step: Step) {
    match step
    case Upload(d, v) => d != v && d !in s.drawn && v !in s.drawn
    case WriteAsset(v, a, _) => v in s.versions && a !in s.drawn
    case Trash(d) => d in s.trashed && !s.trashed[d]
    case Restore(d) => d in s.trashed
    case Request(d) => d in s.trashed && s.trashed[d]
    case Reserve(d) => d in s.jobs && s.jobs[d].Queued?
    case Prepare(d) => d in s.jobs && s.jobs[d].Reserved?
    case DeleteObject(d, k) => IsRunning(s, d) && k in s.jobs[d].left
    case Retry(d) => IsHeld(s, d)
    case Finalize(d) => IsRunning(s, d) && s.jobs[d].left == {}
    case MarkSucceeded(d) => d in s.jobs && s.jobs[d].Ended?
    case MarkFailed(d) => d in s.jobs && s.jobs[d].Reserved?
    case Crash(d) => IsHeld(s, d)
  }

  /** Deleting the document row takes its version and asset rows along. */
  function RemoveRows(s: State, d: Uuid): State {
    s.(trashed := s.trashed - {d},
       versions := map v | v in s.versions && s.versions[v].document != d :: s.versions[v],
       assets := map a | a in s.assets && !AssetOf(s, a, d) :: s.assets[a])
  }

  predicate InTrash(s: State, d: Uuid) {
    d in s.trashed && s.trashed[d]
  }

  function Next(s: State, step: Step): State
    requires Enabled(s, step)
  {
    match step
    case Upload(d, v) =>
      s.(trashed := s.trashed[d := false],
         versions := s.versions[v := Version(d, 1)],
         stored := s.stored + {KeyOf(VersionObject(d, 1, v))},
         drawn := s.drawn + {d, v})
    case WriteAsset(v, a, kind) =>
      s.(assets := s.assets[a := Asset(v, kind)],
         stored := s.stored + {KeyOf(AssetObject(s.versions[v].document, s.versions[v].number, kind, a))},
         drawn := s.drawn + {a})
    case Trash(d) => s.(trashed := s.trashed[d := true])
    case Restore(d) => s.(trashed := s.trashed[d := false])
    case Request(d) =>
      s.(jobs := if d in s.jobs then s.jobs else s.jobs[d := Queued], requested := s.requested + {d})
    case Reserve(d) => s.(jobs := s.jobs[d := Reserved])
    case Prepare(d) => s.(jobs := s.jobs[d := if InTrash(s, d) then Running(Keys(s, d), Keys(s, d)) else Ended])
    case DeleteObject(d, k) =>
      s.(stored := s.stored - {k}, jobs := s.jobs[d := s.jobs[d].(left := s.jobs[d].left - {k})])
    case Retry(d) => s.(jobs := s.jobs[d := Queued])
    case Finalize(d) =>
      var s' := s.(jobs := s.jobs[d := Ended]);
      if InTrash(s, d) then RemoveRows(s', d) else s'
    case MarkSucceeded(d) => s.(jobs := s.jobs - {d})
    case MarkFailed(d) => s.(jobs := s.jobs - {d})
    case Crash(d) => s.(jobs := s.jobs[d := Abandoned])
  }

  // ---------- The job table ----------

  /** What the job table shows of the purge of a document. */
  function InJobTable(s: State, d: Uuid): Jobs.PurgePhase {
    if d !in s.jobs then Jobs.Absent
    else if s.jobs[d].Queued? then Jobs.Waiting
    else if s.jobs[d].Abandoned? then Jobs.Stuck
    else Jobs.Held
  }

  /** The purge jobs of this module move only as the jobs of the table can. */
  lemma JobsMoveAsInTable(s: State, step: Step, d: Uuid)
    requires Enabled(s, step)
    ensures Jobs.Moves(InJobTable(s, d), InJobTable(Next(s, step), d))
  {
  }

  // ---------- The invariant ----------

  /** The key of an object made of ids drawn so far. */
  ghost predicate Drawn(s: State, d: Uuid, k: string) {
    exists o: Object :: o.document == d && k == KeyOf(o) && (if o.VersionObject? then o.version else o.asset) in s.drawn
  }

  ghost predicate RowsDrawn(s: State) {
    && s.trashed.Keys <= s.drawn && s.versions.Keys <= s.drawn && s.assets.Keys <= s.drawn
    && (forall v :: v in s.versions ==> s.versions[v].document in s.trashed)
    && (forall a :: a in s.assets ==> s.assets[a].version in s.versions)
  }

  ghost predicate AttemptOk(s: State, d: Uuid)
    requires IsRunning(s, d)
  {
    var attempt := s.jobs[d];
    && attempt.left <= attempt.keys
    && (forall k :: k in attempt.keys && k !in attempt.left ==> k !in s.stored)
    && (forall k :: k in attempt.keys ==> Drawn(s, d, k))
    && (d in s.trashed ==> attempt.keys <= Keys(s, d))
  }

  ghost predicate Inv(s: State) {
    && RowsDrawn(s)
    && s.jobs.Keys <= s.requested && s.requested <= s.drawn
    && forall d :: IsRunning(s, d) ==> AttemptOk(s, d)
  }

  lemma InitialInv()
    ensures Inv(EmptyState())
  {
  }

  /** Rows of different documents name different objects. */
  lemma KeysDisjoint(s: State, d: Uuid, e: Uuid, k: string)
    requires Drawn(s, d, k) && RowsDrawn(s) && k in Keys(s, e)
    ensures d == e
  {
    KeysAreDrawn(s, e, k);
    var p: Object :| p.document == d && k == KeyOf(p);
    var q: Object :| q.document == e && k == KeyOf(q);
    KeyInjective(p, q);
  }

  /** A key made of drawn ids never comes back into the store. */
  lemma GoneStaysGone(s: State, step: Step, d: Uuid, k: string)
    requires RowsDrawn(s) && Enabled(s, step) && Drawn(s, d, k) && k !in s.stored
    ensures k !in Next(s, step).stored
  {
    match step
    case Upload(e, v) => NewKeyIsNew(s, d, k, VersionObject(e, 1, v));
    case WriteAsset(v, a, kind) => NewKeyIsNew(s, d, k, AssetObject(s.versions[v].document, s.versions[v].number, kind, a));
    case _ =>
  }

  /** Every step keeps the invariant. */
  lemma StepKeepsInv(s: State, step: Step)
    requires Inv(s) && Enabled(s, step)
    ensures Inv(Next(s, step))
  {
    var s' := Next(s, step);
    forall d | IsRunning(s', d)
      ensures AttemptOk(s', d)
    {
      if d in s.jobs && s'.jobs[d] == s.jobs[d] {
        OtherAttemptOk(s, step, d);
      } else {
        ChangedAttemptOk(s, step, d);
      }
    }
  }

  // ---------- Safety of every step ----------

  /**
   A row disappears only by the finalize of its own purge, only while it is in
   the trash, and only if its deletion was requested.
   */
  lemma RemovedOnlyFromTrash(s: State, step: Step, d: Uuid)
    requires Inv(s) && Enabled(s, step) && d in s.trashed && d !in Next(s, step).trashed
    ensures step == Finalize(d) && s.trashed[d] && d in s.requested
  {
  }

  /** The object keys written for the document after its purge read its rows. */
  function LateKeys(s: State, d: Uuid): set<string>
    requires IsRunning(s, d)
  {
    Keys(s, d) - s.jobs[d].keys
  }

  /** At the finalize the objects still stored are among those the purge did not read. */
  lemma RemovedCleanExactly(s: State, d: Uuid)
    requires Inv(s) && Enabled(s, Finalize(d)) && InTrash(s, d)
    ensures d !in Next(s, Finalize(d)).trashed
    ensures Keys(s, d) !! s.stored <==> LateKeys(s, d) !! s.stored
  {
    assert AttemptOk(s, d);
    assert forall k :: k in Keys(s, d) ==> k in LateKeys(s, d) || k in s.jobs[d].keys;
  }

  /** While no asset is written for the document, the rows name exactly the keys the purge read. */
  lemma NoLateKeys(s: State, step: Step, d: Uuid)
    requires Inv(s) && Enabled(s, step) && IsRunning(s, d) && IsRunning(Next(s, step), d)
    requires LateKeys(s, d) == {} && d in s.trashed
    requires step.WriteAsset? ==> s.versions[step.version].document != d
    ensures LateKeys(Next(s, step), d) == {}
  {
    var s' := Next(s, step);
    assert s'.jobs[d].keys == s.jobs[d].keys;
    KeysGrow(s', s, d);
  }

  /** A purge deletes no object of another document. */
  lemma OtherDocumentsKeepObjects(s: State, step: Step, d: Uuid, k: string)
    requires Inv(s) && Enabled(s, step) && k in Keys(s, d)
    ensures k in s.stored && k !in Next(s, step).stored ==> step == DeleteObject(d, k) && k in s.jobs[d].keys
  {
    if k in s.stored && k !in Next(s, step).stored {
      assert AttemptOk(s, step.document);
      KeysDisjoint(s, step.document, d, k);
    }
  }

  /** The objects of documents whose deletion was never requested are stored. */
  ghost predicate Kept(s: State) {
    forall d, k :: d !in s.requested && k in Keys(s, d) ==> k in s.stored
  }

  /** The objects a step writes. */
  function Written(s: State, step: Step): set<string>
    requires Enabled(s, step)
  {
    match step
    case Upload(d, v) => {KeyOf(VersionObject(d, 1, v))}
    case WriteAsset(v, a, kind) => {KeyOf(AssetObject(s.versions[v].document, s.versions[v].number, kind, a))}
    case _ => {}
  }

  // ---------- Runs ----------

  ghost predicate IsRun(s: State, steps: seq<Step>)
    decreases |steps|
  {
    steps != [] ==> Enabled(s, steps[0]) && IsRun(Next(s, steps[0]), steps[1..])
  }

  ghost function After(s: State, steps: seq<Step>): State
    requires IsRun(s, steps)
    decreases |steps|
  {
    if steps == [] then s else After(Next(s, steps[0]), steps[1..])
  }

  lemma {:induction false} RunKeepsInv(s: State, steps: seq<Step>)
    requires Inv(s) && IsRun(s, steps)
    ensures Inv(After(s, steps)) && s.drawn <= After(s, steps).drawn
    decreases |steps|
  {
    if steps != [] {
      StepKeepsInv(s, steps[0]);
      RunKeepsInv(Next(s, steps[0]), steps[1..]);
    }
  }

  /** Over every run from the empty state, a document whose deletion was never requested keeps its row's objects. */
  lemma {:induction false} RunKeepsKept(s: State, steps: seq<Step>)
    requires Inv(s) && Kept(s) && IsRun(s, steps)
    ensures Kept(After(s, steps))
    decreases |steps|
  {
    if steps != [] {
      StepKeepsInv(s, steps[0]);
      StepKeepsKept(s, steps[0]);
      RunKeepsKept(Next(s, steps[0]), steps[1..]);
    }
  }

  /** No step of the run writes an asset of d. */
  ghost predicate NoWriter(s: State, steps: seq<Step>, d: Uuid)
    requires IsRun(s, steps)
    decreases |steps|
  {
    steps != [] ==>
      && (steps[0].WriteAsset? ==> s.versions[steps[0].version].document != d)
      && NoWriter(Next(s, steps[0]), steps[1..], d)
  }

  /** The purge of d is under way in every state of the run. */
  ghost predicate Survives(s: State, steps: seq<Step>, d: Uuid)
    requires IsRun(s, steps)
    decreases |steps|
  {
    IsRunning(s, d) && (steps != [] ==> Survives(Next(s, steps[0]), steps[1..], d))
  }

  /** Finalizing the purge now removes the row of d. */
  predicate Removes(s: State, d: Uuid) {
    Enabled(s, Finalize(d)) && InTrash(s, d)
  }

  /**
   Whatever trashes, restores, requests and other purges happen between the
   prepare and the finalize of a purge: if the finalize removes the row and no
   asset of the document was written meanwhile, every object named by the
   document's rows has been deleted.
   */
  lemma PurgedDocumentLeavesNothing(s: State, d: Uuid, steps: seq<Step>)
    requires Inv(s) && Enabled(s, Prepare(d)) && InTrash(s, d)
    requires IsRun(Next(s, Prepare(d)), steps) && Survives(Next(s, Prepare(d)), steps, d)
    requires NoWriter(Next(s, Prepare(d)), steps, d)
    ensures var last := After(Next(s, Prepare(d)), steps);
            IsRunning(last, d) && (Removes(last, d) ==> Keys(last, d) !! last.stored)
  {
    var s1 := Next(s, Prepare(d));
    StepKeepsInv(s, Prepare(d));
    PrepareReadsAll(s, d);
    QuietRun(s1, steps, d);
    RunKeepsInv(s1, steps);
    if Removes(After(s1, steps), d) {
      RemovedCleanExactly(After(s1, steps), d);
    }
  }

  /** An object the rows of d name is stored, and the purge of d did not read it. */
  ghost predicate Unclaimed(s: State, d: Uuid, k: string) {
    IsRunning(s, d) && k in LateKeys(s, d) && k in s.stored
  }

  /**
   A purge that removes the row of its document has deleted every object the
   rows name if and only if no asset of the document was written between its
   prepare and its finalize, whatever else happened in between.
   */
  lemma PurgeIsCleanExactly(s: State, d: Uuid, steps: seq<Step>)
    requires Inv(s) && Enabled(s, Prepare(d)) && InTrash(s, d)
    requires IsRun(Next(s, Prepare(d)), steps) && Survives(Next(s, Prepare(d)), steps, d)
    requires Removes(After(Next(s, Prepare(d)), steps), d)
    ensures var last := After(Next(s, Prepare(d)), steps);
            Keys(last, d) !! last.stored <==> NoWriter(Next(s, Prepare(d)), steps, d)
  {
    var s1 := Next(s, Prepare(d));
    StepKeepsInv(s, Prepare(d));
    if NoWriter(s1, steps, d) {
      PurgedDocumentLeavesNothing(s, d, steps);
    } else {
      WriterLeavesObject(s1, steps, d);
    }
  }

  /** Without that condition it fails: an asset written just before the finalize stays in the store with no row. */
  lemma LateAssetIsOrphaned(s: State, d: Uuid, v: Uuid, a: Uuid, kind: string)
    requires Inv(s) && Removes(s, d) && Enabled(s, WriteAsset(v, a, kind)) && s.versions[v].document == d
    ensures var s1 := Next(s, WriteAsset(v, a, kind));
            && Removes(s1, d) && !(Keys(s1, d) !! s1.stored)
            && d !in Next(s1, Finalize(d)).trashed && a !in Next(s1, Finalize(d)).assets
            && AssetKeyOf(s1, a) in Next(s1, Finalize(d)).stored
  {
    var s1 := Next(s, WriteAsset(v, a, kind));
    assert AssetOf(s1, a, d) && AssetKeyOf(s1, a) in s1.stored && AssetKeyOf(s1, a) in Keys(s1, d);
  }

  // ---------- Requests ----------

  /** The document is in the trash, its deletion was accepted, and no job is left that would carry it out. */
  predicate Forgotten(s: State, d: Uuid) {
    InTrash(s, d) && d in s.requested && (d !in s.jobs || s.jobs[d].Abandoned?)
  }

  /** While the document is there it is in the trash, and its job will still be executed. */
  predicate Owed(s: State, d: Uuid) {
    d in s.drawn
    && (d in s.trashed ==> s.trashed[d] && d in s.requested && d in s.jobs && !s.jobs[d].Ended? && !s.jobs[d].Abandoned?)
  }

  /** Nobody restores the document, its handler does not fail before it starts, and its worker does not go. */
  predicate Undisturbed(steps: seq<Step>, d: Uuid) {
    Restore(d) !in steps && MarkFailed(d) !in steps && Crash(d) !in steps
  }

  /** Some undisturbed run ends with the request forgotten. */
  ghost predicate CanForget(s: State, d: Uuid) {
    exists steps :: IsRun(s, steps) && Undisturbed(steps, d) && Forgotten(After(s, steps), d)
  }

  /** The request meets a job that will not be executed again: the insert then does nothing. */
  predicate MeetsDeadJob(s: State, d: Uuid) {
    d in s.jobs && (s.jobs[d].Ended? || s.jobs[d].Abandoned?)
  }

  /**
   An accepted deletion request is safe under every undisturbed interleaving
   exactly when it does not meet a purge job whose execution has ended, or whose
   worker is gone.
   */
  lemma RequestIsServedExactly(s: State, d: Uuid)
    requires Inv(s) && Enabled(s, Request(d))
    ensures !MeetsDeadJob(s, d) <==> !CanForget(Next(s, Request(d)), d)
  {
    var s1 := Next(s, Request(d));
    StepKeepsInv(s, Request(d));
    if MeetsDeadJob(s, d) {
      var steps := if s.jobs[d].Ended? then [MarkSucceeded(d)] else [];
      if s.jobs[d].Ended? {
        assert steps[1..] == [];
        assert IsRun(Next(s1, steps[0]), steps[1..]);
      }
      assert IsRun(s1, steps) && Undisturbed(steps, d) && Forgotten(After(s1, steps), d);
    } else {
      forall steps | IsRun(s1, steps) && Undisturbed(steps, d)
        ensures !Forgotten(After(s1, steps), d)
      {
        RunKeepsOwed(s1, steps, d);
      }
    }
  }

  /**
   While a requested document stays in the trash, its request is forgotten only
   by marking the job, one way or the other, or by losing its worker - and then
   it is.
   */
  lemma ForgottenExactly(s: State, step: Step, d: Uuid)
    requires Inv(s) && Enabled(s, step) && !Forgotten(s, d) && InTrash(s, d) && d in s.requested
    ensures Forgotten(Next(s, step), d) <==> step == MarkSucceeded(d) || step == MarkFailed(d) || step == Crash(d)
  {
  }

  /** A document whose purge lost its worker is never purged again, whatever is requested. */
  lemma {:induction false} AbandonedIsNeverPurged(s: State, steps: seq<Step>, d: Uuid)
    requires Inv(s) && IsRun(s, steps) && d in s.jobs && s.jobs[d].Abandoned? && d in s.trashed
    ensures var last := After(s, steps);
            d in last.jobs && last.jobs[d].Abandoned? && d in last.trashed && (last.trashed[d] ==> Forgotten(last, d))
    decreases |steps|
  {
    if steps != [] {
      StepKeepsInv(s, steps[0]);
      AbandonedIsNeverPurged(Next(s, steps[0]), steps[1..], d);
    }
  }

  function UploadedAndRequested(d: Uuid, v: Uuid): State {
    EmptyState().(
      trashed := map[d := true], versions := map[v := Version(d, 1)], stored := {KeyOf(VersionObject(d, 1, v))},
      jobs := map[d := Queued], requested := {d}, drawn := {d, v})
  }

  /** A request is lost without any failure, from the empty state: the purge it meets found the document restored. */
  lemma LostRequest(d: Uuid, v: Uuid)
    requires d != v
    ensures var rest := [Reserve(d)] + ([Restore(d)] + ([Prepare(d)] + ([Trash(d)] + ([Request(d)] + [MarkSucceeded(d)]))));
            var steps := [Upload(d, v)] + ([Trash(d)] + ([Request(d)] + rest));
            IsRun(EmptyState(), steps) && Forgotten(After(EmptyState(), steps), d)
  {
    var s3 := UploadedAndRequested(d, v);
    var s4 := Next(s3, Reserve(d));
    var s5 := Next(s4, Restore(d));
    var s6 := Next(s5, Prepare(d));
    var s7 := Next(s6, Trash(d));
    var s8 := Next(s7, Request(d));
    var end: seq<Step> := [];
    assert [MarkSucceeded(d)] + end == [MarkSucceeded(d)];
    Prepend(s8, MarkSucceeded(d), end);
    Prepend(s7, Request(d), [MarkSucceeded(d)]);
    Prepend(s6, Trash(d), [Request(d)] + [MarkSucceeded(d)]);
    Prepend(s5, Prepare(d), [Trash(d)] + ([Request(d)] + [MarkSucceeded(d)]));
    Prepend(s4, Restore(d), [Prepare(d)] + ([Trash(d)] + ([Request(d)] + [MarkSucceeded(d)])));
    Prepend(s3, Reserve(d), [Restore(d)] + ([Prepare(d)] + ([Trash(d)] + ([Request(d)] + [MarkSucceeded(d)]))));
    RequestedRun(d, v, [Reserve(d)] + ([Restore(d)] + ([Prepare(d)] + ([Trash(d)] + ([Request(d)] + [MarkSucceeded(d)])))));
  }

  /** And after a crash: a second request is accepted and changes nothing. */
  lemma RequestAfterCrash(d: Uuid, v: Uuid)
    requires d != v
    ensures var steps := [Upload(d, v)] + ([Trash(d)] + ([Request(d)] + ([Reserve(d)] + ([Crash(d)] + [Request(d)]))));
            IsRun(EmptyState(), steps) && Forgotten(After(EmptyState(), steps), d)
  {
    var s3 := UploadedAndRequested(d, v);
    var s4 := Next(s3, Reserve(d));
    var s5 := Next(s4, Crash(d));
    var end: seq<Step> := [];
    assert [Request(d)] + end == [Request(d)];
    Prepend(s5, Request(d), end);
    Prepend(s4, Crash(d), [Request(d)]);
    Prepend(s3, Reserve(d), [Crash(d)] + [Request(d)]);
    RequestedRun(d, v, [Reserve(d)] + ([Crash(d)] + [Request(d)]));
  }

  // ---------- Carrying a request out ----------

  function Deletions(d: Uuid, keys: seq<string>): seq<Step> {
    if keys == [] then [] else [DeleteObject(d, keys[0])] + Deletions(d, keys[1..])
  }

  function AllDeleted(s: State, d: Uuid): State
    requires IsRunning(s, d)
  {
    s.(stored := s.stored - s.jobs[d].left, jobs := s.jobs[d := s.jobs[d].(left := {})])
  }

  /** The steps that end the purge of d, with its objects in this order. */
  function ToFinish(s: State, d: Uuid, order: seq<string>): seq<Step>
    requires d in s.jobs
  {
    var deletions := Deletions(d, order) + [Finalize(d)];
    match s.jobs[d]
    case Queued => [Reserve(d)] + ([Prepare(d)] + deletions)
    case Reserved => [Prepare(d)] + deletions
    case _ => deletions
  }

  /** What a purge that ran to its end leaves: no rows, everything else as it was, and of the objects at most those written late. */
  ghost predicate Purged(s: State, d: Uuid, done: State) {
    && done.trashed == s.trashed - {d}
    && (forall v :: v in done.versions <==> v in s.versions && s.versions[v].document != d)
    && (forall a :: a in done.assets <==> a in s.assets && !AssetOf(s, a, d))
    && s.stored - Keys(s, d) <= done.stored <= s.stored
    && (Keys(s, d) !! done.stored || (IsRunning(s, d) && Keys(s, d) * done.stored <= LateKeys(s, d)))
  }

  /**
   From whatever state earlier executions left, a purge that still has its job
   can end, deleting the objects in any order: no row is left, other documents
   and objects are as they were, and of the document's objects none is left but
   those written after a purge under way had read the rows.
   */
  lemma PurgeCanFinish(s: State, d: Uuid, order: seq<string>)
    requires Inv(s) && InTrash(s, d) && d in s.jobs && !MeetsDeadJob(s, d)
    requires NoDup(order) && Elems(order) == if IsRunning(s, d) then s.jobs[d].left else Keys(s, d)
    ensures IsRun(s, ToFinish(s, d, order)) && Purged(s, d, After(s, ToFinish(s, d, order)))
  {
    match s.jobs[d]
    case Running(_, _) => FinishRunning(s, d, order);
    case Reserved => FinishReserved(s, d, order);
    case Queued =>
      var s1 := Next(s, Reserve(d));
      StepKeepsInv(s, Reserve(d));
      assert Keys(s1, d) == Keys(s, d) by {
        KeysGrow(s, s1, d);
        KeysGrow(s1, s, d);
      }
      FinishReserved(s1, d, order);
      Prepend(s, Reserve(d), ToFinish(s1, d, order));
  }

  /**
   A request that met no dead job can be carried out after every undisturbed
   run: while the row is there, the job is too, and it can end with no row.
   */
  lemma AcceptedRequestCanBeCarriedOut(s: State, d: Uuid, steps: seq<Step>, order: seq<string>)
    requires Inv(s) && Enabled(s, Request(d)) && !MeetsDeadJob(s, d)
    requires IsRun(Next(s, Request(d)), steps) && Undisturbed(steps, d)
    ensures var last := After(Next(s, Request(d)), steps);
            d in last.trashed ==>
              && InTrash(last, d) && d in last.jobs && !MeetsDeadJob(last, d)
              && (NoDup(order) && Elems(order) == (if IsRunning(last, d) then last.jobs[d].left else Keys(last, d)) ==>
                    IsRun(last, ToFinish(last, d, order)) && Purged(last, d, After(last, ToFinish(last, d, order))))
  {
    StepKeepsInv(s, Request(d));
    RunKeepsOwed(Next(s, Request(d)), steps, d);
    var last := After(Next(s, Request(d)), steps);
    if d in last.trashed && NoDup(order) && Elems(order) == if IsRunning(last, d) then last.jobs[d].left else Keys(last, d) {
      PurgeCanFinish(last, d, order);
    }
  }

  // ---------- One execution ----------

  datatype TaskResult = Done | TryAgain

  /** From p to s' some of the objects the purge of d still had to delete were deleted. */
  predicate PartlyDeleted(p: State, s': State, d: Uuid) {
    && IsRunning(p, d) && IsRunning(s', d)
    && s'.jobs[d].left <= p.jobs[d].left
    && s' == p.(stored := p.stored - (p.jobs[d].left - s'.jobs[d].left), jobs := p.jobs[d := p.jobs[d].(left := s'.jobs[d].left)])
  }

  /** PurgeTask::execute on one tenant's tables and object store, with nothing interleaved. */
  class PurgeTask {
    var state: State

    constructor (initial: State)
      ensures state == initial
    {
      state := initial;
    }

    /** The union of version and asset keys, deleted in any order; the first refused deletion ends the phase. */
    method DeleteStorageObjects(d: Uuid, refused: set<string>) returns (ok: bool)
      requires IsRunning(state, d)
      modifies this
      ensures ok <==> refused !! old(state).jobs[d].left
      ensures PartlyDeleted(old(state), state, d)
      ensures ok ==> state.jobs[d].left == {}
    {
      ghost var before := state;
      assert state.jobs == before.jobs[d := before.jobs[d].(left := state.jobs[d].left)];
      while state.jobs[d].left != {}
        invariant PartlyDeleted(before, state, d)
        invariant refused !! before.jobs[d].left - state.jobs[d].left
        decreases state.jobs[d].left
      {
        var key :| key in state.jobs[d].left;
        if key in refused {
          return false;
        }
        state := Next(state, DeleteObject(d, key));
      }
      return true;
    }

    /** Either the document is not in the trash and nothing happens, or it is purged, or a deletion was refused. */
    method Execute(d: Uuid, refused: set<string>) returns (result: TaskResult)
      requires Inv(state) && Enabled(state, Prepare(d))
      modifies this
      ensures Inv(state) && d in state.jobs && (if result.Done? then state.jobs[d].Ended? else state.jobs[d].Queued?)
      ensures !InTrash(old(state), d) ==> result.Done? && state == old(state).(jobs := old(state).jobs[d := Ended])
      ensures InTrash(old(state), d) && refused !! Keys(old(state), d) ==>
                result.Done? && d !in state.trashed && Keys(state, d) == {}
                && state.stored == old(state).stored - Keys(old(state), d)
      ensures InTrash(old(state), d) && !(refused !! Keys(old(state), d)) ==>
                result.TryAgain? && state.trashed == old(state).trashed && Keys(state, d) == Keys(old(state), d)
                && old(state).stored - Keys(old(state), d) <= state.stored <= old(state).stored
    {
      ghost var before := state;
      StepKeepsInv(state, Prepare(d));
      state := Next(state, Prepare(d));
      if !state.jobs[d].Running? {
        return Done;
      }
      ghost var prepared := state;
      var ok := DeleteStorageObjects(d, refused);
      DeletingKeepsInv(prepared, state, d);
      var last := if ok then Finalize(d) else Retry(d);
      StepKeepsInv(state, last);
      state := Next(state, last);
      if ok {
        assert Keys(state, d) == {};
      } else {
        KeysGrow(before, state, d);
        KeysGrow(state, before, d);
      }
      result := if ok then Done else TryAgain;
    }
  }

  // ---------- Supporting facts ----------

  lemma KeysAreDrawn(s: State, d: Uuid, k: string)
    requires RowsDrawn(s) && k in Keys(s, d)
    ensures Drawn(s, d, k)
  {
    if v :| v in s.versions && s.versions[v].document == d && k == VersionKey(s, v) {
      var o := VersionObject(d, s.versions[v].number, v);
      assert o.document == d && k == KeyOf(o);
    } else {
      var a :| a in s.assets && AssetOf(s, a, d) && k == AssetKeyOf(s, a);
      var o := AssetObject(d, s.versions[s.assets[a].version].number, s.assets[a].kind, a);
      assert o.document == d && k == KeyOf(o);
    }
  }

  /** A key made with a new id is not one made of earlier ids. */
  lemma NewKeyIsNew(s: State, d: Uuid, k: string, o: Object)
    requires Drawn(s, d, k)
    requires (if o.VersionObject? then o.version else o.asset) !in s.drawn
    ensures k != KeyOf(o)
  {
    var p: Object :| p.document == d && k == KeyOf(p) && (if p.VersionObject? then p.version else p.asset) in s.drawn;
    if k == KeyOf(o) {
      KeyInjective(o, p);
    }
  }

  lemma KeysGrow(s: State, s': State, d: Uuid)
    requires forall v :: v in s.versions && s.versions[v].document == d ==> v in s'.versions && s'.versions[v] == s.versions[v]
    requires forall a :: a in s.assets && AssetOf(s, a, d) ==> a in s'.assets && s'.assets[a] == s.assets[a]
    ensures Keys(s, d) <= Keys(s', d)
  {
    forall k | k in Keys(s, d)
      ensures k in Keys(s', d)
    {
      if v :| v in s.versions && s.versions[v].document == d && k == VersionKey(s, v) {
        assert k == VersionKey(s', v);
      } else {
        var a :| a in s.assets && AssetOf(s, a, d) && k == AssetKeyOf(s, a);
        assert AssetOf(s', a, d) && k == AssetKeyOf(s', a);
      }
    }
  }

  lemma DrawnGrows(s: State, s': State, d: Uuid, k: string)
    requires Drawn(s, d, k) && s.drawn <= s'.drawn
    ensures Drawn(s', d, k)
  {
    var o: Object :| o.document == d && k == KeyOf(o) && (if o.VersionObject? then o.version else o.asset) in s.drawn;
    assert o.document == d && k == KeyOf(o) && (if o.VersionObject? then o.version else o.asset) in s'.drawn;
  }

  /** As long as the row is there, its keys are. */
  lemma KeysStay(s: State, step: Step, d: Uuid)
    requires RowsDrawn(s) && Enabled(s, step) && d in s.trashed && d in Next(s, step).trashed
    ensures Keys(s, d) <= Keys(Next(s, step), d)
  {
    if step.Finalize? {
      FinalizeKeeps(s, step.document, d);
    } else {
      KeysGrow(s, Next(s, step), d);
    }
  }

  lemma FinalizeKeeps(s: State, e: Uuid, d: Uuid)
    requires Enabled(s, Finalize(e)) && d in s.trashed && d in Next(s, Finalize(e)).trashed
    ensures Keys(s, d) <= Keys(Next(s, Finalize(e)), d)
  {
    KeysGrow(s, Next(s, Finalize(e)), d);
  }

  /** A purge that is not touched by the step stays in order. */
  lemma OtherAttemptOk(s: State, step: Step, d: Uuid)
    requires Inv(s) && Enabled(s, step) && IsRunning(s, d)
    requires d in Next(s, step).jobs && Next(s, step).jobs[d] == s.jobs[d]
    ensures AttemptOk(Next(s, step), d)
  {
    var s' := Next(s, step);
    var attempt := s.jobs[d];
    assert AttemptOk(s, d);
    assert s.drawn <= s'.drawn;
    assert d in s'.trashed ==> d in s.trashed;
    forall k | k in attempt.keys
      ensures Drawn(s', d, k)
      ensures k !in attempt.left ==> k !in s'.stored
    {
      DrawnGrows(s, s', d, k);
      if k !in attempt.left {
        GoneStaysGone(s, step, d, k);
      }
    }
    if d in s'.trashed {
      KeysStay(s, step, d);
    }
  }

  lemma ChangedAttemptOk(s: State, step: Step, d: Uuid)
    requires Inv(s) && Enabled(s, step) && IsRunning(Next(s, step), d)
    requires step == Prepare(d) || (step.DeleteObject? && step.document == d)
    ensures AttemptOk(Next(s, step), d)
  {
    var s' := Next(s, step);
    KeysGrow(s, s', d);
    if step.DeleteObject? {
      assert AttemptOk(s, d);
    }
    forall k | k in s'.jobs[d].keys
      ensures Drawn(s', d, k)
    {
      if step.Prepare? {
        KeysAreDrawn(s, d, k);
      }
      DrawnGrows(s, s', d, k);
    }
  }

  lemma Prepend(s: State, step: Step, rest: seq<Step>)
    requires Enabled(s, step) && IsRun(Next(s, step), rest)
    ensures IsRun(s, [step] + rest) && After(s, [step] + rest) == After(Next(s, step), rest)
  {
    assert ([step] + rest)[1..] == rest;
  }

  lemma FirstAndRest<T>(keys: seq<T>)
    requires keys != [] && NoDup(keys)
    ensures Elems(keys) - {keys[0]} == Elems(keys[1..]) && NoDup(keys[1..])
  {
    assert keys == [keys[0]] + keys[1..];
    assert keys[0] !in keys[1..];
  }

  lemma OneDeletion(s: State, d: Uuid, keys: seq<string>)
    requires IsRunning(s, d) && keys != [] && NoDup(keys) && Elems(keys) == s.jobs[d].left
    ensures Enabled(s, DeleteObject(d, keys[0]))
    ensures var s1 := Next(s, DeleteObject(d, keys[0]));
            IsRunning(s1, d) && s1.jobs[d].left == Elems(keys[1..]) && AllDeleted(s1, d) == AllDeleted(s, d)
  {
    assert keys[0] in Elems(keys);
    var s1 := Next(s, DeleteObject(d, keys[0]));
    FirstAndRest(keys);
    assert AllDeleted(s1, d).stored == AllDeleted(s, d).stored;
    assert AllDeleted(s1, d).jobs == AllDeleted(s, d).jobs;
  }

  lemma NothingToDelete(s: State, d: Uuid)
    requires IsRunning(s, d) && s.jobs[d].left == {}
    ensures AllDeleted(s, d) == s
  {
    assert s.jobs[d].(left := {}) == s.jobs[d];
    assert AllDeleted(s, d).jobs == s.jobs;
  }

  lemma {:induction false} DeletionsThen(s: State, d: Uuid, keys: seq<string>, rest: seq<Step>)
    requires IsRunning(s, d) && NoDup(keys) && Elems(keys) == s.jobs[d].left
    requires IsRun(AllDeleted(s, d), rest)
    ensures IsRun(s, Deletions(d, keys) + rest) && After(s, Deletions(d, keys) + rest) == After(AllDeleted(s, d), rest)
    decreases |keys|
  {
    if keys == [] {
      assert Deletions(d, keys) + rest == rest;
      NothingToDelete(s, d);
    } else {
      var s1 := Next(s, DeleteObject(d, keys[0]));
      OneDeletion(s, d, keys);
      FirstAndRest(keys);
      DeletionsThen(s1, d, keys[1..], rest);
      Prepend(s, DeleteObject(d, keys[0]), Deletions(d, keys[1..]) + rest);
      assert Deletions(d, keys) + rest == [DeleteObject(d, keys[0])] + (Deletions(d, keys[1..]) + rest);
    }
  }

  lemma DeletingKeepsInv(p: State, s': State, d: Uuid)
    requires Inv(p) && PartlyDeleted(p, s', d)
    ensures Inv(s')
  {
    forall e | IsRunning(s', e)
      ensures AttemptOk(s', e)
    {
      assert AttemptOk(p, e);
      KeysGrow(p, s', e);
      forall k | k in p.jobs[e].keys
        ensures Drawn(s', e, k)
      {
        DrawnGrows(p, s', e, k);
      }
    }
  }

  lemma PrepareReadsAll(s: State, d: Uuid)
    requires Enabled(s, Prepare(d)) && InTrash(s, d)
    ensures IsRunning(Next(s, Prepare(d)), d) && LateKeys(Next(s, Prepare(d)), d) == {}
  {
    KeysGrow(Next(s, Prepare(d)), s, d);
  }

  lemma WrittenAssetIsUnclaimed(s: State, v: Uuid, a: Uuid, kind: string)
    requires Inv(s) && Enabled(s, WriteAsset(v, a, kind)) && IsRunning(s, s.versions[v].document)
    ensures var s' := Next(s, WriteAsset(v, a, kind));
            Unclaimed(s', s.versions[v].document, AssetKeyOf(s', a))
  {
    var s', d := Next(s, WriteAsset(v, a, kind)), s.versions[v].document;
    var o := AssetObject(d, s.versions[v].number, kind, a);
    assert AssetOf(s', a, d);
    assert AttemptOk(s, d);
    if KeyOf(o) in s.jobs[d].keys {
      NewKeyIsNew(s, d, KeyOf(o), o);
    }
  }

  lemma StaysUnclaimed(s: State, step: Step, d: Uuid, k: string)
    requires Inv(s) && Enabled(s, step) && d in s.trashed && d in Next(s, step).trashed
    requires Unclaimed(s, d, k) && IsRunning(Next(s, step), d)
    ensures Unclaimed(Next(s, step), d, k)
  {
    KeysStay(s, step, d);
    if k !in Next(s, step).stored {
      assert AttemptOk(s, d);
      OtherDocumentsKeepObjects(s, step, d, k);
    }
  }

  lemma {:induction false} GoneRowStaysGone(s: State, steps: seq<Step>, d: Uuid)
    requires IsRun(s, steps) && d in s.drawn && d !in s.trashed
    ensures d !in After(s, steps).trashed
    decreases |steps|
  {
    if steps != [] {
      GoneRowStaysGone(Next(s, steps[0]), steps[1..], d);
    }
  }

  lemma {:induction false} RunStaysUnclaimed(s: State, steps: seq<Step>, d: Uuid, k: string)
    requires Inv(s) && IsRun(s, steps) && Survives(s, steps, d) && d in s.trashed && d in After(s, steps).trashed
    requires Unclaimed(s, d, k)
    ensures Unclaimed(After(s, steps), d, k)
    decreases |steps|
  {
    if steps != [] {
      StepKeepsInv(s, steps[0]);
      var s1 := Next(s, steps[0]);
      if d !in s1.trashed {
        GoneRowStaysGone(s1, steps[1..], d);
      }
      StaysUnclaimed(s, steps[0], d, k);
      RunStaysUnclaimed(s1, steps[1..], d, k);
    }
  }

  lemma RequestedRun(d: Uuid, v: Uuid, rest: seq<Step>)
    requires d != v && IsRun(UploadedAndRequested(d, v), rest)
    ensures var steps := [Upload(d, v)] + ([Trash(d)] + ([Request(d)] + rest));
            IsRun(EmptyState(), steps) && After(EmptyState(), steps) == After(UploadedAndRequested(d, v), rest)
  {
    var s1 := Next(EmptyState(), Upload(d, v));
    var s2 := Next(s1, Trash(d));
    assert Next(s2, Request(d)) == UploadedAndRequested(d, v);
    Prepend(s2, Request(d), rest);
    Prepend(s1, Trash(d), [Request(d)] + rest);
    Prepend(EmptyState(), Upload(d, v), [Trash(d)] + ([Request(d)] + rest));
  }

  lemma FinishRunning(s: State, d: Uuid, order: seq<string>)
    requires Inv(s) && InTrash(s, d) && IsRunning(s, d) && NoDup(order) && Elems(order) == s.jobs[d].left
    ensures IsRun(s, Deletions(d, order) + [Finalize(d)]) && Purged(s, d, After(s, Deletions(d, order) + [Finalize(d)]))
  {
    var deleted := AllDeleted(s, d);
    var end: seq<Step> := [];
    assert AttemptOk(s, d);
    assert [Finalize(d)] + end == [Finalize(d)];
    Prepend(deleted, Finalize(d), end);
    DeletionsThen(s, d, order, [Finalize(d)]);
    var done := Next(deleted, Finalize(d));
    assert After(s, Deletions(d, order) + [Finalize(d)]) == done;
    assert done.stored == s.stored - s.jobs[d].left;
  }

  lemma FinishReserved(s: State, d: Uuid, order: seq<string>)
    requires Inv(s) && InTrash(s, d) && d in s.jobs && s.jobs[d].Reserved? && NoDup(order) && Elems(order) == Keys(s, d)
    ensures IsRun(s, ToFinish(s, d, order)) && Purged(s, d, After(s, ToFinish(s, d, order)))
    ensures Keys(s, d) !! After(s, ToFinish(s, d, order)).stored
  {
    var s1 := Next(s, Prepare(d));
    StepKeepsInv(s, Prepare(d));
    PrepareReadsAll(s, d);
    FinishRunning(s1, d, order);
    Prepend(s, Prepare(d), Deletions(d, order) + [Finalize(d)]);
    assert Keys(s1, d) == Keys(s, d) by {
      KeysGrow(s, s1, d);
      KeysGrow(s1, s, d);
    }
  }

  lemma UploadGrows(s: State, e: Uuid, v: Uuid, d: Uuid)
    requires Enabled(s, Upload(e, v)) && RowsDrawn(s)
    ensures Keys(Next(s, Upload(e, v)), d) <= Keys(s, d) + {KeyOf(VersionObject(e, 1, v))}
  {
    KeysGrowBy(s, Next(s, Upload(e, v)), d, {KeyOf(VersionObject(e, 1, v))});
  }

  lemma AssetGrows(s: State, v: Uuid, a: Uuid, kind: string, d: Uuid)
    requires Enabled(s, WriteAsset(v, a, kind)) && RowsDrawn(s)
    ensures Keys(Next(s, WriteAsset(v, a, kind)), d)
         <= Keys(s, d) + {KeyOf(AssetObject(s.versions[v].document, s.versions[v].number, kind, a))}
  {
    KeysGrowBy(s, Next(s, WriteAsset(v, a, kind)), d, {KeyOf(AssetObject(s.versions[v].document, s.versions[v].number, kind, a))});
  }

  lemma KeysGrowBy(s: State, s': State, d: Uuid, extra: set<string>)
    requires forall v :: v in s'.versions && s'.versions[v].document == d ==>
                           (v in s.versions && s.versions[v] == s'.versions[v]) || VersionKey(s', v) in extra
    requires forall a :: a in s'.assets && AssetOf(s', a, d) ==>
                           (AssetOf(s, a, d) && AssetKeyOf(s, a) == AssetKeyOf(s', a)) || AssetKeyOf(s', a) in extra
    ensures Keys(s', d) <= Keys(s, d) + extra
  {
    forall k | k in Keys(s', d) && k !in extra
      ensures k in Keys(s, d)
    {
      if v :| v in s'.versions && s'.versions[v].document == d && k == VersionKey(s', v) {
        assert k == VersionKey(s, v);
      } else {
        var a :| a in s'.assets && AssetOf(s', a, d) && k == AssetKeyOf(s', a);
        assert AssetOf(s, a, d) && k == AssetKeyOf(s, a);
      }
    }
  }

  lemma {:induction false} QuietRun(s: State, steps: seq<Step>, d: Uuid)
    requires Inv(s) && IsRun(s, steps) && Survives(s, steps, d) && NoWriter(s, steps, d)
    requires d in s.drawn && (d in s.trashed ==> LateKeys(s, d) == {})
    ensures IsRunning(After(s, steps), d) && (d in After(s, steps).trashed ==> LateKeys(After(s, steps), d) == {})
    decreases |steps|
  {
    if steps != [] {
      StepKeepsInv(s, steps[0]);
      var s1 := Next(s, steps[0]);
      if d in s1.trashed {
        NoLateKeys(s, steps[0], d);
      }
      QuietRun(s1, steps[1..], d);
    }
  }

  lemma {:induction false} WriterLeavesObject(s: State, steps: seq<Step>, d: Uuid)
    requires Inv(s) && IsRun(s, steps) && Survives(s, steps, d) && d in s.trashed && d in After(s, steps).trashed
    requires !NoWriter(s, steps, d)
    ensures !(Keys(After(s, steps), d) !! After(s, steps).stored)
    decreases |steps|
  {
    StepKeepsInv(s, steps[0]);
    var s1 := Next(s, steps[0]);
    if d !in s1.trashed {
      GoneRowStaysGone(s1, steps[1..], d);
    }
    if NoWriter(s1, steps[1..], d) {
      var k := AssetKeyOf(s1, steps[0].asset);
      WrittenAssetIsUnclaimed(s, steps[0].version, steps[0].asset, steps[0].kind);
      RunStaysUnclaimed(s1, steps[1..], d, k);
      assert k in Keys(After(s, steps), d) && k in After(s, steps).stored;
    } else {
      WriterLeavesObject(s1, steps[1..], d);
    }
  }

  lemma {:induction false} RunKeepsOwed(s: State, steps: seq<Step>, d: Uuid)
    requires Inv(s) && IsRun(s, steps) && Owed(s, d) && Undisturbed(steps, d)
    ensures Inv(After(s, steps)) && Owed(After(s, steps), d)
    decreases |steps|
  {
    if steps != [] {
      assert steps[0] in steps;
      StepKeepsInv(s, steps[0]);
      RunKeepsOwed(Next(s, steps[0]), steps[1..], d);
    }
  }

  /** No step loses an object of a document whose deletion was never requested. */
  lemma StepKeepsKept(s: State, step: Step)
    requires Inv(s) && Enabled(s, step) && Kept(s)
    ensures Kept(Next(s, step))
  {
    var s' := Next(s, step);
    forall d, k | d !in s'.requested && k in Keys(s', d)
      ensures k in s'.stored
    {
      if k in Keys(s, d) {
        OtherDocumentsKeepObjects(s, step, d, k);
      } else {
        WrittenAreStored(s, step, d);
      }
    }
  }

  /** What a step writes is stored, and no other key is named anew. */
  lemma WrittenAreStored(s: State, step: Step, d: Uuid)
    requires RowsDrawn(s) && Enabled(s, step)
    ensures Written(s, step) <= Next(s, step).stored
    ensures Keys(Next(s, step), d) <= Keys(s, d) + Written(s, step)
  {
    match step
    case Upload(e, v) => UploadGrows(s, e, v, d);
    case WriteAsset(v, a, kind) => AssetGrows(s, v, a, kind, d);
    case _ => KeysGrowBy(s, Next(s, step), d, {});
  }
}

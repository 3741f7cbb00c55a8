/**
 The job table (backend/src/jobs.rs) and any number of workers polling it
 (Worker::tick of backend/src/workers/mod.rs). A reservation first locks a row,
 skipping rows others have locked, and then writes it; a worker may crash, or
 lose its connection, at any point. Nothing ever requeues the job of a worker
 that has gone.
*/
module Jobs {
  import opened Common

  datatype Status = Queued | Processing | Succeeded | Failed

  const PURGE_DOCUMENT := "purge-document"

  /** `target` is the document named by the payload, when it names one. */
  datatype Job = Job(kind: string, target: Option<Id>, status: Status, attempts: nat, runAfter: nat, tenant: Option<TenantId>)

  type Jobs = map<Id, Job>

  predicate Terminal(status: Status) {
    status == Succeeded || status == Failed
  }

  predicate Pending(job: Job) {
    job.status == Queued || job.status == Processing
  }

  // ---------- The job table ----------

  /** Two pending purges of the same document of the same tenant. */
  predicate SamePurge(j: Job, k: Job) {
    && j.kind == PURGE_DOCUMENT && k.kind == PURGE_DOCUMENT && Pending(j) && Pending(k)
    && j.target.Some? && j.target == k.target && j.tenant.Some? && j.tenant == k.tenant
  }

  /** The partial unique index on pending purge jobs. */
  ghost predicate PurgesDiffer(jobs: Jobs) {
    forall i, j :: i in jobs && j in jobs && i != j ==> !SamePurge(jobs[i], jobs[j])
  }

  predicate Eligible(jobs: Jobs, kinds: set<string>, now: nat, i: Id) {
    i in jobs && jobs[i].status == Queued && jobs[i].runAfter <= now && jobs[i].kind in kinds
  }

  /** The row picked by the reservation query: eligible, not locked, and with the least run_after of those. */
  ghost predicate First(jobs: Jobs, kinds: set<string>, now: nat, locked: set<Id>, i: Id) {
    && Eligible(jobs, kinds, now, i) && i !in locked
    && forall k :: Eligible(jobs, kinds, now, k) && k !in locked ==> jobs[i].runAfter <= jobs[k].runAfter
  }

  datatype JobError = Database

  datatype Execution = Success | RetryAfter(delay: nat) | Failure

  /** What marking does to the row. The update looks neither at the status nor at who holds the job. */
  function Marked(job: Job, execution: Execution, now: nat): Job {
    match execution
    case Success => job.(status := Succeeded)
    case RetryAfter(delay) => job.(status := Queued, runAfter := now + delay)
    case Failure => job.(status := Failed)
  }

  class JobQueue {
    var jobs: Jobs

    constructor ()
      ensures jobs == map[]
    {
      jobs := map[];
    }

    /** A conflicting insert is an error and leaves the table alone. */
    method EnqueueJob(id: Id, kind: string, target: Option<Id>, tenant: TenantId, runAfter: Option<nat>, now: nat)
      returns (r: Result<Job, JobError>)
      modifies this
      ensures r.Ok? <==> CanInsert(old(jobs), id, NewJob(kind, target, tenant, runAfter, now))
      ensures r.Ok? ==> jobs == old(jobs)[id := r.value] && r.value == NewJob(kind, target, tenant, runAfter, now)
      ensures r.Err? ==> jobs == old(jobs)
      ensures PurgesDiffer(old(jobs)) ==> PurgesDiffer(jobs)
    {
      var job := NewJob(kind, target, tenant, runAfter, now);
      if id in jobs || exists i :: i in jobs && SamePurge(jobs[i], job) {
        return Err(Database);
      }
      jobs := jobs[id := job];
      return Ok(job);
    }

    /** ON CONFLICT DO NOTHING: the caller is not told whether a row was written. */
    method EnqueueJobIfNotExists(id: Id, kind: string, target: Option<Id>, tenant: TenantId, runAfter: Option<nat>, now: nat)
      modifies this
      ensures var job := NewJob(kind, target, tenant, runAfter, now);
              jobs == if CanInsert(old(jobs), id, job) then old(jobs)[id := job] else old(jobs)
      ensures PurgesDiffer(old(jobs)) ==> PurgesDiffer(jobs)
      ensures id !in old(jobs) && kind == PURGE_DOCUMENT && target.Some? ==>
                exists i :: i in jobs && SamePurge(jobs[i], NewJob(kind, target, tenant, runAfter, now))
    {
      var job := NewJob(kind, target, tenant, runAfter, now);
      if id !in jobs && !exists i :: i in jobs && SamePurge(jobs[i], job) {
        jobs := jobs[id := job];
        assert SamePurge(jobs[id], job) <==> kind == PURGE_DOCUMENT && target.Some?;
      }
    }

    /** Reserves the first eligible row, if there is one. */
    method Reserve(kinds: set<string>, now: nat, locked: set<Id>) returns (r: Option<Id>)
      modifies this
      ensures r.None? <==> forall i :: Eligible(old(jobs), kinds, now, i) ==> i in locked
      ensures r.None? ==> jobs == old(jobs)
      ensures r.Some? ==> First(old(jobs), kinds, now, locked, r.value)
      ensures r.Some? ==> jobs == old(jobs)[r.value := old(jobs)[r.value].(status := Processing, attempts := old(jobs)[r.value].attempts + 1)]
    {
      var candidates := set i | i in jobs && Eligible(jobs, kinds, now, i) && i !in locked;
      if candidates == {} {
        assert forall i :: Eligible(jobs, kinds, now, i) && i !in locked ==> i in candidates;
        return None;
      }
      EarliestExists(jobs, candidates);
      var i :| i in candidates && forall k :: k in candidates ==> jobs[i].runAfter <= jobs[k].runAfter;
      assert forall k :: Eligible(jobs, kinds, now, k) && k !in locked ==> k in candidates;
      jobs := jobs[i := jobs[i].(status := Processing, attempts := jobs[i].attempts + 1)];
      return Some(i);
    }

    method Mark(id: Id, execution: Execution, now: nat)
      modifies this
      ensures jobs == if id in old(jobs) then old(jobs)[id := Marked(old(jobs)[id], execution, now)] else old(jobs)
    {
      if id in jobs {
        var job := jobs[id];
        match execution {
          case Success => job := job.(status := Succeeded);
          case RetryAfter(delay) => job := job.(status := Queued, runAfter := now + delay);
          case Failure => job := job.(status := Failed);
        }
        jobs := jobs[id := job];
      }
    }
  }

  /** A marked job can be reserved again exactly when it was to be retried and the delay has passed. */
  lemma MarkedEligibleExactly(jobs: Jobs, id: Id, execution: Execution, now: nat, kinds: set<string>, later: nat)
    requires id in jobs && later >= now
    ensures Eligible(jobs[id := Marked(jobs[id], execution, now)], kinds, later, id) <==>
              execution.RetryAfter? && execution.delay <= later - now && jobs[id].kind in kinds
    ensures execution.RetryAfter? <==> !Terminal(Marked(jobs[id], execution, now).status)
    ensures forall k :: k in jobs && k != id ==>
              (Eligible(jobs[id := Marked(jobs[id], execution, now)], kinds, later, k) <==> Eligible(jobs, kinds, later, k))
  {
  }

  function NewJob(kind: string, target: Option<Id>, tenant: TenantId, runAfter: Option<nat>, now: nat): Job {
    Job(kind, target, Queued, 0, if runAfter.Some? then runAfter.value else now, Some(tenant))
  }

  ghost predicate CanInsert(jobs: Jobs, id: Id, job: Job) {
    id !in jobs && forall i :: i in jobs ==> !SamePurge(jobs[i], job)
  }

  lemma EarliestExists(jobs: Jobs, candidates: set<Id>)
    requires candidates != {} && candidates <= jobs.Keys
    ensures exists i :: i in candidates && forall k :: k in candidates ==> jobs[i].runAfter <= jobs[k].runAfter
    decreases candidates
  {
    var x :| x in candidates;
    var rest := candidates - {x};
    if rest == {} {
      assert candidates == {x};
    } else {
      EarliestExists(jobs, rest);
      var y :| y in rest && forall k :: k in rest ==> jobs[y].runAfter <= jobs[k].runAfter;
      var best := if jobs[x].runAfter <= jobs[y].runAfter then x else y;
      assert forall k :: k in candidates ==> k == x || k in rest;
      assert forall k :: k in candidates ==> jobs[best].runAfter <= jobs[k].runAfter;
    }
  }

  // ---------- Many workers ----------

  /** A worker that is not idle holds the lock on a row, or handles a job. */
  datatype Phase =
    | Locking(job: Id, attempts: nat, at: nat)
    | Handling(job: Id, detached: bool)

  datatype Reservation = Reservation(job: Id, worker: nat, runAfter: nat, at: nat)

  datatype State = State(jobs: Jobs, workers: map<nat, Phase>, now: nat, log: seq<Reservation>)

  function EmptyState(): State {
    State(map[], map[], 0, [])
  }

  ghost function LockedRows(s: State): set<Id> {
    set w | w in s.workers && s.workers[w].Locking? :: s.workers[w].job
  }

  datatype Step =
    | Elapse(time: nat)
    | Insert(id: Id, kind: string, target: Option<Id>, tenant: TenantId, runAfter: Option<nat>)
    | Lock(worker: nat, kinds: set<string>, job: Id)
    | Write(worker: nat)
    | Finish(worker: nat, execution: Execution)
    | Vanish(worker: nat)  // a crash, or no connection left to mark the job with
    | DetachTenant(tenant: TenantId, except: Id)

  ghost predicate Enabled(s: State, step: Step) {
    match step
    case Elapse(_) => true
    case Insert(_, _, _, _, _) => true
    case Lock(w, kinds, j) => w !in s.workers && First(s.jobs, kinds, s.now, LockedRows(s), j)
    case Write(w) => w in s.workers && s.workers[w].Locking?
    case Finish(w, execution) =>
      w in s.workers && s.workers[w].Handling? && (s.workers[w].detached ==> execution == Failure)
    case Vanish(w) => w in s.workers
    case DetachTenant(_, _) => true
  }

  ghost function Next(s: State, step: Step): State
    requires Enabled(s, step)
  {
    match step
    case Elapse(time) => s.(now := s.now + time)
    case Insert(id, kind, target, tenant, runAfter) =>
      var job := NewJob(kind, target, tenant, runAfter, s.now);
      if CanInsert(s.jobs, id, job) then s.(jobs := s.jobs[id := job]) else s
    case Lock(w, kinds, j) => s.(workers := s.workers[w := Locking(j, s.jobs[j].attempts, s.now)])
    case Write(w) =>
      var j := s.workers[w].job;
      if j !in s.jobs then s
      else
        s.(jobs := s.jobs[j := s.jobs[j].(status := Processing, attempts := s.workers[w].attempts + 1)],
           workers := s.workers[w := Handling(j, s.jobs[j].tenant.None?)],
           log := s.log + [Reservation(j, w, s.jobs[j].runAfter, s.workers[w].at)])
    case Finish(w, execution) =>
      var j := s.workers[w].job;
      s.(jobs := if j in s.jobs then s.jobs[j := Marked(s.jobs[j], execution, s.now)] else s.jobs, workers := s.workers - {w})
    case Vanish(w) => s.(workers := s.workers - {w})
    case DetachTenant(tenant, except) =>
      s.(jobs := map i | i in s.jobs ::
           if s.jobs[i].tenant == Some(tenant) && i != except then s.jobs[i].(tenant := None) else s.jobs[i])
  }

  function Count(log: seq<Reservation>, j: Id): nat {
    if log == [] then 0 else Count(log[..|log| - 1], j) + if log[|log| - 1].job == j then 1 else 0
  }

  lemma CountSnoc(log: seq<Reservation>, r: Reservation, j: Id)
    ensures Count(log + [r], j) == Count(log, j) + if r.job == j then 1 else 0
  {
    assert (log + [r])[..|log|] == log;
  }

  ghost predicate PhaseOk(s: State, w: nat)
    requires w in s.workers
  {
    match s.workers[w]
    case Locking(j, attempts, at) =>
      j in s.jobs && s.jobs[j].status == Queued && s.jobs[j].attempts == attempts && s.jobs[j].runAfter <= at <= s.now
    case Handling(j, _) => j in s.jobs && s.jobs[j].status == Processing
  }

  /** No two workers hold the same job, whether they lock it or handle it. */
  ghost predicate Exclusive(s: State) {
    forall v, w :: v in s.workers && w in s.workers && s.workers[v].job == s.workers[w].job ==> v == w
  }

  ghost predicate Inv(s: State) {
    && (forall w :: w in s.workers ==> PhaseOk(s, w))
    && Exclusive(s)
    && (forall j :: j in s.jobs ==> s.jobs[j].attempts == Count(s.log, j))
    && (forall j :: j !in s.jobs ==> Count(s.log, j) == 0)
    && (forall r :: r in s.log ==> r.runAfter <= r.at <= s.now)
    && PurgesDiffer(s.jobs)
  }

  lemma InitialInv()
    ensures Inv(EmptyState())
  {
  }

  lemma LockKeepsInv(s: State, w: nat, kinds: set<string>, j: Id)
    requires Inv(s) && Enabled(s, Lock(w, kinds, j))
    ensures Inv(Next(s, Lock(w, kinds, j)))
  {
    var s' := Next(s, Lock(w, kinds, j));
    forall v | v in s.workers
      ensures s.workers[v].job != j && PhaseOk(s', v)
    {
      assert PhaseOk(s, v);
      if s.workers[v].Locking? {
        assert s.workers[v].job in LockedRows(s);
      }
    }
    assert PhaseOk(s', w);
  }

  lemma WriteKeepsInv(s: State, w: nat)
    requires Inv(s) && Enabled(s, Write(w))
    ensures Inv(Next(s, Write(w)))
  {
    var s' := Next(s, Write(w));
    assert PhaseOk(s, w);
    var j := s.workers[w].job;
    forall i
      ensures Count(s'.log, i) == Count(s.log, i) + if i == j then 1 else 0
    {
      CountSnoc(s.log, s'.log[|s.log|], i);
    }
    forall v | v in s'.workers
      ensures PhaseOk(s', v)
    {
      assert PhaseOk(s, v);
      assert v != w ==> s.workers[v].job != j;
    }
  }

  lemma FinishKeepsInv(s: State, w: nat, execution: Execution)
    requires Inv(s) && Enabled(s, Finish(w, execution))
    ensures Inv(Next(s, Finish(w, execution)))
  {
    var s' := Next(s, Finish(w, execution));
    assert PhaseOk(s, w);
    forall v | v in s'.workers
      ensures PhaseOk(s', v)
    {
      assert PhaseOk(s, v);
      assert s.workers[v].job != s.workers[w].job;
    }
    forall i, k | i in s'.jobs && k in s'.jobs && i != k
      ensures !SamePurge(s'.jobs[i], s'.jobs[k])
    {
      assert !SamePurge(s.jobs[i], s.jobs[k]);
    }
  }

  lemma InsertKeepsInv(s: State, id: Id, job: Job)
    requires Inv(s) && job.attempts == 0
    ensures CanInsert(s.jobs, id, job) ==> Inv(s.(jobs := s.jobs[id := job]))
  {
    if CanInsert(s.jobs, id, job) {
      var s' := s.(jobs := s.jobs[id := job]);
      forall v | v in s'.workers
        ensures PhaseOk(s', v)
      {
        assert PhaseOk(s, v);
      }
      forall i, k | i in s'.jobs && k in s'.jobs && i != k
        ensures !SamePurge(s'.jobs[i], s'.jobs[k])
      {
        if i == id {
          assert !SamePurge(s.jobs[k], job);
        } else if k == id {
          assert !SamePurge(s.jobs[i], job);
        } else {
          assert !SamePurge(s.jobs[i], s.jobs[k]);
        }
      }
    }
  }

  lemma StepKeepsInv(s: State, step: Step)
    requires Inv(s) && Enabled(s, step)
    ensures Inv(Next(s, step))
  {
    var s' := Next(s, step);
    match step
    case Lock(w, kinds, j) => LockKeepsInv(s, w, kinds, j);
    case Write(w) => WriteKeepsInv(s, w);
    case Finish(w, execution) => FinishKeepsInv(s, w, execution);
    case Insert(id, kind, target, tenant, runAfter) =>
      InsertKeepsInv(s, id, NewJob(kind, target, tenant, runAfter, s.now));
    case _ =>
      forall v | v in s'.workers
        ensures PhaseOk(s', v)
      {
        assert PhaseOk(s, v);
      }
      forall i, k | i in s'.jobs && k in s'.jobs && i != k
        ensures !SamePurge(s'.jobs[i], s'.jobs[k])
      {
        assert !SamePurge(s.jobs[i], s.jobs[k]);
      }
  }

  /**
   What no step undoes: a job stays in the table, succeeded and failed are
   final, attempts never fall, and kind and target never change.
   */
  lemma NothingIsLost(s: State, step: Step, j: Id)
    requires Inv(s) && Enabled(s, step) && j in s.jobs
    ensures j in Next(s, step).jobs
    ensures Terminal(s.jobs[j].status) ==> Next(s, step).jobs[j].status == s.jobs[j].status
    ensures s.jobs[j].attempts <= Next(s, step).jobs[j].attempts
    ensures Next(s, step).jobs[j].kind == s.jobs[j].kind && Next(s, step).jobs[j].target == s.jobs[j].target
  {
    match step
    case Write(w) => assert PhaseOk(s, w);
    case Finish(w, _) => assert PhaseOk(s, w);
    case _ =>
  }

  // ---------- Whole runs ----------

  ghost predicate IsRun(s: State, steps: seq<Step>)
    decreases |steps|
  {
    steps != [] ==> Enabled(s, steps[0]) && IsRun(Next(s, steps[0]), steps[1..])
  }

  ghost function After(s: State, steps: seq<Step>): State
    requires IsRun(s, steps)
    decreases |steps|
  {
    if steps == [] then s else After(Next(s, steps[0]), steps[1..])
  }

  lemma {:induction false} RunKeepsInv(s: State, steps: seq<Step>)
    requires Inv(s) && IsRun(s, steps)
    ensures Inv(After(s, steps))
    decreases |steps|
  {
    if steps != [] {
      StepKeepsInv(s, steps[0]);
      RunKeepsInv(Next(s, steps[0]), steps[1..]);
    }
  }

  predicate Handles(s: State, w: nat, j: Id) {
    w in s.workers && s.workers[w].Handling? && s.workers[w].job == j
  }

  /**
   After every run from the empty table, under any interleaving: no job is
   handled by two workers, attempts counts the reservations, and no reservation
   came before its job's run_after.
   */
  lemma QueueTheorem(steps: seq<Step>, s: State)
    requires IsRun(EmptyState(), steps) && s == After(EmptyState(), steps)
    ensures forall v, w, j :: Handles(s, v, j) && Handles(s, w, j) ==> v == w
    ensures forall j :: j in s.jobs ==> s.jobs[j].attempts == Count(s.log, j)
    ensures forall r :: r in s.log ==> r.runAfter <= r.at && r.job in s.jobs
  {
    InitialInv();
    RunKeepsInv(EmptyState(), steps);
    forall r | r in s.log
      ensures r.job in s.jobs
    {
      LoggedIsCounted(s.log, r);
    }
  }

  lemma {:induction false} LoggedIsCounted(log: seq<Reservation>, r: Reservation)
    requires r in log
    ensures Count(log, r.job) > 0
    decreases |log|
  {
    if log[|log| - 1] != r {
      LoggedIsCounted(log[..|log| - 1], r);
    }
  }

  lemma {:induction false} RunLosesNothing(s: State, steps: seq<Step>, j: Id)
    requires Inv(s) && IsRun(s, steps) && j in s.jobs
    ensures j in After(s, steps).jobs
    ensures Terminal(s.jobs[j].status) ==> After(s, steps).jobs[j].status == s.jobs[j].status
    ensures s.jobs[j].attempts <= After(s, steps).jobs[j].attempts
    ensures After(s, steps).jobs[j].kind == s.jobs[j].kind && After(s, steps).jobs[j].target == s.jobs[j].target
    decreases |steps|
  {
    if steps != [] {
      StepKeepsInv(s, steps[0]);
      NothingIsLost(s, steps[0], j);
      RunLosesNothing(Next(s, steps[0]), steps[1..], j);
    }
  }

  // ---------- What a job's status and time tell ----------

  /** At some point of the run the worker handling j finished it so. */
  ghost predicate Finished(s: State, steps: seq<Step>, j: Id, execution: Execution)
    requires IsRun(s, steps)
    decreases |steps|
  {
    steps != [] &&
    (FinishesSo(s, steps[0], j, execution) || Finished(Next(s, steps[0]), steps[1..], j, execution))
  }

  predicate FinishesSo(s: State, step: Step, j: Id, execution: Execution) {
    step.Finish? && step.execution == execution && Handles(s, step.worker, j)
  }

  /** Nobody finishes a job that is succeeded or failed. */
  lemma {:induction false} FinalIsNotFinished(s: State, steps: seq<Step>, j: Id, execution: Execution)
    requires Inv(s) && IsRun(s, steps) && j in s.jobs && Terminal(s.jobs[j].status)
    ensures !Finished(s, steps, j, execution)
    decreases |steps|
  {
    if steps != [] {
      StepKeepsInv(s, steps[0]);
      NothingIsLost(s, steps[0], j);
      assert steps[0].Finish? ==> PhaseOk(s, steps[0].worker);
      FinalIsNotFinished(Next(s, steps[0]), steps[1..], j, execution);
    }
  }

  predicate IsFinal(s: State, j: Id) {
    j in s.jobs && Terminal(s.jobs[j].status)
  }

  /** One step makes a job succeeded or failed exactly when its worker finishes it so. */
  lemma StepFinishesExactly(s: State, step: Step, j: Id)
    requires Inv(s) && Enabled(s, step) && !IsFinal(s, j)
    ensures var s' := Next(s, step);
            && (j in s'.jobs && s'.jobs[j].status == Succeeded <==> FinishesSo(s, step, j, Success))
            && (j in s'.jobs && s'.jobs[j].status == Failed <==> FinishesSo(s, step, j, Failure))
  {
    match step
    case Write(w) => assert PhaseOk(s, w);
    case Finish(w, _) => assert PhaseOk(s, w);
    case _ =>
  }

  /**
   A job is succeeded exactly when the worker handling it finished it with
   success at some point of the run, and failed exactly when it finished it
   with failure.
   */
  lemma {:induction false} StatusTellsExactly(s: State, steps: seq<Step>, j: Id)
    requires Inv(s) && IsRun(s, steps) && !IsFinal(s, j)
    ensures var last := After(s, steps);
            && (j in last.jobs && last.jobs[j].status == Succeeded <==> Finished(s, steps, j, Success))
            && (j in last.jobs && last.jobs[j].status == Failed <==> Finished(s, steps, j, Failure))
    decreases |steps|
  {
    if steps != [] {
      var s1 := Next(s, steps[0]);
      StepKeepsInv(s, steps[0]);
      StepFinishesExactly(s, steps[0], j);
      if IsFinal(s1, j) {
        FinalIsNotFinished(s1, steps[1..], j, Success);
        FinalIsNotFinished(s1, steps[1..], j, Failure);
        RunLosesNothing(s1, steps[1..], j);
      } else {
        StatusTellsExactly(s1, steps[1..], j);
      }
    }
  }

  /** When the job is due after the step: at the time asked for, or now, when inserted; after the delay when retried. */
  ghost function DueAfter(s: State, step: Step, j: Id, due: nat): nat {
    match step
    case Insert(id, _, _, _, runAfter) =>
      if id == j && j !in s.jobs then (if runAfter.Some? then runAfter.value else s.now) else due
    case Finish(w, RetryAfter(delay)) => if Handles(s, w, j) then s.now + delay else due
    case _ => due
  }

  ghost function DueAtEnd(s: State, steps: seq<Step>, j: Id, due: nat): nat
    requires IsRun(s, steps)
    decreases |steps|
  {
    if steps == [] then due else DueAtEnd(Next(s, steps[0]), steps[1..], j, DueAfter(s, steps[0], j, due))
  }

  /** The run_after of a job is the time it was inserted with, or that of its last retry plus the delay. */
  lemma {:induction false} RunAfterIsDue(s: State, steps: seq<Step>, j: Id, due: nat)
    requires Inv(s) && IsRun(s, steps) && (j in s.jobs ==> s.jobs[j].runAfter == due)
    ensures j in After(s, steps).jobs ==> After(s, steps).jobs[j].runAfter == DueAtEnd(s, steps, j, due)
    decreases |steps|
  {
    if steps != [] {
      StepKeepsInv(s, steps[0]);
      if steps[0].Finish? {
        assert PhaseOk(s, steps[0].worker);
      }
      RunAfterIsDue(Next(s, steps[0]), steps[1..], j, DueAfter(s, steps[0], j, due));
    }
  }

  /** A retried job is queued again, and an inserted one is as the request said, queued and never tried. */
  lemma RetriedAndInserted(s: State, step: Step, j: Id)
    requires Inv(s) && Enabled(s, step)
    ensures step.Finish? && step.execution.RetryAfter? && Handles(s, step.worker, j) ==>
              j in Next(s, step).jobs && Next(s, step).jobs[j].status == Queued
    ensures step.Insert? && step.id == j && j !in s.jobs && j in Next(s, step).jobs ==>
              var job := Next(s, step).jobs[j];
              job.kind == step.kind && job.target == step.target && job.tenant == Some(step.tenant) && job.status == Queued && job.attempts == 0
  {
    if step.Finish? {
      assert PhaseOk(s, step.worker);
    }
  }

  // ---------- Abandoned jobs ----------

  predicate Held(s: State, j: Id) {
    exists w :: w in s.workers && s.workers[w].job == j
  }

  /** Marked as processing, and nobody is at it. */
  predicate Abandoned(s: State, j: Id) {
    j in s.jobs && s.jobs[j].status == Processing && !Held(s, j)
  }

  /** A job becomes abandoned only when the worker handling it vanishes, and then it does. */
  lemma AbandonedExactly(s: State, step: Step, j: Id)
    requires Inv(s) && Enabled(s, step) && !Abandoned(s, j)
    ensures Abandoned(Next(s, step), j) <==> step.Vanish? && s.workers[step.worker].Handling? && s.workers[step.worker].job == j
  {
    var s' := Next(s, step);
    match step
    case Vanish(w) =>
      assert PhaseOk(s, w);
      forall v | v in s'.workers
        ensures s'.workers[v].job != s.workers[w].job
      {
        assert v != w;
      }
      if s.workers[w].job != j {
        HeldElsewhere(s, s', w, j);
      }
    case Write(w) =>
      assert PhaseOk(s, w);
      assert w in s'.workers && s'.workers[w].job == s.workers[w].job;
      HeldElsewhere(s, s', w, j);
    case Finish(w, _) =>
      assert PhaseOk(s, w);
      if s.workers[w].job != j {
        HeldElsewhere(s, s', w, j);
      }
    case Lock(w, _, _) =>
      HeldElsewhere(s, s', w, j);
    case _ =>
      HeldElsewhere(s, s', 0, j);
  }

  lemma HeldElsewhere(s: State, s': State, w: nat, j: Id)
    requires forall v :: v != w && v in s.workers ==> v in s'.workers && s'.workers[v] == s.workers[v]
    requires w in s.workers && s.workers[w].job == j ==> w in s'.workers && s'.workers[w].job == j
    ensures Held(s, j) ==> Held(s', j)
  {
    if Held(s, j) {
      var v :| v in s.workers && s.workers[v].job == j;
      assert v in s'.workers && s'.workers[v].job == j;
    }
  }

  /** An abandoned job stays processing for ever: no step of any worker touches it. */
  lemma AbandonedStays(s: State, step: Step, j: Id)
    requires Inv(s) && Enabled(s, step) && Abandoned(s, j)
    ensures Abandoned(Next(s, step), j)
  {
    var s' := Next(s, step);
    forall w | w in s.workers
      ensures s.workers[w].job != j
    {
      assert !Held(s, j);
    }
    forall w | w in s'.workers
      ensures s'.workers[w].job != j
    {
      assert w !in s.workers ==> step.Lock? && step.job != j;
    }
    assert step.Write? || step.Finish? ==> s.workers[step.worker].job != j;
  }

  /** Whatever any number of workers do, an abandoned job stays processing with nobody at it. */
  lemma {:induction false} AbandonedForEver(s: State, steps: seq<Step>, j: Id)
    requires Inv(s) && IsRun(s, steps) && Abandoned(s, j)
    ensures Inv(After(s, steps)) && Abandoned(After(s, steps), j)
    decreases |steps|
  {
    if steps != [] {
      StepKeepsInv(s, steps[0]);
      AbandonedStays(s, steps[0], j);
      AbandonedForEver(Next(s, steps[0]), steps[1..], j);
    }
  }

  /** Some step takes the tenant from the job, because the tenant is deleted. */
  predicate Detaches(steps: seq<Step>, tenant: TenantId, j: Id) {
    exists step :: step in steps && step.DetachTenant? && step.tenant == tenant && step.except != j
  }

  lemma TenantStep(s: State, step: Step, j: Id)
    requires Inv(s) && Enabled(s, step) && Abandoned(s, j)
    ensures j in Next(s, step).jobs
    ensures Next(s, step).jobs[j].tenant ==
              if step.DetachTenant? && s.jobs[j].tenant == Some(step.tenant) && step.except != j then None else s.jobs[j].tenant
  {
    assert step.Write? || step.Finish? ==> s.workers[step.worker].job != j by {
      assert !Held(s, j);
    }
  }

  lemma {:induction false} TenantOfAbandoned(s: State, steps: seq<Step>, j: Id)
    requires Inv(s) && IsRun(s, steps) && Abandoned(s, j)
    ensures j in After(s, steps).jobs
    ensures After(s, steps).jobs[j].tenant ==
              if s.jobs[j].tenant.Some? && Detaches(steps, s.jobs[j].tenant.value, j) then None else s.jobs[j].tenant
    decreases |steps|
  {
    if steps != [] {
      StepKeepsInv(s, steps[0]);
      AbandonedStays(s, steps[0], j);
      TenantStep(s, steps[0], j);
      assert steps == [steps[0]] + steps[1..];
      TenantOfAbandoned(Next(s, steps[0]), steps[1..], j);
    }
  }

  /**
   An abandoned purge blocks every later purge request for its document, after
   any run: the insert conflicts with it exactly as long as its tenant was not
   deleted, and then the request succeeds without inserting anything.
   */
  lemma AbandonedPurgeBlocks(s: State, steps: seq<Step>, j: Id, id: Id, runAfter: Option<nat>)
    requires Inv(s) && IsRun(s, steps) && Abandoned(s, j)
    requires s.jobs[j].kind == PURGE_DOCUMENT && s.jobs[j].target.Some? && s.jobs[j].tenant.Some?
    ensures var last := After(s, steps);
            var tenant := s.jobs[j].tenant.value;
            var again := Insert(id, PURGE_DOCUMENT, s.jobs[j].target, tenant, runAfter);
            && j in last.jobs
            && (SamePurge(last.jobs[j], NewJob(PURGE_DOCUMENT, s.jobs[j].target, tenant, runAfter, last.now)) <==> !Detaches(steps, tenant, j))
            && (!Detaches(steps, tenant, j) ==> Enabled(last, again) && Next(last, again) == last)
  {
    AbandonedForEver(s, steps, j);
    TenantOfAbandoned(s, steps, j);
    RunLosesNothing(s, steps, j);
  }

  // ---------- Purges ----------

  /** i is a pending purge of this document of this tenant. */
  predicate IsPurge(jobs: Jobs, tenant: TenantId, target: Id, i: Id) {
    i in jobs && jobs[i].kind == PURGE_DOCUMENT && jobs[i].target == Some(target) && jobs[i].tenant == Some(tenant) && Pending(jobs[i])
  }

  /** Two workers that handle purges of the same document are the same worker, so no second purge starts beside one. */
  lemma OnePurgeAtATime(s: State, v: nat, w: nat, i: Id, j: Id, tenant: TenantId, target: Id)
    requires Inv(s) && Handles(s, v, i) && Handles(s, w, j)
    requires IsPurge(s.jobs, tenant, target, i) && IsPurge(s.jobs, tenant, target, j)
    ensures v == w && i == j
  {
    assert SamePurge(s.jobs[i], s.jobs[j]);
  }

  /** Where the purge of a document is, as far as the job table and its workers show. */
  datatype PurgePhase = Absent | Waiting | Held | Stuck

  ghost function PurgeOf(s: State, tenant: TenantId, target: Id): PurgePhase {
    if i :| IsPurge(s.jobs, tenant, target, i) then
      if s.jobs[i].status == Queued then Waiting
      else if Held(s, i) then PurgePhase.Held
      else Stuck
    else Absent
  }

  /** A purge is queued, held, and then queued again, marked, or stuck for ever. */
  predicate Moves(p: PurgePhase, q: PurgePhase) {
    || p == q
    || (p.Absent? && q.Waiting?)
    || (p.Waiting? && q.Held?)
    || (p.Held? && !q.Held?)
  }

  lemma PurgeIs(s: State, tenant: TenantId, target: Id, i: Id)
    requires Inv(s) && IsPurge(s.jobs, tenant, target, i)
    ensures PurgeOf(s, tenant, target) ==
              if s.jobs[i].status == Queued then Waiting else if Held(s, i) then PurgePhase.Held else Stuck
  {
    forall k | IsPurge(s.jobs, tenant, target, k)
      ensures k == i
    {
      assert k != i ==> !SamePurge(s.jobs[i], s.jobs[k]);
    }
  }

  /** A purge that is pending after a step was pending before, or was inserted by it. */
  lemma PurgeComesFrom(s: State, step: Step, tenant: TenantId, target: Id, i: Id)
    requires Inv(s) && Enabled(s, step) && IsPurge(Next(s, step).jobs, tenant, target, i)
    ensures IsPurge(s.jobs, tenant, target, i) || (step.Insert? && i !in s.jobs && Next(s, step).jobs[i].status == Queued)
  {
    match step
    case Write(w) => assert PhaseOk(s, w);
    case Finish(w, _) => assert PhaseOk(s, w);
    case _ =>
  }

  lemma PendingMoves(s: State, step: Step, tenant: TenantId, target: Id, i: Id)
    requires Inv(s) && Enabled(s, step) && Inv(Next(s, step))
    requires IsPurge(s.jobs, tenant, target, i) && IsPurge(Next(s, step).jobs, tenant, target, i)
    ensures Moves(PurgeOf(s, tenant, target), PurgeOf(Next(s, step), tenant, target))
  {
    PurgeIs(s, tenant, target, i);
    PurgeIs(Next(s, step), tenant, target, i);
    if Abandoned(s, i) {
      AbandonedStays(s, step, i);
    } else {
      AbandonedExactly(s, step, i);
      if step.Vanish? {
        assert PhaseOk(s, step.worker);
      }
    }
  }

  /** Every step of every worker moves the purge of a document so, as long as its tenant is not deleted. */
  lemma PurgeMoves(s: State, step: Step, tenant: TenantId, target: Id)
    requires Inv(s) && Enabled(s, step) && (step.DetachTenant? ==> step.tenant != tenant)
    ensures Moves(PurgeOf(s, tenant, target), PurgeOf(Next(s, step), tenant, target))
  {
    StepKeepsInv(s, step);
    var s' := Next(s, step);
    if i :| IsPurge(s'.jobs, tenant, target, i) {
      PurgeIs(s', tenant, target, i);
      PurgeComesFrom(s, step, tenant, target, i);
      if IsPurge(s.jobs, tenant, target, i) {
        PendingMoves(s, step, tenant, target, i);
      } else {
        assert PurgeOf(s', tenant, target) == Waiting;
        if k :| IsPurge(s.jobs, tenant, target, k) {
          assert SamePurge(s.jobs[k], s'.jobs[i]);
        }
      }
    } else if i :| IsPurge(s.jobs, tenant, target, i) {
      PurgeIs(s, tenant, target, i);
      NothingIsLost(s, step, i);
      PurgeEnds(s, step, tenant, target, i);
    }
  }

  lemma PurgeEnds(s: State, step: Step, tenant: TenantId, target: Id, i: Id)
    requires Inv(s) && Enabled(s, step) && (step.DetachTenant? ==> step.tenant != tenant)
    requires IsPurge(s.jobs, tenant, target, i) && !IsPurge(Next(s, step).jobs, tenant, target, i)
    ensures s.jobs[i].status != Queued && Held(s, i)
  {
    assert step.Write? ==> PhaseOk(s, step.worker);
    assert step.Finish? ==> PhaseOk(s, step.worker) && (s.workers[step.worker].job == i ==> Held(s, i));
  }
}

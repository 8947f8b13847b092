/** The job queue (lib/app-directory-jobs.ts) with any number of clients and workers, interleaved between database
    statements. */
module AppDirectoryJobs {
  import opened Wrappers

  type JobId = nat
  type Worker = nat
  type Client = nat

  datatype Kind = BackfillListings | BackfillSocial | RescoreTrending
  datatype Status = Queued | Running | Succeeded | Failed
  datatype Counts = Counts(listings: nat, reviews: nat, favorites: nat, seen: nat, failures: nat, rescored: nat)
  datatype Outcome = Returned(counts: Counts) | Threw(message: string)

  datatype Job = Job(kind: Kind, status: Status, createdBy: string, createdAt: int, startedAt: Option<int>,
                     finishedAt: Option<int>, updatedAt: int, progress: string, counts: Counts, error: Option<string>)

  type Jobs = map<JobId, Job>

  const NO_COUNTS := Counts(0, 0, 0, 0, 0, 0)

  predicate Terminal(s: Status) { s.Succeeded? || s.Failed? }
  predicate Active(s: Status) { s.Queued? || s.Running? }

  // ---------------------------------------------------------------- statements

  function NewJob(kind: Kind, createdBy: string, now: int): Job {
    Job(kind, Queued, createdBy, now, None, None, now, "Queued", NO_COUNTS, None)
  }

  predicate CanStart(jobs: Jobs, id: JobId) { id in jobs && jobs[id].status.Queued? }

  function MarkRunning(jobs: Jobs, id: JobId, now: int): Jobs
    requires CanStart(jobs, id)
  {
    jobs[id := jobs[id].(status := Running, startedAt := Some(jobs[id].startedAt.GetOr(now)), updatedAt := now,
                         progress := "Starting")]
  }

  function UpdateProgress(jobs: Jobs, id: JobId, progress: string, counts: Counts, now: int): Jobs {
    if id in jobs then jobs[id := jobs[id].(updatedAt := now, progress := progress, counts := counts)] else jobs
  }

  /** Unlike the start, this statement does not look at the status. */
  function MarkFinished(jobs: Jobs, id: JobId, o: Outcome, now: int): Jobs {
    if id !in jobs then jobs
    else
      match o
      case Returned(counts) =>
        jobs[id := jobs[id].(status := Succeeded, finishedAt := Some(now), updatedAt := now, progress := "Finished",
                             counts := counts, error := None)]
      case Threw(message) =>
        jobs[id := jobs[id].(status := Failed, finishedAt := Some(now), updatedAt := now, progress := "Failed",
                             counts := NO_COUNTS,
                             error := Some(message))]
  }

  // ---------------------------------------------------------------- the interleaved system

  /** How far a worker is with one call of `runAppDirectoryJob`. */
  datatype Phase = Looked(job: JobId) | Holding(job: JobId) | Working(job: JobId) | Ending(job: JobId, outcome: Outcome)

  /** A client that found no active job of the kind, and will insert one. */
  datatype Sys = Sys(jobs: Jobs, clients: map<Client, Kind>, workers: map<Worker, Phase>)

  const START := Sys(map[], map[], map[])

  datatype Action =
    | Look(client: Client, kind: Kind)
    | Insert(client: Client, id: JobId, createdBy: string, now: int)
    | Read(worker: Worker, job: JobId)
    | Start(worker: Worker, now: int)
    | Body(worker: Worker)
    | Progress(worker: Worker, progress: string, counts: Counts, now: int)
    | BodyEnds(worker: Worker, outcome: Outcome)
    | Write(worker: Worker, now: int, refusal: Option<string>)
    | Crash(worker: Worker)

  predicate ActiveKind(jobs: Jobs, kind: Kind) {
    exists id :: id in jobs && jobs[id].kind == kind && Active(jobs[id].status)
  }

  predicate In(s: Sys, w: Worker) { w in s.workers }

  /** One step; a step that is not enabled changes nothing. */
  function Step(s: Sys, a: Action): Sys {
    match a
    case Look(c, kind) => if ActiveKind(s.jobs, kind) then s else s.(clients := s.clients[c := kind])
    case Insert(c, id, createdBy, now) =>
      if c !in s.clients then s
      else if id in s.jobs then s.(clients := s.clients - {c})
      else s.(jobs := s.jobs[id := NewJob(s.clients[c], createdBy, now)], clients := s.clients - {c})
    case Read(w, id) => if !In(s, w) && CanStart(s.jobs, id) then s.(workers := s.workers[w := Looked(id)]) else s
    case Start(w, now) =>
      if !In(s, w) || !s.workers[w].Looked? then s
      else if CanStart(s.jobs, s.workers[w].job) then
        s.(jobs := MarkRunning(s.jobs, s.workers[w].job, now), workers := s.workers[w := Holding(s.workers[w].job)])
      else s.(workers := s.workers - {w})
    case Body(w) => if RunsBody(s, a) then s.(workers := s.workers[w := Working(s.workers[w].job)]) else s
    case Progress(w, progress, counts, now) =>
      if In(s, w) && s.workers[w].Working?
      then s.(jobs := UpdateProgress(s.jobs, s.workers[w].job, progress, counts, now)) else s
    case BodyEnds(w, o) =>
      if In(s, w) && s.workers[w].Working? then s.(workers := s.workers[w := Ending(s.workers[w].job, o)]) else s
    case Write(w, now, refusal) =>
      if !In(s, w) || !s.workers[w].Ending? then s
      else if refusal.None? then
        s.(jobs := MarkFinished(s.jobs, s.workers[w].job, s.workers[w].outcome, now), workers := s.workers - {w})
      else if s.workers[w].outcome.Returned?
      then s.(workers := s.workers[w := Ending(s.workers[w].job, Threw(refusal.value))])
      else s.(workers := s.workers - {w})
    case Crash(w) => s.(workers := s.workers - {w})
  }

  predicate RunsBody(s: Sys, a: Action) { a.Body? && In(s, a.worker) && s.workers[a.worker].Holding? }

  ghost predicate Run(trace: seq<Sys>, acts: seq<Action>) {
    && |trace| == |acts| + 1
    && trace[0] == START
    && forall i :: 0 <= i < |acts| ==> trace[i + 1] == Step(trace[i], acts[i])
  }

  // ---------------------------------------------------------------- one worker to a running job

  predicate Owns(s: Sys, w: Worker, id: JobId) { In(s, w) && !s.workers[w].Looked? && s.workers[w].job == id }

  predicate RowOk(j: Job) {
    && (j.startedAt.None? <==> j.status.Queued?)
    && (j.finishedAt.Some? <==> Terminal(j.status))
    && (j.error.Some? <==> j.status.Failed?)
  }

  ghost predicate Inv(s: Sys) {
    && (forall id :: id in s.jobs ==> RowOk(s.jobs[id]))
    && (forall w, id :: Owns(s, w, id) ==> id in s.jobs && s.jobs[id].status.Running?)
    && (forall v, w, id :: Owns(s, v, id) && Owns(s, w, id) ==> v == w)
  }

  lemma StepKeepsRows(s: Sys, a: Action)
    requires Inv(s)
    ensures forall id :: id in Step(s, a).jobs ==> RowOk(Step(s, a).jobs[id])
  {
    if (a.Write? || a.Progress?) && In(s, a.worker) && !s.workers[a.worker].Looked? {
      assert Owns(s, a.worker, s.workers[a.worker].job);
    }
  }

  lemma StepKeepsOwners(s: Sys, a: Action)
    requires Inv(s)
    ensures forall w, id :: Owns(Step(s, a), w, id) ==> id in Step(s, a).jobs && Step(s, a).jobs[id].status.Running?
  {
    var s' := Step(s, a);
    forall w, id | Owns(s', w, id) ensures id in s'.jobs && s'.jobs[id].status.Running? {
      if Owns(s, w, id) && a.Write? && In(s, a.worker) && s.workers[a.worker].Ending? {
        assert Owns(s, a.worker, s.workers[a.worker].job);
      }
    }
  }

  lemma StepKeepsInv(s: Sys, a: Action)
    requires Inv(s)
    ensures Inv(Step(s, a))
  {
    StepKeepsRows(s, a);
    StepKeepsOwners(s, a);
    var s' := Step(s, a);
    forall v, w, id | Owns(s', v, id) && Owns(s', w, id) ensures v == w {
      assert Owns(s, v, id) || (a.Start? && a.worker == v && CanStart(s.jobs, id));
      assert Owns(s, w, id) || (a.Start? && a.worker == w && CanStart(s.jobs, id));
    }
  }

  lemma {:induction false} RunKeepsInv(trace: seq<Sys>, acts: seq<Action>, i: nat)
    requires Run(trace, acts) && i < |trace|
    ensures Inv(trace[i])
  {
    if i > 0 {
      RunKeepsInv(trace, acts, i - 1);
      StepKeepsInv(trace[i - 1], acts[i - 1]);
    }
  }

  // ---------------------------------------------------------------- how a job moves

  function Level(s: Status): nat { if s.Queued? then 0 else if s.Running? then 1 else 2 }

  /** The status only moves forward; the start is stamped once; a terminal row never changes again. */
  predicate Forward(j: Job, j': Job) {
    && j'.kind == j.kind && j'.createdAt == j.createdAt
    && Level(j.status) <= Level(j'.status)
    && (j.startedAt.Some? ==> j'.startedAt == j.startedAt)
    && (Terminal(j.status) ==> j' == j)
  }

  ghost predicate AllForward(s: Sys, s': Sys) {
    forall id :: id in s.jobs ==> id in s'.jobs && Forward(s.jobs[id], s'.jobs[id])
  }

  lemma StepForward(s: Sys, a: Action)
    requires Inv(s)
    ensures AllForward(s, Step(s, a))
    ensures forall id :: id in s.jobs && s.jobs[id].status.Queued? ==> Level(Step(s, a).jobs[id].status) <= 1
  {
    if a.Write? || a.Progress? {
      WriteForward(s, a);
    }
  }

  lemma WriteForward(s: Sys, a: Action)
    requires Inv(s) && (a.Write? || a.Progress?)
    ensures AllForward(s, Step(s, a))
    ensures forall id :: id in s.jobs && s.jobs[id].status.Queued? ==> Level(Step(s, a).jobs[id].status) <= 1
  {
    if In(s, a.worker) && !s.workers[a.worker].Looked? {
      assert Owns(s, a.worker, s.workers[a.worker].job);
    }
  }

  /** Over every run a job goes from queued to running to one terminal status, and stays there unchanged. */
  lemma {:induction false} RunForward(trace: seq<Sys>, acts: seq<Action>, i: nat, j: nat)
    requires Run(trace, acts) && i <= j < |trace|
    ensures AllForward(trace[i], trace[j])
    decreases j
  {
    if i < j {
      RunForward(trace, acts, i, j - 1);
      RunKeepsInv(trace, acts, j - 1);
      StepForward(trace[j - 1], acts[j - 1]);
    }
  }

  /** No step skips `running`. */
  lemma EveryStatusStep(trace: seq<Sys>, acts: seq<Action>, i: nat, id: JobId)
    requires Run(trace, acts) && i < |acts| && id in trace[i].jobs
    ensures id in trace[i + 1].jobs
    ensures var b, e := trace[i].jobs[id].status, trace[i + 1].jobs[id].status;
            b == e || (b.Queued? && e.Running?) || (b.Running? && Terminal(e))
  {
    RunKeepsInv(trace, acts, i);
    StepForward(trace[i], acts[i]);
  }

  // ---------------------------------------------------------------- what a finished job says

  /** A job whose body returned has succeeded and shows its counts; one whose body threw has failed, shows the error
      and counts nothing.  It keeps its kind, its origin and its start. */
  predicate FinishedAs(j: Job, j': Job, o: Outcome, now: int) {
    && (j'.kind, j'.createdBy, j'.createdAt, j'.startedAt) == (j.kind, j.createdBy, j.createdAt, j.startedAt)
    && j'.finishedAt == Some(now) && j'.updatedAt == now
    && match o
       case Returned(counts) =>
         j'.status == Succeeded && j'.counts == counts && j'.error == None && j'.progress == "Finished"
       case Threw(message) =>
         j'.status == Failed && j'.counts == Counts(0, 0, 0, 0, 0, 0) && j'.error == Some(message)
         && j'.progress == "Failed"
  }

  /** A job that has been started: running since now, and nothing else decided. */
  predicate StartedAs(j: Job, j': Job, now: int) {
    && (j'.kind, j'.createdBy, j'.createdAt, j'.counts, j'.error) == (j.kind, j.createdBy, j.createdAt, j.counts,
        j.error)
    && j'.status == Running && j'.startedAt == Some(now) && j'.updatedAt == now && j'.finishedAt == None
    && j'.progress == "Starting"
  }

  /** Everything that happens to the jobs in a run: a client adds a queued one; a worker starts one that is queued,
      and only its owner reports on it and finishes it, by the outcome of the body, or by the error with which the
      database refused to store that outcome; nothing else changes. */
  lemma EveryChange(trace: seq<Sys>, acts: seq<Action>, i: nat, id: JobId)
    requires Run(trace, acts) && i < |acts| && id in trace[i + 1].jobs
    requires id in trace[i].jobs ==> trace[i + 1].jobs[id] != trace[i].jobs[id]
    ensures var s, a, j' := trace[i], acts[i], trace[i + 1].jobs[id];
            if id !in s.jobs then
              && a.Insert? && a.id == id && a.client in s.clients
              && j' == Job(s.clients[a.client], Queued, a.createdBy, a.now, None, None, a.now, "Queued",
                           Counts(0, 0, 0, 0, 0, 0), None)
            else
              var j := s.jobs[id];
              || (a.Start? && In(s, a.worker) && s.workers[a.worker] == Looked(id) && j.status.Queued?
                  && StartedAs(j, j', a.now))
              || (a.Progress? && Owns(s, a.worker, id) && j.status.Running?
                  && j' == j.(updatedAt := a.now, progress := a.progress, counts := a.counts))
              || (a.Write? && Owns(s, a.worker, id) && j.status.Running? && a.refusal.None?
                  && s.workers[a.worker].Ending? && FinishedAs(j, j', s.workers[a.worker].outcome, a.now))
  {
    RunKeepsInv(trace, acts, i);
    var s, a := trace[i], acts[i];
    if (a.Write? || a.Progress?) && In(s, a.worker) && !s.workers[a.worker].Looked? {
      assert Owns(s, a.worker, s.workers[a.worker].job);
    }
  }

  // ---------------------------------------------------------------- the body runs once

  /** The job has left the queue, and nobody is still about to run its body. */
  ghost predicate BodyBegun(s: Sys, id: JobId) {
    id in s.jobs && !s.jobs[id].status.Queued? && forall w :: w in s.workers ==> s.workers[w] != Holding(id)
  }

  lemma BodyBegins(s: Sys, a: Action)
    requires Inv(s) && RunsBody(s, a)
    ensures BodyBegun(Step(s, a), s.workers[a.worker].job)
  {
    var id := s.workers[a.worker].job;
    var s' := Step(s, a);
    assert Owns(s, a.worker, id);
    forall w | w in s'.workers ensures s'.workers[w] != Holding(id) {
      if s'.workers[w] == Holding(id) {
        assert Owns(s, w, id);
      }
    }
  }

  lemma NobodyTakesItUp(s: Sys, a: Action, id: JobId)
    requires BodyBegun(s, id)
    ensures forall w :: w in Step(s, a).workers ==> Step(s, a).workers[w] != Holding(id)
  {
    hide MarkRunning, MarkFinished, UpdateProgress, ActiveKind, NewJob;
  }

  lemma StepKeepsBegun(s: Sys, a: Action, id: JobId)
    requires Inv(s) && BodyBegun(s, id)
    ensures BodyBegun(Step(s, a), id)
  {
    hide Step, Inv;
    StepForward(s, a);
    NobodyTakesItUp(s, a, id);
  }

  lemma {:induction false} BodyStaysBegun(trace: seq<Sys>, acts: seq<Action>, i: nat, j: nat, id: JobId)
    requires Run(trace, acts) && i <= j < |trace| && BodyBegun(trace[i], id)
    ensures BodyBegun(trace[j], id)
    decreases j
  {
    if i < j {
      BodyStaysBegun(trace, acts, i, j - 1, id);
      RunKeepsInv(trace, acts, j - 1);
      StepKeepsBegun(trace[j - 1], acts[j - 1], id);
    }
  }

  /** In every run, with any number of workers, each job's body runs at most once. */
  lemma BodyRunsOnce(trace: seq<Sys>, acts: seq<Action>, i: nat, j: nat)
    requires Run(trace, acts) && i < j < |acts| && RunsBody(trace[i], acts[i]) && RunsBody(trace[j], acts[j])
    ensures trace[i].workers[acts[i].worker].job != trace[j].workers[acts[j].worker].job
  {
    RunKeepsInv(trace, acts, i);
    BodyBegins(trace[i], acts[i]);
    BodyStaysBegun(trace, acts, i + 1, j, trace[i].workers[acts[i].worker].job);
  }

  /** While a body runs, its job is running and nobody else's, and only its own worker can finish it. */
  lemma OnlyOwnerFinishes(trace: seq<Sys>, acts: seq<Action>, i: nat, w: Worker, id: JobId)
    requires Run(trace, acts) && i < |acts| && Owns(trace[i], w, id)
    ensures id in trace[i].jobs && trace[i].jobs[id].status.Running? && id in trace[i + 1].jobs
    ensures Terminal(trace[i + 1].jobs[id].status) <==>
            acts[i].Write? && acts[i].worker == w && trace[i].workers[w].Ending? && acts[i].refusal.None?
  {
    RunKeepsInv(trace, acts, i);
    var s, a := trace[i], acts[i];
    if a.Write? && In(s, a.worker) && s.workers[a.worker].Ending? && s.workers[a.worker].job == id {
      assert Owns(s, a.worker, id);
    }
  }

  // ---------------------------------------------------------------- a job gets done, or is abandoned

  lemma WorkBegins(s: Sys, w: Worker, id: JobId, start: int, o: Outcome)
    requires Inv(s) && !In(s, w) && CanStart(s.jobs, id)
    ensures var s' := Step(Step(Step(Step(s, Read(w, id)), Start(w, start)), Body(w)), BodyEnds(w, o));
            && In(s', w) && s'.workers[w] == Ending(id, o)
            && s'.jobs.Keys == s.jobs.Keys && StartedAs(s.jobs[id], s'.jobs[id], start)
  {
    hide MarkFinished, UpdateProgress, ActiveKind, NewJob;
    var s1 := Step(s, Read(w, id));
    assert s1.jobs == s.jobs && s1.workers[w] == Looked(id);
    var s2 := Step(s1, Start(w, start));
    assert s2.jobs == MarkRunning(s.jobs, id, start) && s2.workers[w] == Holding(id);
    var s3 := Step(s2, Body(w));
    assert s3.jobs == s2.jobs && s3.workers[w] == Working(id);
  }

  lemma WorkEnds(s: Sys, w: Worker, id: JobId, o: Outcome, now: int, refusal: Option<string>)
    requires In(s, w) && s.workers[w] == Ending(id, o) && id in s.jobs
    ensures var s' := Step(s, Write(w, now, refusal));
            && id in s'.jobs
            && (refusal.None? ==> !In(s', w) && FinishedAs(s.jobs[id], s'.jobs[id], o, now))
            && (refusal.Some? ==> s'.jobs == s.jobs)
            && (refusal.Some? && o.Threw? ==> !In(s', w))
            && (refusal.Some? && o.Returned? ==> In(s', w) && s'.workers[w] == Ending(id, Threw(refusal.value)))
  {
  }

  /** What a working body reports is shown by its job, which is otherwise as it was, and by no other. */
  lemma ReportIsShown(s: Sys, w: Worker, progress: string, counts: Counts, now: int)
    requires Inv(s) && In(s, w) && s.workers[w].Working?
    ensures var id, s' := s.workers[w].job, Step(s, Progress(w, progress, counts, now));
            && id in s.jobs && s'.workers == s.workers && s'.jobs.Keys == s.jobs.Keys
            && s'.jobs[id] == s.jobs[id].(progress := progress, counts := counts, updatedAt := now)
            && forall q :: q in s.jobs && q != id ==> s'.jobs[q] == s.jobs[q]
  {
    assert Owns(s, w, s.workers[w].job);
  }

  /** A free worker that takes up a queued job and is not disturbed runs it to the terminal row of its outcome.  If the
      database refuses to store that the body returned, the refusal is stored as the error; if it refuses to store an
      error, the job stays running without a worker. */
  lemma JobGetsDone(s: Sys, w: Worker, id: JobId, start: int, o: Outcome, now: int, refusal: Option<string>)
    requires Inv(s) && !In(s, w) && id in s.jobs && s.jobs[id].status.Queued?
    ensures var begun := Step(Step(Step(Step(s, Read(w, id)), Start(w, start)), Body(w)), BodyEnds(w, o));
            var ended := Step(begun, Write(w, now, refusal));
            && id in begun.jobs && StartedAs(s.jobs[id], begun.jobs[id], start) && id in ended.jobs
            && (refusal.None? ==> !In(ended, w) && FinishedAs(begun.jobs[id], ended.jobs[id], o, now))
            && (refusal.Some? && o.Threw? ==> !In(ended, w) && ended.jobs == begun.jobs)
            && (refusal.Some? && o.Returned? ==>
                  var again := Step(ended, Write(w, now, None));
                  && !In(again, w) && id in again.jobs
                  && FinishedAs(begun.jobs[id], again.jobs[id], Threw(refusal.value), now))
  {
    hide Step, FinishedAs, StartedAs;
    var begun := Step(Step(Step(Step(s, Read(w, id)), Start(w, start)), Body(w)), BodyEnds(w, o));
    WorkBegins(s, w, id, start, o);
    WorkEnds(begun, w, id, o, now, refusal);
    if refusal.Some? && o.Returned? {
      WorkEnds(Step(begun, Write(w, now, refusal)), w, id, Threw(refusal.value), now, None);
    }
  }

  ghost predicate Abandoned(s: Sys, id: JobId) {
    id in s.jobs && s.jobs[id].status.Running? && forall w :: !Owns(s, w, id)
  }

  /** A worker that crashes abandons its job. */
  lemma CrashAbandons(s: Sys, w: Worker, id: JobId)
    requires Inv(s) && Owns(s, w, id)
    ensures Abandoned(Step(s, Crash(w)), id) && Step(s, Crash(w)).jobs == s.jobs
  {
    var s' := Step(s, Crash(w));
    forall v ensures !Owns(s', v, id) {
      assert Owns(s', v, id) ==> Owns(s, v, id) && v != w;
    }
  }

  lemma NoNewOwner(s: Sys, a: Action, v: Worker, id: JobId)
    requires !CanStart(s.jobs, id) && Owns(Step(s, a), v, id)
    ensures Owns(s, v, id)
  {
    hide MarkFinished, MarkRunning, UpdateProgress, ActiveKind, NewJob;
  }

  lemma OnlyOwnJobs(s: Sys, a: Action, id: JobId)
    requires id in s.jobs && !CanStart(s.jobs, id) && forall w :: !Owns(s, w, id)
    ensures id in Step(s, a).jobs && Step(s, a).jobs[id] == s.jobs[id]
  {
    if (a.Write? || a.Progress?) && In(s, a.worker) && !s.workers[a.worker].Looked? {
      assert !Owns(s, a.worker, id);
    }
  }

  lemma StaysAbandoned(s: Sys, a: Action, id: JobId)
    requires Abandoned(s, id)
    ensures Abandoned(Step(s, a), id) && Step(s, a).jobs[id] == s.jobs[id]
  {
    hide Step, Owns;
    OnlyOwnJobs(s, a, id);
    forall v ensures !Owns(Step(s, a), v, id) {
      if Owns(Step(s, a), v, id) { NoNewOwner(s, a, v, id); }
    }
  }

  /** And then nobody ever takes it up again: the row says "running" for good. */
  lemma {:induction false} AbandonedForGood(trace: seq<Sys>, acts: seq<Action>, i: nat, j: nat, id: JobId)
    requires Run(trace, acts) && i <= j < |trace| && Abandoned(trace[i], id)
    ensures Abandoned(trace[j], id) && trace[j].jobs[id] == trace[i].jobs[id]
    decreases j
  {
    if i < j {
      AbandonedForGood(trace, acts, i, j - 1, id);
      StaysAbandoned(trace[j - 1], acts[j - 1], id);
    }
  }

  // ---------------------------------------------------------------- enqueueing

  /** At most one active job of each kind. */
  ghost predicate OneActive(jobs: Jobs) {
    forall i, j :: i in jobs && j in jobs && jobs[i].kind == jobs[j].kind
                   && Active(jobs[i].status) && Active(jobs[j].status)
                   ==> i == j
  }

  /** Looking and inserting are two statements: an insertion keeps one active job of each kind exactly when none has
      appeared since the client looked. */
  lemma InsertKeepsOneExactly(s: Sys, a: Action)
    requires OneActive(s.jobs) && a.Insert? && a.client in s.clients && a.id !in s.jobs
    ensures OneActive(Step(s, a).jobs) <==> !ActiveKind(s.jobs, s.clients[a.client])
  {
    var jobs' := Step(s, a).jobs;
    assert jobs'[a.id].kind == s.clients[a.client] && Active(jobs'[a.id].status);
    if i :| i in s.jobs && s.jobs[i].kind == s.clients[a.client] && Active(s.jobs[i].status) {
      assert i in jobs' && jobs'[i] == s.jobs[i];
    }
  }

  lemma OtherStepsKeepOne(s: Sys, a: Action)
    requires OneActive(s.jobs) && !a.Insert? && Inv(s)
    ensures OneActive(Step(s, a).jobs)
  {
    StepForward(s, a);
  }

  /** An insertion that comes after another job of the kind has appeared. */
  ghost predicate Late(s: Sys, a: Action) {
    a.Insert? && a.client in s.clients && a.id !in s.jobs && ActiveKind(s.jobs, s.clients[a.client])
  }

  lemma OnTimeKeepsOne(s: Sys, a: Action)
    requires OneActive(s.jobs) && Inv(s) && !Late(s, a)
    ensures OneActive(Step(s, a).jobs)
  {
    if !a.Insert? {
      OtherStepsKeepOne(s, a);
    } else if a.client in s.clients && a.id !in s.jobs {
      InsertKeepsOneExactly(s, a);
    }
  }

  lemma LateBreaksOne(s: Sys, a: Action)
    requires OneActive(s.jobs) && Late(s, a)
    ensures !OneActive(Step(s, a).jobs)
  {
    InsertKeepsOneExactly(s, a);
  }

  /** In every run there is at most one active job of each kind at every point up to `n` exactly when no insertion
      up to there was late. */
  lemma {:induction false} OneActiveExactly(trace: seq<Sys>, acts: seq<Action>, n: nat)
    requires Run(trace, acts) && n < |trace|
    ensures (forall i :: 0 <= i <= n ==> OneActive(trace[i].jobs)) <==> forall i :: 0 <= i < n ==>
                                                                                      !Late(trace[i], acts[i])
  {
    if n > 0 {
      OneActiveExactly(trace, acts, n - 1);
      RunKeepsInv(trace, acts, n - 1);
      var s, a := trace[n - 1], acts[n - 1];
      assert trace[n] == Step(s, a);
      hide Step, ActiveKind, Inv, OneActive;
      if OneActive(s.jobs) {
        if Late(s, a) { LateBreaksOne(s, a); } else { OnTimeKeepsOne(s, a); }
      }
    }
  }

  /** Every client that is about to insert a job has looked earlier in the run, when none of the kind was active. */
  lemma {:induction false} ClientHasLooked(trace: seq<Sys>, acts: seq<Action>, j: nat, c: Client) returns (i: nat)
    requires Run(trace, acts) && j < |trace| && c in trace[j].clients
    ensures i < j && acts[i] == Look(c, trace[j].clients[c])
    ensures forall id :: id in trace[i].jobs && trace[i].jobs[id].kind == trace[j].clients[c] ==>
                           trace[i].jobs[id].status.Succeeded? || trace[i].jobs[id].status.Failed?
  {
    assert j > 0;
    if c in trace[j - 1].clients && trace[j - 1].clients[c] == trace[j].clients[c] {
      i := ClientHasLooked(trace, acts, j - 1, c);
    } else {
      i := j - 1;
    }
  }

  /** A client that looks when none is active, and then inserts, has added a job of the kind and is done. */
  lemma ClientEnqueues(s: Sys, c: Client, kind: Kind, id: JobId, createdBy: string, now: int)
    requires id !in s.jobs && !ActiveKind(s.jobs, kind)
    ensures var s' := Step(Step(s, Look(c, kind)), Insert(c, id, createdBy, now));
            && c !in s'.clients && s'.jobs.Keys == s.jobs.Keys + {id}
            && s'.jobs[id].kind == kind && s'.jobs[id].status.Queued? && s'.jobs[id].createdBy == createdBy
            && s'.jobs[id].createdAt == now
            && (forall q :: q in s.jobs ==> s'.jobs[q] == s.jobs[q])
  {
  }

  /** Two clients that look before either inserts leave two active jobs of one kind. */
  lemma EnqueueCanDuplicate(kind: Kind, x: JobId, y: JobId)
    requires x != y
    ensures var s := Step(Step(Step(Step(START, Look(0, kind)), Look(1, kind)), Insert(0, x, "", 0)),
                          Insert(1, y, "", 0));
            !OneActive(s.jobs)
  {
    var s1 := Step(Step(START, Look(0, kind)), Look(1, kind));
    var s2 := Step(s1, Insert(0, x, "", 0));
    assert OneActive(s2.jobs) && ActiveKind(s2.jobs, kind);
    InsertKeepsOneExactly(s2, Insert(1, y, "", 0));
  }
}

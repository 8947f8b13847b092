/** The statements of the job queue, and a worker that drains it on its own. */
module AppDirectoryJobStore {
  import opened Wrappers
  import opened AppDirectoryJobs

  function Clamp(limit: int): nat { if limit < 1 then 1 else if limit > 10 then 10 else limit }

  function QueuedIds(jobs: Jobs): set<JobId> { set id | id in jobs && jobs[id].status.Queued? }

  /** A job after `runAppDirectoryJob`. */
  function RunAlone(jobs: Jobs, id: JobId, o: Outcome, now: int): Jobs {
    if CanStart(jobs, id) then MarkFinished(MarkRunning(jobs, id, now), id, o, now) else jobs
  }

  class Store {
    var jobs: Jobs

    constructor ()
      ensures jobs == map[]
    {
      jobs := map[];
    }

    /** The newest active job of the kind, or else a new one under the fresh `id`. */
    method Enqueue(kind: Kind, createdBy: string, id: JobId, now: int) returns (job: JobId)
      requires id !in jobs
      modifies this
      ensures job in jobs && jobs[job].kind == kind && Active(jobs[job].status)
      ensures ActiveKind(old(jobs), kind) ==> jobs == old(jobs)
      ensures ActiveKind(old(jobs), kind) ==>
                forall i :: i in jobs && jobs[i].kind == kind && Active(jobs[i].status) ==>
                              jobs[i].createdAt <= jobs[job].createdAt
      ensures !ActiveKind(old(jobs), kind) ==> job == id && jobs == old(jobs)[id := NewJob(kind, createdBy, now)]
      ensures old(OneActive(jobs)) ==> OneActive(jobs)
    {
      var newest: Option<JobId> := None;
      var todo := set i | i in jobs && jobs[i].kind == kind && Active(jobs[i].status);
      ghost var active := todo;
      while todo != {}
        invariant todo <= active
        invariant newest.None? ==> todo == active
        invariant newest.Some? ==> newest.value in active
        invariant newest.Some? ==> forall i :: i in active - todo ==> jobs[i].createdAt <= jobs[newest.value].createdAt
        decreases todo
      {
        var i :| i in todo;
        todo := todo - {i};
        if newest.None? || jobs[newest.value].createdAt < jobs[i].createdAt { newest := Some(i); }
      }
      if newest.Some? { return newest.value; }
      assert forall i :: i in jobs && jobs[i].kind == kind && Active(jobs[i].status) ==> i in active;
      assert !ActiveKind(jobs, kind);
      jobs := jobs[id := NewJob(kind, createdBy, now)];
      return id;
    }

    method TryStart(id: JobId, now: int) returns (started: bool)
      modifies this
      ensures started == CanStart(old(jobs), id)
      ensures jobs == if started then MarkRunning(old(jobs), id, now) else old(jobs)
    {
      started := id in jobs && jobs[id].status == Queued;
      if started {
        jobs := jobs[id := jobs[id].(status := Running, startedAt := Some(jobs[id].startedAt.GetOr(now)),
                                     updatedAt := now,
                                     progress := "Starting")];
      }
    }

    method RunAppDirectoryJob(id: JobId, outcome: Outcome, now: int)
      modifies this
      ensures jobs == RunAlone(old(jobs), id, outcome, now)
      ensures id in old(jobs) && old(jobs)[id].status.Queued? && old(jobs)[id].startedAt.None? ==>
                && jobs.Keys == old(jobs.Keys) && (forall q :: q in jobs && q != id ==> jobs[q] == old(jobs)[q])
                && FinishedAs(old(jobs)[id].(startedAt := Some(now)), jobs[id], outcome, now)
      ensures id !in old(jobs) || !old(jobs)[id].status.Queued? ==> jobs == old(jobs)
    {
      if id !in jobs || jobs[id].status != Queued { return; }
      var started := TryStart(id, now);
      if !started { return; }
      jobs := MarkFinished(jobs, id, outcome, now);
    }

    /** The oldest queued jobs, up to the limit. */
    method ListQueued(limit: int) returns (ids: seq<JobId>)
      ensures forall i, j :: 0 <= i < j < |ids| ==> ids[i] != ids[j]
      ensures forall id :: id in ids ==> id in QueuedIds(jobs)
      ensures |ids| <= Clamp(limit) <= 10 && (|ids| <= limit || |ids| <= 1)
      ensures |ids| < Clamp(limit) ==> forall id :: id in QueuedIds(jobs) ==> id in ids
      ensures |ids| == 0 || (|ids| < limit && |ids| < 10) ==> forall id :: id in QueuedIds(jobs) ==> id in ids
      ensures forall id, q :: id in ids && q in QueuedIds(jobs) && q !in ids ==> jobs[id].createdAt <= jobs[q].createdAt
    {
      ids := [];
      var left := QueuedIds(jobs);
      while left != {} && |ids| < Clamp(limit)
        invariant |ids| <= Clamp(limit)
        invariant forall id :: id in left <==> id in QueuedIds(jobs) && id !in ids
        invariant forall id :: id in ids ==> id in QueuedIds(jobs)
        invariant forall i, j :: 0 <= i < j < |ids| ==> ids[i] != ids[j]
        invariant forall id, q :: id in ids && q in left ==> jobs[id].createdAt <= jobs[q].createdAt
        decreases left
      {
        var oldest := Oldest(left);
        left := left - {oldest};
        ids := ids + [oldest];
      }
    }

    method Oldest(left: set<JobId>) returns (oldest: JobId)
      requires left != {} && left <= QueuedIds(jobs)
      ensures oldest in left && forall q :: q in left ==> jobs[oldest].createdAt <= jobs[q].createdAt
    {
      oldest :| oldest in left;
      var todo := left;
      while todo != {}
        invariant todo <= left && oldest in left
        invariant forall q :: q in left - todo ==> jobs[oldest].createdAt <= jobs[q].createdAt
        decreases todo
      {
        var q :| q in todo;
        todo := todo - {q};
        if jobs[q].createdAt < jobs[oldest].createdAt { oldest := q; }
      }
    }

    /** With no other worker about, exactly the listed jobs are run, each to a terminal status, and no other row
        changes. */
    method RunQueuedAppDirectoryJobs(limit: int, outcome: JobId -> Outcome, now: int) returns (n: nat,
                                                                                               ghost ran: seq<JobId>)
      modifies this
      ensures n == |ran| <= Clamp(limit) <= 10 && (n <= limit || n <= 1)
      ensures forall id :: id in ran ==> id in old(jobs) && old(jobs)[id].status.Queued?
      ensures n < Clamp(limit) ==> QueuedIds(jobs) == {}
      ensures n == 0 || (n < limit && n < 10) ==> QueuedIds(jobs) == {}
      ensures jobs.Keys == old(jobs.Keys)
      ensures forall id, q :: id in ran && q in QueuedIds(jobs) ==> old(jobs)[id].createdAt <= old(jobs)[q].createdAt
      ensures forall id :: id in jobs ==> jobs[id] == if id in ran then RunAlone(old(jobs), id, outcome(id), now)[id]
                                                      else old(jobs)[id]
    {
      var ids := ListQueued(limit);
      ran := ids;
      for i := 0 to |ids|
        invariant jobs.Keys == old(jobs.Keys)
        invariant forall id :: id in jobs ==>
                                 jobs[id] == if id in ids[..i] then RunAlone(old(jobs), id, outcome(id), now)[id]
                                 else old(jobs)[id]
      {
        assert ids[i] !in ids[..i];
        assert ids[i] in QueuedIds(old(jobs));
        RunAppDirectoryJob(ids[i], outcome(ids[i]), now);
      }
      n := |ids|;
      assert ids[..|ids|] == ids;
      forall q | q in QueuedIds(jobs) ensures q in QueuedIds(old(jobs)) && q !in ids {
      }
    }
  }
}

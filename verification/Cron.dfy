/** The cron service: its critical sections as functions of the job list, and the class whose
    methods run them. */
module Cron {
  import opened Options
  import opened Sequences

  type JobId = nat

  /** A job's schedule; `Unknown` is any other kind. */
  datatype Schedule = At(at: Option<int>) | Every(every: Option<int>) | Expr(expr: string) | Unknown

  datatype Status = NeverRun | RanOk | RanError

  datatype Job = Job(
    id: JobId, enabled: bool, schedule: Schedule, deleteAfterRun: bool,
    next: Option<int>, last: Option<int>, status: Status)

  /** The external cron-expression library: the next tick after a time, if the expression parses. */
  type Gronx = (string, int) -> Option<int>

  const MAX_INT64: int := 0x7fff_ffff_ffff_ffff

  /** Two's-complement wrap-around of an int64 addition. */
  function Wrap64(x: int): int {
    (x + MAX_INT64 + 1) % (2 * (MAX_INT64 + 1)) - (MAX_INT64 + 1)
  }

  function ComputeNextRun(schedule: Schedule, now: int, gronx: Gronx): Option<int> {
    match schedule
    case At(at) => if at.Some? && at.value > now then at else None
    case Every(every) =>
      if every.None? || every.value <= 0 then None else Some(Wrap64(now + every.value))
    case Expr(expr) => if expr == "" then None else gronx(expr, now)
    case Unknown => None
  }

  /** What a next run must be: for "at" the given time while it lies ahead, and nothing once it has come;
      for "every" a period from now, or nothing for no period; for an expression what the library gives. */
  ghost predicate RightNext(schedule: Schedule, now: int, gronx: Gronx, next: Option<int>) {
    && (forall t :: schedule == At(Some(t)) ==> (t > now ==> next == Some(t)) && (t <= now ==> next == None))
    && (forall p :: schedule == Every(Some(p)) && p > 0 && 0 <= now + p <= MAX_INT64 ==> next == Some(now + p))
    && (forall p :: schedule == Every(Some(p)) && p <= 0 ==> next == None)
    && (forall x :: schedule == Expr(x) && x != "" ==> next == gronx(x, now))
    && (schedule in {At(None), Every(None), Expr(""), Unknown} ==> next == None)
  }

  lemma NextRunIsRight(schedule: Schedule, now: int, gronx: Gronx)
    ensures RightNext(schedule, now, gronx, ComputeNextRun(schedule, now, gronx))
  {
    match schedule
    case At(_) =>
    case Every(every) => if every.Some? && 0 <= now + every.value <= MAX_INT64 { NoWrap(now + every.value); }
      hide Wrap64;
    case Expr(_) =>
    case Unknown =>
  }

  lemma NoWrap(x: int)
    requires 0 <= x <= MAX_INT64
    ensures Wrap64(x) == x
  {
  }

  // ------------------------------------------------------------ the job list

  predicate Due(job: Job, now: int) {
    job.enabled && job.next.Some? && job.next.value <= now
  }

  function DueIds(jobs: seq<Job>, now: int): seq<JobId> {
    if jobs == [] then [] else
    var last := jobs[|jobs| - 1];
    DueIds(jobs[..|jobs| - 1], now) + if Due(last, now) then [last.id] else []
  }

  /** Each due job loses its next run before its handler is called. */
  function ClearRuns(jobs: seq<Job>, ids: seq<JobId>): seq<Job> {
    seq(|jobs|, i requires 0 <= i < |jobs| => if jobs[i].id in ids then jobs[i].(next := None) else jobs[i])
  }

  function Recompute(jobs: seq<Job>, now: int, gronx: Gronx): seq<Job> {
    seq(|jobs|, i requires 0 <= i < |jobs| =>
      if jobs[i].enabled then jobs[i].(next := ComputeNextRun(jobs[i].schedule, now, gronx)) else jobs[i])
  }

  /** First index of a job, or the length of the list. */
  function IndexOf(jobs: seq<Job>, id: JobId): (i: nat)
    ensures i <= |jobs| && (i < |jobs| ==> jobs[i].id == id)
    ensures forall k :: 0 <= k < i ==> jobs[k].id != id
  {
    if jobs == [] || jobs[0].id == id then 0 else 1 + IndexOf(jobs[1..], id)
  }

  predicate Exists(jobs: seq<Job>, id: JobId) {
    IndexOf(jobs, id) < |jobs|
  }

  function RemoveId(jobs: seq<Job>, id: JobId): seq<Job> {
    if jobs == [] then [] else
    var last := jobs[|jobs| - 1];
    RemoveId(jobs[..|jobs| - 1], id) + if last.id != id then [last] else []
  }

  /** A job after its handler returned. */
  function Ran(job: Job, start: int, now: int, failed: bool, gronx: Gronx): Job {
    var j := job.(last := Some(start), status := if failed then RanError else RanOk);
    if j.schedule.At? then j.(enabled := false, next := None)
    else j.(next := ComputeNextRun(j.schedule, now, gronx))
  }

  /** The second half of a job's execution, after its handler returned; a job that disappeared
      meanwhile is left alone. */
  function FinishJob(jobs: seq<Job>, id: JobId, start: int, now: int, failed: bool, gronx: Gronx): seq<Job> {
    var i := IndexOf(jobs, id);
    if i == |jobs| then jobs
    else if jobs[i].schedule.At? && jobs[i].deleteAfterRun then RemoveId(jobs, id)
    else jobs[i := Ran(jobs[i], start, now, failed, gronx)]
  }

  function SetEnabled(jobs: seq<Job>, id: JobId, enabled: bool, now: int, gronx: Gronx): seq<Job> {
    var i := IndexOf(jobs, id);
    if i == |jobs| then jobs
    else
      var next := if enabled then ComputeNextRun(jobs[i].schedule, now, gronx) else None;
      jobs[i := jobs[i].(enabled := enabled, next := next)]
  }

  function NewJob(id: JobId, schedule: Schedule, now: int, gronx: Gronx): Job {
    Job(id, true, schedule, schedule.At?, ComputeNextRun(schedule, now, gronx), None, NeverRun)
  }

  // ------------------------------------------------------------ what the functions do

  predicate UniqueIds(jobs: seq<Job>) {
    forall i, k :: 0 <= i < k < |jobs| ==> jobs[i].id != jobs[k].id
  }

  lemma {:induction false} DueIdsAre(jobs: seq<Job>, now: int)
    ensures forall id :: id in DueIds(jobs, now) <==> exists j :: j in jobs && j.id == id && Due(j, now)
  {
    if jobs != [] {
      var front, last := jobs[..|jobs| - 1], jobs[|jobs| - 1];
      DueIdsAre(front, now);
      assert jobs == front + [last];
    }
  }

  /** With unique ids a tick collects each job at most once. */
  lemma {:induction false} DueOnce(jobs: seq<Job>, now: int)
    requires UniqueIds(jobs)
    ensures forall id :: multiset(DueIds(jobs, now))[id] <= 1
  {
    if jobs != [] {
      var front, last := jobs[..|jobs| - 1], jobs[|jobs| - 1];
      DueOnce(front, now);
      DueIdsAre(front, now);
      assert last.id !in DueIds(front, now);
    }
  }

  /** Removal keeps exactly the other jobs. */
  lemma {:induction false} RemoveIdIs(jobs: seq<Job>, id: JobId)
    ensures forall j :: j in RemoveId(jobs, id) <==> j in jobs && j.id != id
    ensures |RemoveId(jobs, id)| <= |jobs|
    ensures |RemoveId(jobs, id)| == |jobs| <==> forall j :: j in jobs ==> j.id != id
  {
    if jobs != [] {
      var front, last := jobs[..|jobs| - 1], jobs[|jobs| - 1];
      RemoveIdIs(front, id);
      assert jobs == front + [last];
    }
  }

  /** A tick: exactly the due jobs lose their next run, and nothing else changes. */
  lemma ClearRunsIs(jobs: seq<Job>, now: int)
    requires UniqueIds(jobs)
    ensures var jobs' := ClearRuns(jobs, DueIds(jobs, now));
            |jobs'| == |jobs| && forall i :: 0 <= i < |jobs| ==>
              jobs'[i] == if Due(jobs[i], now) then jobs[i].(next := None) else jobs[i]
  {
    DueIdsAre(jobs, now);
    forall i | 0 <= i < |jobs| ensures jobs[i].id in DueIds(jobs, now) <==> Due(jobs[i], now) {
      assert jobs[i] in jobs;
    }
  }

  /** Only the next runs of enabled jobs change, and they are right. */
  lemma RecomputeIs(jobs: seq<Job>, now: int, gronx: Gronx)
    ensures var jobs' := Recompute(jobs, now, gronx);
            |jobs'| == |jobs| && forall i :: 0 <= i < |jobs| ==>
              && jobs'[i] == jobs[i].(next := jobs'[i].next)
              && (if jobs[i].enabled then RightNext(jobs[i].schedule, now, gronx, jobs'[i].next)
                  else jobs'[i].next == jobs[i].next)
  {
    forall i | 0 <= i < |jobs| { NextRunIsRight(jobs[i].schedule, now, gronx); }
    hide ComputeNextRun;
    hide RightNext;
  }

  /** Only the first job with the id changes. */
  predicate OnlyJob(jobs: seq<Job>, jobs': seq<Job>, id: JobId) {
    && |jobs'| == |jobs|
    && forall i :: 0 <= i < |jobs| && i != IndexOf(jobs, id) ==> jobs'[i] == jobs[i]
  }

  /** Enabling arms the job for its next run, disabling disarms it, and nothing else changes. */
  lemma SetEnabledIs(jobs: seq<Job>, id: JobId, enabled: bool, now: int, gronx: Gronx)
    ensures var jobs', i := SetEnabled(jobs, id, enabled, now, gronx), IndexOf(jobs, id);
            && OnlyJob(jobs, jobs', id)
            && (i < |jobs| ==>
                  && jobs'[i] == jobs[i].(enabled := enabled, next := jobs'[i].next)
                  && (if enabled then RightNext(jobs[i].schedule, now, gronx, jobs'[i].next)
                      else jobs'[i].next == None))
  {
    var i := IndexOf(jobs, id);
    if i < |jobs| { NextRunIsRight(jobs[i].schedule, now, gronx); }
    hide ComputeNextRun;
    hide RightNext;
  }

  /** A job whose handler returned: its start and status are recorded; an "at" job is disabled for
      good, any other is armed for its next run; the rest of the job stays. */
  lemma RanIs(job: Job, start: int, now: int, failed: bool, gronx: Gronx)
    ensures var j := Ran(job, start, now, failed, gronx);
            && j.id == job.id && j.schedule == job.schedule && j.deleteAfterRun == job.deleteAfterRun
            && j.last == Some(start) && (j.status == RanError <==> failed) && (j.status == RanOk <==> !failed)
            && (job.schedule.At? ==> !j.enabled && j.next == None)
            && (!job.schedule.At? ==> j.enabled == job.enabled && RightNext(job.schedule, now, gronx, j.next))
  {
    NextRunIsRight(job.schedule, now, gronx);
    hide ComputeNextRun;
    hide RightNext;
  }

  /** A finished "at" job that deletes itself is gone with the others kept; any other finished job
      has changed in place, alone. */
  lemma FinishJobIs(jobs: seq<Job>, id: JobId, start: int, now: int, failed: bool, gronx: Gronx)
    ensures var jobs', i := FinishJob(jobs, id, start, now, failed, gronx), IndexOf(jobs, id);
            if i < |jobs| && jobs[i].schedule.At? && jobs[i].deleteAfterRun
            then forall j :: j in jobs' <==> j in jobs && j.id != id
            else OnlyJob(jobs, jobs', id) && (i < |jobs| ==> jobs'[i] == Ran(jobs[i], start, now, failed, gronx))
  {
    RemoveIdIs(jobs, id);
    hide Ran;
  }

  lemma {:induction false} RemoveIdKeepsUnique(jobs: seq<Job>, id: JobId)
    requires UniqueIds(jobs)
    ensures UniqueIds(RemoveId(jobs, id))
  {
    if jobs != [] {
      RemoveIdKeepsUnique(jobs[..|jobs| - 1], id);
      RemoveIdIs(jobs[..|jobs| - 1], id);
    }
  }

  /** The ids that exist in the list found at their turn. */
  function StillThere(ids: seq<JobId>, lists: seq<seq<Job>>): seq<JobId>
    requires |ids| == |lists|
  {
    if ids == [] then [] else
    var n := |ids| - 1;
    StillThere(ids[..n], lists[..n]) + if Exists(lists[n], ids[n]) then [ids[n]] else []
  }

  /** The first i of the due jobs have had their turn. */
  ghost predicate CalledSoFar(was: seq<JobId>, calls: seq<JobId>, due: seq<JobId>, i: nat, lists: seq<seq<Job>>) {
    i == |lists| <= |due| && calls == was + StillThere(due[..i], lists)
  }

  lemma NoneCalled(was: seq<JobId>, due: seq<JobId>)
    ensures CalledSoFar(was, was, due, 0, [])
  {
  }

  lemma NextTurn(was: seq<JobId>, calls: seq<JobId>, due: seq<JobId>, i: nat, lists: seq<seq<Job>>, jobs: seq<Job>)
    requires CalledSoFar(was, calls, due, i, lists) && i < |due|
    ensures CalledSoFar(was, if Exists(jobs, due[i]) then calls + [due[i]] else calls, due, i + 1, lists + [jobs])
  {
    hide Exists;
    var a, b := due[..i + 1], lists + [jobs];
    assert a[..i] == due[..i] && b[..i] == lists && a[i] == due[i] && b[i] == jobs;
    assert StillThere(a, b) == StillThere(a[..i], b[..i]) + if Exists(b[i], a[i]) then [a[i]] else [];
    hide StillThere;
  }

  lemma AllCalled(was: seq<JobId>, calls: seq<JobId>, due: seq<JobId>, lists: seq<seq<Job>>)
    requires CalledSoFar(was, calls, due, |due|, lists)
    ensures |lists| == |due| && calls == was + StillThere(due, lists)
  {
    assert due[..|due|] == due;
  }

  /** So only due jobs are called, in their order, none more often than it was collected. */
  lemma {:induction false} CalledInOrder(ids: seq<JobId>, lists: seq<seq<Job>>)
    requires |ids| == |lists|
    ensures Subsequence(StillThere(ids, lists), ids)
    ensures forall id :: multiset(StillThere(ids, lists))[id] <= multiset(ids)[id]
  {
    hide Exists;
    if ids != [] {
      var n := |ids| - 1;
      assert ids == ids[..n] + [ids[n]];
      CalledInOrder(ids[..n], lists[..n]);
      var front := StillThere(ids[..n], lists[..n]);
      SubsequenceAppend(front, ids[..n], ids[n]);
      assert StillThere(ids, lists) == if Exists(lists[n], ids[n]) then front + [ids[n]] else front;
      hide Subsequence;
      hide StillThere;
    }
  }

  /** A handler's call: the job list it left behind, when it began and ended, and its result. */
  datatype HandlerRun = HandlerRun(meanwhile: seq<Job>, start: int, end: int, failed: bool)

  // ------------------------------------------------------------ the service

  class CronService {
    const gronx: Gronx
    var jobs: seq<Job>
    var disk: seq<Job>
    var running: bool
    ghost var calls: seq<JobId>   // every handler call, in order

    constructor (disk: seq<Job>, gronx: Gronx)
      ensures jobs == this.disk == disk && !running && this.gronx == gronx && calls == []
    {
      this.gronx := gronx;
      this.jobs, this.disk, running, calls := disk, disk, false, [];
    }

    method SaveStore()
      modifies this`disk
      ensures disk == jobs
    {
      disk := jobs;
    }

    method RecomputeNextRuns(now: int)
      modifies this`jobs
      ensures jobs == Recompute(old(jobs), now, gronx)
    {
      ghost var before := jobs;
      for i := 0 to |jobs|
        invariant |jobs| == |before|
        invariant forall k :: 0 <= k < i ==> jobs[k] == Recompute(before, now, gronx)[k]
        invariant forall k :: i <= k < |jobs| ==> jobs[k] == before[k]
      {
        if jobs[i].enabled {
          jobs := jobs[i := jobs[i].(next := ComputeNextRun(jobs[i].schedule, now, gronx))];
        }
      }
    }

    /** Loads the store, recomputes and saves. A failing load leaves an empty job list, a failing save
        the recomputed one, and in both cases the service does not run. */
    method Start(now: int, loadFails: bool, saveFails: bool) returns (ok: bool)
      modifies this
      ensures calls == old(calls)
      ensures ok <==> old(running) || (!loadFails && !saveFails)
      ensures running <==> ok
      ensures old(running) ==> jobs == old(jobs) && disk == old(disk)
      ensures !old(running) ==> jobs == if loadFails then [] else Recompute(old(disk), now, gronx)
      ensures !old(running) && !loadFails ==>
                forall i :: 0 <= i < |jobs| && jobs[i].enabled ==> RightNext(jobs[i].schedule, now, gronx, jobs[i].next)
      ensures !old(running) ==> disk == if ok then jobs else old(disk)
    {
      if running {
        return true;
      }
      jobs := [];
      if loadFails {
        return false;
      }
      jobs := disk;
      RecomputeIs(jobs, now, gronx);
      hide RightNext;
      RecomputeNextRuns(now);
      if saveFails {
        return false;
      }
      SaveStore();
      running := true;
      return true;
    }

    method Stop()
      modifies this`running
      ensures !running
    {
      running := false;
    }

    /** The critical section of a tick: collects the due jobs and clears their next runs. */
    method CollectDue(now: int) returns (dueJobIds: seq<JobId>)
      modifies this`jobs, this`disk
      ensures dueJobIds == if old(running) then DueIds(old(jobs), now) else []
      ensures jobs == ClearRuns(old(jobs), dueJobIds)
      ensures disk == if running then jobs else old(disk)
    {
      dueJobIds := [];
      if !running {
        assert ClearRuns(jobs, []) == jobs;
        return;
      }
      for i := 0 to |jobs|
        invariant dueJobIds == DueIds(jobs[..i], now)
      {
        assert jobs[..i + 1][..i] == jobs[..i];
        if jobs[i].enabled && jobs[i].next.Some? && jobs[i].next.value <= now {
          dueJobIds := dueJobIds + [jobs[i].id];
        }
      }
      assert jobs[..|jobs|] == jobs;
      ghost var before := jobs;
      for i := 0 to |jobs|
        invariant |jobs| == |before|
        invariant forall k :: 0 <= k < i ==> jobs[k] == ClearRuns(before, dueJobIds)[k]
        invariant forall k :: i <= k < |jobs| ==> jobs[k] == before[k]
      {
        if jobs[i].id in dueJobIds {
          jobs := jobs[i := jobs[i].(next := None)];
        }
      }
      SaveStore();
    }

    method Find(id: JobId) returns (i: nat)
      ensures i == IndexOf(jobs, id)
    {
      i := 0;
      while i < |jobs|
        invariant 0 <= i <= |jobs|
        invariant forall k :: 0 <= k < i ==> jobs[k].id != id
      {
        if jobs[i].id == id {
          return;
        }
        i := i + 1;
      }
    }

    method RemoveJob(id: JobId) returns (removed: bool)
      modifies this`jobs, this`disk
      ensures jobs == RemoveId(old(jobs), id)
      ensures removed <==> exists j :: j in old(jobs) && j.id == id
      ensures disk == if removed then jobs else old(disk)
    {
      var kept := [];
      for i := 0 to |jobs|
        invariant kept == RemoveId(jobs[..i], id)
      {
        assert jobs[..i + 1][..i] == jobs[..i];
        if jobs[i].id != id {
          kept := kept + [jobs[i]];
        }
      }
      assert jobs[..|jobs|] == jobs;
      RemoveIdIs(jobs, id);
      removed := |kept| < |jobs|;
      jobs := kept;
      if removed {
        SaveStore();
      }
    }

    /** The critical section after a handler returned. */
    method FinishExecution(id: JobId, start: int, now: int, failed: bool)
      modifies this`jobs, this`disk
      ensures jobs == FinishJob(old(jobs), id, start, now, failed, gronx)
      ensures disk == if Exists(old(jobs), id) then jobs else old(disk)
    {
      var i := Find(id);
      if i == |jobs| {
        return;
      }
      var job := jobs[i];
      job := job.(last := Some(start));
      if failed {
        job := job.(status := RanError);
      } else {
        job := job.(status := RanOk);
      }
      if job.schedule.At? {
        if job.deleteAfterRun {
          var _ := RemoveJob(id);
        } else {
          job := job.(enabled := false, next := None);
          jobs := jobs[i := job];
        }
      } else {
        job := job.(next := ComputeNextRun(job.schedule, now, gronx));
        jobs := jobs[i := job];
      }
      SaveStore();
    }

    /** Whatever other goroutines do to the service while the lock is free. */
    method Interfere()
      modifies this`jobs, this`disk, this`running
    {
      jobs, disk, running := *, *, *;
    }

    /** One job: looked up under the lock, its handler called outside, its state updated under
        the lock again in whatever list there is by then. */
    method ExecuteJobByID(id: JobId) returns (called: bool, ghost run: HandlerRun)
      modifies this
      ensures called <==> Exists(old(jobs), id)
      ensures calls == if called then old(calls) + [id] else old(calls)
      ensures jobs == if called then FinishJob(run.meanwhile, id, run.start, run.end, run.failed, gronx) else old(jobs)
    {
      var startTime: int := *;
      run := HandlerRun(jobs, startTime, 0, false);
      var i := Find(id);
      if i == |jobs| {
        return false, run;
      }
      calls := calls + [id];
      Interfere();
      var failed: bool := *;
      var now: int := *;
      run := HandlerRun(jobs, startTime, now, failed);
      FinishExecution(id, startTime, now, failed);
      return true, run;
    }

    /** A tick: each due job, in the order of the list, has its handler called exactly if it still
        exists when its turn comes; `lists` are the job lists at these turns. */
    method CheckJobs(now: int) returns (ghost due: seq<JobId>, ghost lists: seq<seq<Job>>)
      modifies this
      ensures due == if old(running) then DueIds(old(jobs), now) else []
      ensures |lists| == |due| && calls == old(calls) + StillThere(due, lists)
    {
      var dueJobIds := CollectDue(now);
      due, lists := dueJobIds, [];
      NoneCalled(calls, due);
      hide DueIds;
      hide ClearRuns;
      hide FinishJob;
      hide Exists;
      hide CalledSoFar;
      for i := 0 to |dueJobIds|
        invariant CalledSoFar(old(calls), calls, dueJobIds, i, lists)
      {
        Interfere();
        NextTurn(old(calls), calls, dueJobIds, i, lists, jobs);
        lists := lists + [jobs];
        var called, _ := ExecuteJobByID(dueJobIds[i]);
      }
      AllCalled(old(calls), calls, due, lists);
    }

    method AddJob(id: JobId, schedule: Schedule, now: int) returns (job: Job)
      modifies this`jobs, this`disk
      ensures job == NewJob(id, schedule, now, gronx)
      ensures job.id == id && job.enabled && job.schedule == schedule && job.deleteAfterRun == schedule.At?
      ensures RightNext(schedule, now, gronx, job.next) && job.last == None && job.status == NeverRun
      ensures jobs == disk == old(jobs) + [job]
    {
      NextRunIsRight(schedule, now, gronx);
      hide RightNext;
      var deleteAfterRun := schedule.At?;
      job := Job(id, true, schedule, deleteAfterRun, ComputeNextRun(schedule, now, gronx), None, NeverRun);
      jobs := jobs + [job];
      SaveStore();
    }

    method EnableJob(id: JobId, enabled: bool, now: int)
      modifies this`jobs, this`disk
      ensures jobs == SetEnabled(old(jobs), id, enabled, now, gronx) && OnlyJob(old(jobs), jobs, id)
      ensures var i := IndexOf(old(jobs), id);
              i < |jobs| && enabled ==> jobs[i].enabled && RightNext(jobs[i].schedule, now, gronx, jobs[i].next)
      ensures disk == if Exists(old(jobs), id) then jobs else old(disk)
    {
      SetEnabledIs(jobs, id, enabled, now, gronx);
      hide RightNext;
      var i := Find(id);
      if i < |jobs| {
        var next := None;
        if enabled {
          next := ComputeNextRun(jobs[i].schedule, now, gronx);
        }
        jobs := jobs[i := jobs[i].(enabled := enabled, next := next)];
        SaveStore();
      }
    }
  }
}

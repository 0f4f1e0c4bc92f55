/** Runs of the cron service: any interleaving of ticks of any number of loops, handlers running
    outside the lock, the public operations, restarts and crashes, and what no run can break. */
module CronRuns {
  import opened Options
  import opened Cron

  /** One call of a handler. */
  datatype Run = Run(id: JobId, start: int)

  /** The process and its disk. `pending` holds the collected ids whose execution has not begun,
      `handling` the handlers that have not returned, over all loops; `runs` is the history of
      handler calls, `schedules` the history of all jobs ever known. */
  datatype World = World(
    jobs: seq<Job>, disk: seq<Job>, running: bool, started: bool, clock: int,
    pending: multiset<JobId>, handling: multiset<Run>,
    runs: seq<Run>, schedules: map<JobId, Schedule>)

  datatype Event =
    | Advance(clock: int)
    | Tick
    | Begin(id: JobId)
    | Finish(run: Run, failed: bool)
    | Add(id: JobId, schedule: Schedule)
    | Remove(id: JobId)
    | Enable(id: JobId, enabled: bool)
    | Start
    | Stop
    | Crash

  /** When an event can happen. The clock does not go back and generated ids are fresh. */
  predicate Possible(w: World, e: Event) {
    match e
    case Advance(clock) => clock >= w.clock
    case Tick => w.running
    case Begin(id) => id in w.pending
    case Finish(run, _) => run in w.handling
    case Add(id, _) => id !in w.schedules
    case _ => true
  }

  /** The effect of an event; every critical section that changes jobs also saves them. */
  function Apply(w: World, e: Event, gronx: Gronx): World {
    match e
    case Advance(clock) => w.(clock := clock)
    case Tick =>
      var ids := DueIds(w.jobs, w.clock);
      var jobs := ClearRuns(w.jobs, ids);
      w.(jobs := jobs, disk := jobs, pending := w.pending + multiset(ids))
    case Begin(id) =>
      var w' := w.(pending := w.pending - multiset{id});
      if Exists(w.jobs, id)
      then w'.(handling := w.handling + multiset{Run(id, w.clock)}, runs := w.runs + [Run(id, w.clock)])
      else w'
    case Finish(run, failed) =>
      var jobs := FinishJob(w.jobs, run.id, run.start, w.clock, failed, gronx);
      w.(jobs := jobs, disk := jobs, handling := w.handling - multiset{run})
    case Add(id, schedule) =>
      var jobs := w.jobs + [NewJob(id, schedule, w.clock, gronx)];
      w.(jobs := jobs, disk := jobs, schedules := w.schedules[id := schedule])
    case Remove(id) =>
      var jobs := RemoveId(w.jobs, id);
      w.(jobs := jobs, disk := jobs)
    case Enable(id, enabled) =>
      var jobs := SetEnabled(w.jobs, id, enabled, w.clock, gronx);
      w.(jobs := jobs, disk := jobs)
    case Start =>
      if w.running then w else
      var jobs := Recompute(w.disk, w.clock, gronx);
      w.(jobs := jobs, disk := jobs, running := true, started := true)
    case Stop => w.(running := false)
    case Crash =>
      w.(jobs := w.disk, running := false, started := false, pending := multiset{}, handling := multiset{})
  }

  /** A run in which every event was possible. */
  ghost predicate IsRun(w: World, es: seq<Event>, gronx: Gronx)
    decreases |es|
  {
    es == [] || (Possible(w, es[0]) && IsRun(Apply(w, es[0], gronx), es[1..], gronx))
  }

  function After(w: World, es: seq<Event>, gronx: Gronx): World
    decreases |es|
  {
    if es == [] then w else After(Apply(w, es[0], gronx), es[1..], gronx)
  }

  /** A fresh process on any store file with unique ids, whatever its jobs' states. */
  predicate Initial(w: World) {
    && UniqueIds(w.disk) && w.jobs == w.disk && !w.running && !w.started
    && w.pending == multiset{} && w.handling == multiset{} && w.runs == []
    && w.schedules == map j | j in w.disk :: j.id := j.schedule
  }

  // ------------------------------------------------------------ what an event does to each job

  predicate Sound(w: World) {
    && UniqueIds(w.jobs) && w.disk == w.jobs && (w.running ==> w.started)
    && (forall i :: 0 <= i < |w.jobs| ==>
          w.jobs[i].id in w.schedules && w.schedules[w.jobs[i].id] == w.jobs[i].schedule)
  }

  /** How a job j present before the event reads after it. */
  predicate Becomes(w: World, e: Event, gronx: Gronx, j: Job, j': Job) {
    match e
    case Tick => j' == if Due(j, w.clock) then j.(next := None) else j
    case Finish(run, failed) =>
      j' == if j.id == run.id then Ran(j, run.start, w.clock, failed, gronx) else j
    case Remove(id) => j' == j && j.id != id
    case Enable(id, enabled) =>
      j' == if j.id != id then j
            else j.(enabled := enabled,
                    next := if enabled then ComputeNextRun(j.schedule, w.clock, gronx) else None)
    case Start =>
      j' == if w.running || !j.enabled then j
            else j.(next := ComputeNextRun(j.schedule, w.clock, gronx))
    case _ => j' == j
  }

  ghost predicate StemsFrom(w: World, e: Event, gronx: Gronx, j': Job) {
    || (e.Add? && j' == NewJob(e.id, e.schedule, w.clock, gronx))
    || exists i :: 0 <= i < |w.jobs| && Becomes(w, e, gronx, w.jobs[i], j')
  }

  lemma FinishStems(w: World, run: Run, failed: bool, gronx: Gronx, j': Job)
    requires Sound(w) && j' in FinishJob(w.jobs, run.id, run.start, w.clock, failed, gronx)
    ensures StemsFrom(w, Finish(run, failed), gronx, j')
  {
    var e := Finish(run, failed);
    var i := IndexOf(w.jobs, run.id);
    var jobs' := FinishJob(w.jobs, run.id, run.start, w.clock, failed, gronx);
    if i < |w.jobs| && w.jobs[i].schedule.At? && w.jobs[i].deleteAfterRun {
      RemoveIdIs(w.jobs, run.id);
      var k :| 0 <= k < |w.jobs| && w.jobs[k] == j';
      assert Becomes(w, e, gronx, w.jobs[k], j');
    } else {
      var k :| 0 <= k < |jobs'| && jobs'[k] == j';
      assert Becomes(w, e, gronx, w.jobs[k], j');
    }
  }

  lemma RemoveStems(w: World, id: JobId, gronx: Gronx, j': Job)
    requires j' in RemoveId(w.jobs, id)
    ensures StemsFrom(w, Remove(id), gronx, j')
  {
    RemoveIdIs(w.jobs, id);
    var i :| 0 <= i < |w.jobs| && w.jobs[i] == j';
    assert Becomes(w, Remove(id), gronx, w.jobs[i], j');
  }

  lemma TickStems(w: World, gronx: Gronx, k: nat)
    requires UniqueIds(w.jobs) && k < |w.jobs|
    ensures Becomes(w, Tick, gronx, w.jobs[k], ClearRuns(w.jobs, DueIds(w.jobs, w.clock))[k])
  {
    DueIdsAre(w.jobs, w.clock);
    assert w.jobs[k] in w.jobs;
  }

  /** Every job after an event stems from the job with the same id before it, or was added. */
  lemma JobStems(w: World, e: Event, gronx: Gronx, k: nat)
    requires Sound(w) && Possible(w, e) && k < |Apply(w, e, gronx).jobs|
    ensures StemsFrom(w, e, gronx, Apply(w, e, gronx).jobs[k])
  {
    hide DueIds;
    hide RemoveId;
    hide ComputeNextRun;
    var j' := Apply(w, e, gronx).jobs[k];
    match e
    case Tick => TickStems(w, gronx, k);
    case Finish(run, failed) => FinishStems(w, run, failed, gronx, j');
    case Remove(id) => RemoveStems(w, id, gronx, j');
    case Add(_, _) =>
      assert k < |w.jobs| ==> Becomes(w, e, gronx, w.jobs[k], j');
    case _ =>
      assert Becomes(w, e, gronx, w.jobs[k], j');
  }

  lemma UniqueKept(w: World, e: Event, gronx: Gronx)
    requires Sound(w) && Possible(w, e)
    ensures UniqueIds(Apply(w, e, gronx).jobs)
  {
    hide DueIds;
    hide RemoveId;
    hide ComputeNextRun;
    match e
    case Finish(run, _) => RemoveIdKeepsUnique(w.jobs, run.id);
    case Remove(id) => RemoveIdKeepsUnique(w.jobs, id);
    case _ =>
  }

  lemma HistoryGrows(w: World, e: Event, gronx: Gronx)
    requires Sound(w) && Possible(w, e)
    ensures var w' := Apply(w, e, gronx);
            && w'.disk == w'.jobs && (w'.running ==> w'.started) && w.clock <= w'.clock
            && (w'.started ==> w.started || (e.Start? && !w.running))
            && w'.schedules == if e.Add? then w.schedules[e.id := e.schedule] else w.schedules
  {
    hide DueIds;
    hide ClearRuns;
    hide FinishJob;
    hide SetEnabled;
    hide Recompute;
    hide RemoveId;
    hide NewJob;
    match e
    case Advance(_) =>
    case Tick =>
    case Begin(_) =>
    case Finish(_, _) =>
    case Add(_, _) =>
    case Remove(_) =>
    case Enable(_, _) =>
    case Start =>
    case Stop =>
    case Crash =>
  }

  lemma SoundKept(w: World, e: Event, gronx: Gronx)
    requires Sound(w) && Possible(w, e)
    ensures Sound(Apply(w, e, gronx))
  {
    hide Apply;
    UniqueKept(w, e, gronx);
    HistoryGrows(w, e, gronx);
    var w' := Apply(w, e, gronx);
    forall k | 0 <= k < |w'.jobs|
      ensures w'.jobs[k].id in w'.schedules && w'.schedules[w'.jobs[k].id] == w'.jobs[k].schedule
    {
      JobStems(w, e, gronx, k);
    }
  }

  // ------------------------------------------------------------ one-shot jobs

  function Calls(runs: seq<Run>, id: JobId): nat {
    if runs == [] then 0 else
    Calls(runs[..|runs| - 1], id) + if runs[|runs| - 1].id == id then 1 else 0
  }

  /** How often a job was called or collected for a call. */
  function Fired(w: World, id: JobId): nat {
    w.pending[id] + Calls(w.runs, id)
  }

  /** A one-shot job that was collected can never be armed again: its time has passed. */
  ghost predicate OneShot(w: World) {
    && (forall id :: id in w.pending ==> id in w.schedules)
    && (forall id :: Calls(w.runs, id) > 0 ==> id in w.schedules)
    && (forall id :: id in w.schedules && w.schedules[id].At? ==>
          Fired(w, id) <= 1
          && (Fired(w, id) == 1 ==> w.schedules[id].at.Some? && w.schedules[id].at.value <= w.clock))
    && (forall i :: 0 <= i < |w.jobs| ==> NotRearmed(w, w.jobs[i]))
  }

  predicate NotRearmed(w: World, j: Job) {
    w.started && j.schedule.At? && j.enabled && j.next.Some?
    ==> j.next == j.schedule.at && Fired(w, j.id) == 0
  }

  /** What an event does to the number of times a job was called or collected. */
  lemma FiredChanges(w: World, e: Event, gronx: Gronx, id: JobId)
    requires Sound(w) && Possible(w, e)
    ensures var w' := Apply(w, e, gronx);
            && (Fired(w', id) <= Fired(w, id)
                || (e.Tick? && Fired(w', id) == Fired(w, id) + 1
                    && exists i :: 0 <= i < |w.jobs| && w.jobs[i].id == id && Due(w.jobs[i], w.clock)))
            && (Calls(w'.runs, id) > 0 ==> Calls(w.runs, id) > 0 || id in w.pending)
            && (id in w'.pending ==> id in w.pending || id in w.schedules)
  {
    hide ClearRuns;
    hide FinishJob;
    hide SetEnabled;
    hide Recompute;
    hide RemoveId;
    hide NewJob;
    if e.Tick? {
      DueIdsAre(w.jobs, w.clock);
      DueOnce(w.jobs, w.clock);
      var ids := DueIds(w.jobs, w.clock);
      assert id in multiset(ids) ==> id in ids;
    }
    hide DueIds;
    if e.Begin? && Exists(w.jobs, e.id) {
      assert (w.runs + [Run(e.id, w.clock)])[..|w.runs|] == w.runs;
    }
  }

  lemma OneShotKept(w: World, e: Event, gronx: Gronx)
    requires Sound(w) && OneShot(w) && Possible(w, e)
    ensures OneShot(Apply(w, e, gronx))
  {
    var w' := Apply(w, e, gronx);
    hide Apply;
    HistoryGrows(w, e, gronx);
    SoundKept(w, e, gronx);
    forall id ensures (id in w'.pending ==> id in w'.schedules) && (Calls(w'.runs, id) > 0 ==> id in w'.schedules) {
      FiredChanges(w, e, gronx, id);
    }
    forall id | id in w'.schedules && w'.schedules[id].At?
      ensures Fired(w', id) <= 1
      ensures Fired(w', id) == 1 ==> w'.schedules[id].at.Some? && w'.schedules[id].at.value <= w'.clock
    {
      FiredChanges(w, e, gronx, id);
    }
    forall k | 0 <= k < |w'.jobs| ensures NotRearmed(w', w'.jobs[k]) {
      NotRearmedKept(w, e, gronx, k);
    }
  }

  lemma NotRearmedKept(w: World, e: Event, gronx: Gronx, k: nat)
    requires Sound(w) && OneShot(w) && Possible(w, e) && k < |Apply(w, e, gronx).jobs|
    ensures NotRearmed(Apply(w, e, gronx), Apply(w, e, gronx).jobs[k])
  {
    hide Apply;
    var w' := Apply(w, e, gronx);
    var j' := w'.jobs[k];
    HistoryGrows(w, e, gronx);
    JobStems(w, e, gronx, k);
    FiredChanges(w, e, gronx, j'.id);
    if e.Add? && j' == NewJob(e.id, e.schedule, w.clock, gronx) {
      assert Fired(w, e.id) == 0;
    } else {
      var i :| 0 <= i < |w.jobs| && Becomes(w, e, gronx, w.jobs[i], j');
      var j := w.jobs[i];
      assert j.id == j'.id && NotRearmed(w, j);
      assert j.schedule.At? ==> Fired(w, j.id) <= 1;
    }
  }

  lemma {:induction false} OneShotRun(w: World, es: seq<Event>, gronx: Gronx)
    requires Sound(w) && OneShot(w) && IsRun(w, es, gronx)
    ensures Sound(After(w, es, gronx)) && OneShot(After(w, es, gronx))
    decreases |es|
  {
    hide Apply;
    if es != [] {
      SoundKept(w, es[0], gronx);
      OneShotKept(w, es[0], gronx);
      OneShotRun(Apply(w, es[0], gronx), es[1..], gronx);
    }
  }

  lemma InitialIsSound(w: World)
    requires Initial(w)
    ensures Sound(w) && OneShot(w) && Armed(w)
  {
    forall i | 0 <= i < |w.jobs| ensures w.schedules[w.jobs[i].id] == w.jobs[i].schedule {
      assert w.jobs[i] in w.disk;
    }
  }

  /** One-shot jobs fire at most once: in no run, whatever the interleaving, is the handler of
      an "at" job called twice. */
  lemma OneShotFiresAtMostOnce(w: World, es: seq<Event>, gronx: Gronx, id: JobId)
    requires Initial(w) && IsRun(w, es, gronx)
    requires var w' := After(w, es, gronx); id in w'.schedules && w'.schedules[id].At?
    ensures Calls(After(w, es, gronx).runs, id) <= 1
  {
    InitialIsSound(w);
    OneShotRun(w, es, gronx);
  }

  // ------------------------------------------------------------ recurring jobs are never stuck

  predicate Recurring(s: Schedule) {
    s.Every? && s.every.Some? && s.every.value > 0
  }

  ghost predicate InFlight(w: World, id: JobId) {
    id in w.pending || exists r :: r in w.handling && r.id == id
  }

  ghost predicate IsArmed(w: World, j: Job) {
    w.started && j.enabled && Recurring(j.schedule) ==> j.next.Some? || InFlight(w, j.id)
  }

  ghost predicate Armed(w: World) {
    forall i :: 0 <= i < |w.jobs| ==> IsArmed(w, w.jobs[i])
  }

  lemma DueGoesInFlight(w: World, gronx: Gronx, i: nat)
    requires i < |w.jobs| && Due(w.jobs[i], w.clock)
    ensures InFlight(Apply(w, Tick, gronx), w.jobs[i].id)
  {
    DueIdsAre(w.jobs, w.clock);
    assert w.jobs[i] in w.jobs;
    assert w.jobs[i].id in DueIds(w.jobs, w.clock);
  }

  lemma BeginKeepsInFlight(w: World, begun: JobId, gronx: Gronx, id: JobId)
    requires Possible(w, Begin(begun)) && InFlight(w, id) && Exists(w.jobs, id)
    ensures InFlight(Apply(w, Begin(begun), gronx), id)
  {
    var w' := Apply(w, Begin(begun), gronx);
    hide Exists;
    if begun == id {
      assert Run(id, w.clock) in w'.handling;
    } else if id !in w.pending {
      var r :| r in w.handling && r.id == id;
      assert r in w'.handling;
    }
  }

  lemma FinishKeepsInFlight(w: World, run: Run, failed: bool, gronx: Gronx, id: JobId)
    requires InFlight(w, id) && run.id != id
    ensures InFlight(Apply(w, Finish(run, failed), gronx), id)
  {
    hide FinishJob;
    if id !in w.pending {
      var r :| r in w.handling && r.id == id;
      assert r in Apply(w, Finish(run, failed), gronx).handling;
    }
  }

  /** A job stays in flight until its handler returns, or it is gone, or the process dies; and a
      due job is in flight after a tick. */
  lemma InFlightUntil(w: World, e: Event, gronx: Gronx, i: nat)
    requires Sound(w) && Possible(w, e) && i < |w.jobs|
    ensures var w' := Apply(w, e, gronx); var id := w.jobs[i].id;
            && (InFlight(w, id) ==> InFlight(w', id) || e.Crash? || (e.Finish? && e.run.id == id))
            && (e.Tick? && Due(w.jobs[i], w.clock) ==> InFlight(w', id))
  {
    var id := w.jobs[i].id;
    if e.Tick? && Due(w.jobs[i], w.clock) { DueGoesInFlight(w, gronx, i); }
    if InFlight(w, id) {
      match e
      case Begin(begun) => BeginKeepsInFlight(w, begun, gronx, id);
      case Finish(run, failed) => if run.id != id { FinishKeepsInFlight(w, run, failed, gronx, id); }
      case Crash =>
      case _ => OthersKeepInFlight(w, e, gronx, id);
    }
  }

  lemma OthersKeepInFlight(w: World, e: Event, gronx: Gronx, id: JobId)
    requires InFlight(w, id) && !e.Begin? && !e.Finish? && !e.Crash?
    ensures InFlight(Apply(w, e, gronx), id)
  {
    hide DueIds;
    hide ClearRuns;
    hide SetEnabled;
    hide Recompute;
    hide RemoveId;
    hide NewJob;
  }

  lemma ArmedKept(w: World, e: Event, gronx: Gronx)
    requires Sound(w) && Armed(w) && Possible(w, e)
    ensures Armed(Apply(w, e, gronx))
  {
    hide Apply;
    hide InFlight;
    var w' := Apply(w, e, gronx);
    HistoryGrows(w, e, gronx);
    forall k | 0 <= k < |w'.jobs| ensures IsArmed(w', w'.jobs[k]) {
      JobStems(w, e, gronx, k);
      var j' := w'.jobs[k];
      if !(e.Add? && j' == NewJob(e.id, e.schedule, w.clock, gronx)) {
        var i :| 0 <= i < |w.jobs| && Becomes(w, e, gronx, w.jobs[i], j');
        InFlightUntil(w, e, gronx, i);
        assert IsArmed(w, w.jobs[i]);
        CrashStops(w, e, gronx);
      }
    }
  }

  lemma CrashStops(w: World, e: Event, gronx: Gronx)
    ensures e.Crash? ==> !Apply(w, e, gronx).started
  {
  }

  lemma {:induction false} ArmedRun(w: World, es: seq<Event>, gronx: Gronx)
    requires Sound(w) && Armed(w) && IsRun(w, es, gronx)
    ensures Armed(After(w, es, gronx))
    decreases |es|
  {
    hide Apply;
    hide Armed;
    if es != [] {
      SoundKept(w, es[0], gronx);
      ArmedKept(w, es[0], gronx);
      ArmedRun(Apply(w, es[0], gronx), es[1..], gronx);
    }
  }

  /** Recurring jobs are never stuck: once started, whenever no handler is collected or running,
      every enabled "every" job has its next run set. */
  lemma RecurringJobsNeverStuck(w: World, es: seq<Event>, gronx: Gronx, i: nat)
    requires Initial(w) && IsRun(w, es, gronx)
    requires var w' := After(w, es, gronx);
             && w'.started && w'.pending == multiset{} && w'.handling == multiset{}
             && i < |w'.jobs| && w'.jobs[i].enabled && Recurring(w'.jobs[i].schedule)
    ensures After(w, es, gronx).jobs[i].next.Some?
  {
    InitialIsSound(w);
    ArmedRun(w, es, gronx);
    assert IsArmed(After(w, es, gronx), After(w, es, gronx).jobs[i]);
  }

  // ------------------------------------------------------------ removed jobs stay removed

  predicate Absent(w: World, id: JobId) {
    id in w.schedules && forall i :: 0 <= i < |w.jobs| ==> w.jobs[i].id != id
  }

  lemma AbsentKept(w: World, e: Event, gronx: Gronx, id: JobId)
    requires Sound(w) && Absent(w, id) && Possible(w, e)
    ensures Absent(Apply(w, e, gronx), id)
  {
    hide Apply;
    HistoryGrows(w, e, gronx);
    var w' := Apply(w, e, gronx);
    forall k | 0 <= k < |w'.jobs| ensures w'.jobs[k].id != id {
      JobStems(w, e, gronx, k);
    }
  }

  /** A job that is gone, even while its handler runs, is never resurrected: not by the handler's
      return, not by a restart, not from disk. */
  lemma {:induction false} RemovedStaysRemoved(w: World, es: seq<Event>, gronx: Gronx, id: JobId)
    requires Sound(w) && Absent(w, id) && IsRun(w, es, gronx)
    ensures Absent(After(w, es, gronx), id)
    decreases |es|
  {
    hide Apply;
    hide Absent;
    if es != [] {
      SoundKept(w, es[0], gronx);
      AbsentKept(w, es[0], gronx, id);
      RemovedStaysRemoved(Apply(w, es[0], gronx), es[1..], gronx, id);
    }
  }

  // ------------------------------------------------------------ recurring jobs are spaced

  /** With one loop at a time, a tick or a restart happens only when no handler is left over. */
  predicate OneLoop(w: World, e: Event) {
    e.Tick? || (e.Start? && !w.running) ==> w.pending == multiset{} && w.handling == multiset{}
  }

  ghost predicate IsOneLoopRun(w: World, es: seq<Event>, gronx: Gronx, horizon: int)
    decreases |es|
  {
    && 0 <= w.clock <= horizon
    && (es == [] || (Possible(w, es[0]) && OneLoop(w, es[0])
                     && IsOneLoopRun(Apply(w, es[0], gronx), es[1..], gronx, horizon)))
  }

  /** An "every" schedule whose next run never leaves the int64 range up to the horizon. */
  predicate Paced(s: Schedule, horizon: int) {
    Recurring(s) && s.every.value <= MAX_INT64 - horizon
  }

  /** Every call of the job so far lies at least `every` before t. */
  ghost predicate Rested(w: World, id: JobId, every: int, t: int) {
    forall i :: 0 <= i < |w.runs| && w.runs[i].id == id ==> w.runs[i].start + every <= t
  }

  ghost predicate Spaced(runs: seq<Run>, id: JobId, every: int) {
    forall i, k :: 0 <= i < k < |runs| && runs[i].id == id && runs[k].id == id ==>
                     runs[k].start - runs[i].start >= every
  }

  ghost predicate SpacedFor(w: World, id: JobId, every: int) {
    && Spaced(w.runs, id, every)
    && Rested(w, id, 0, w.clock)
    && (id in w.pending ==> w.pending[id] == 1 && Rested(w, id, every, w.clock))
    && (forall i :: 0 <= i < |w.jobs| && w.jobs[i].id == id ==> NextIsRested(w, w.jobs[i], every))
  }

  ghost predicate NextIsRested(w: World, j: Job, every: int) {
    w.running && j.enabled && j.next.Some? && !InFlight(w, j.id) ==> Rested(w, j.id, every, j.next.value)
  }

  ghost predicate AllSpaced(w: World, horizon: int) {
    && (forall id :: id in w.pending ==> id in w.schedules)
    && (forall i :: 0 <= i < |w.runs| ==> w.runs[i].id in w.schedules)
    && (forall id :: id in w.schedules && Paced(w.schedules[id], horizon) ==>
          SpacedFor(w, id, w.schedules[id].every.value))
  }

  lemma NextWithinRange(s: Schedule, now: int, horizon: int, gronx: Gronx)
    requires Paced(s, horizon) && 0 <= now <= horizon
    ensures ComputeNextRun(s, now, gronx) == Some(now + s.every.value)
  {
  }

  lemma RunsGrow(w: World, e: Event, gronx: Gronx)
    ensures Apply(w, e, gronx).runs == w.runs + if e.Begin? && Exists(w.jobs, e.id) then [Run(e.id, w.clock)] else []
  {
    hide DueIds;
    hide ClearRuns;
    hide FinishJob;
    hide SetEnabled;
    hide Recompute;
    hide RemoveId;
    hide NewJob;
    hide Exists;
  }

  lemma RunningSince(w: World, e: Event, gronx: Gronx)
    ensures Apply(w, e, gronx).running ==> !e.Crash? && (w.running || e.Start?)
    ensures e.Begin? && Exists(w.jobs, e.id) ==> InFlight(Apply(w, e, gronx), e.id)
  {
    hide DueIds;
    hide ClearRuns;
    hide FinishJob;
    hide SetEnabled;
    hide Recompute;
    hide RemoveId;
    hide NewJob;
    hide Exists;
    if e.Begin? && Exists(w.jobs, e.id) {
      assert Run(e.id, w.clock) in Apply(w, e, gronx).handling;
    }
  }

  lemma CollectedRested(w: World, id: JobId, every: int)
    requires Sound(w) && w.running && w.pending == multiset{} && w.handling == multiset{} && SpacedFor(w, id, every)
    ensures var ids := multiset(DueIds(w.jobs, w.clock));
            id in ids ==> ids[id] == 1 && Rested(w, id, every, w.clock)
  {
    var ids := DueIds(w.jobs, w.clock);
    DueIdsAre(w.jobs, w.clock);
    DueOnce(w.jobs, w.clock);
    if id in multiset(ids) {
      assert id in ids;
      var j :| j in w.jobs && j.id == id && Due(j, w.clock);
      assert NextIsRested(w, j, every);
      assert !InFlight(w, id);
    }
  }

  lemma PendingChanges(w: World, e: Event, gronx: Gronx)
    ensures Apply(w, e, gronx).pending
            == match e
               case Tick => w.pending + multiset(DueIds(w.jobs, w.clock))
               case Begin(id) => w.pending - multiset{id}
               case Crash => multiset{}
               case _ => w.pending
  {
    hide DueIds;
    hide ClearRuns;
    hide FinishJob;
    hide SetEnabled;
    hide Recompute;
    hide RemoveId;
    hide NewJob;
    hide Exists;
  }

  lemma PendingRested(w: World, e: Event, gronx: Gronx, id: JobId, every: int)
    requires Sound(w) && Possible(w, e) && OneLoop(w, e) && every > 0 && SpacedFor(w, id, every)
    ensures var w' := Apply(w, e, gronx);
            id in w'.pending ==> w'.pending[id] == 1 && Rested(w', id, every, w'.clock)
  {
    hide Apply;
    RunsGrow(w, e, gronx);
    PendingChanges(w, e, gronx);
    HistoryGrows(w, e, gronx);
    if e.Tick? { CollectedRested(w, id, every); }
    hide DueIds;
    hide NextIsRested;
  }

  lemma JobRested(w: World, e: Event, gronx: Gronx, k: nat, horizon: int)
    requires Sound(w) && Possible(w, e) && 0 <= w.clock <= horizon && k < |Apply(w, e, gronx).jobs|
    requires var id := Apply(w, e, gronx).jobs[k].id;
             id in w.schedules && Paced(w.schedules[id], horizon) && SpacedFor(w, id, w.schedules[id].every.value)
    ensures var j' := Apply(w, e, gronx).jobs[k];
            NextIsRested(Apply(w, e, gronx), j', w.schedules[j'.id].every.value)
  {
    hide Apply;
    hide InFlight;
    var w' := Apply(w, e, gronx);
    var j' := w'.jobs[k];
    var every := w.schedules[j'.id].every.value;
    JobStems(w, e, gronx, k);
    var i :| 0 <= i < |w.jobs| && Becomes(w, e, gronx, w.jobs[i], j');
    var j := w.jobs[i];
    RunsGrow(w, e, gronx);
    RunningSince(w, e, gronx);
    InFlightUntil(w, e, gronx, i);
    NextWithinRange(j.schedule, w.clock, horizon, gronx);
    assert NextIsRested(w, j, every);
    assert Exists(w.jobs, j.id);
    if w'.running && j'.enabled && j'.next.Some? && !InFlight(w', j'.id) {
      assert Rested(w', j'.id, 0, w.clock);
    }
  }

  lemma SpacedForKept(w: World, e: Event, gronx: Gronx, id: JobId, horizon: int)
    requires Sound(w) && Possible(w, e) && OneLoop(w, e) && 0 <= w.clock <= horizon
    requires id in w.schedules && Paced(w.schedules[id], horizon) && SpacedFor(w, id, w.schedules[id].every.value)
    ensures SpacedFor(Apply(w, e, gronx), id, w.schedules[id].every.value)
  {
    hide Apply;
    hide NextIsRested;
    var every := w.schedules[id].every.value;
    var w' := Apply(w, e, gronx);
    PendingRested(w, e, gronx, id, every);
    HistoryGrows(w, e, gronx);
    RunsGrow(w, e, gronx);
    forall i | 0 <= i < |w'.jobs| && w'.jobs[i].id == id ensures NextIsRested(w', w'.jobs[i], every) {
      JobRested(w, e, gronx, i, horizon);
    }
  }

  lemma FreshIsSpaced(w: World, e: Event, gronx: Gronx, horizon: int)
    requires Sound(w) && AllSpaced(w, horizon) && e.Add? && Possible(w, e)
    ensures var every := if e.schedule.Every? && e.schedule.every.Some? then e.schedule.every.value else 0;
            SpacedFor(Apply(w, e, gronx), e.id, every)
  {
    RunsGrow(w, e, gronx);
    assert forall i :: 0 <= i < |w.runs| ==> w.runs[i].id != e.id;
    assert e.id !in w.pending;
  }

  lemma AllSpacedKept(w: World, e: Event, gronx: Gronx, horizon: int)
    requires Sound(w) && AllSpaced(w, horizon) && Possible(w, e) && OneLoop(w, e) && 0 <= w.clock <= horizon
    ensures AllSpaced(Apply(w, e, gronx), horizon)
  {
    hide Apply;
    hide SpacedFor;
    var w' := Apply(w, e, gronx);
    HistoryGrows(w, e, gronx);
    RunsGrow(w, e, gronx);
    forall id | id in w'.pending ensures id in w'.schedules {
      FiredChanges(w, e, gronx, id);
    }
    BegunWasKnown(w, e);
    forall id | id in w'.schedules && Paced(w'.schedules[id], horizon)
      ensures SpacedFor(w', id, w'.schedules[id].every.value)
    {
      if e.Add? && id == e.id {
        FreshIsSpaced(w, e, gronx, horizon);
      } else {
        SpacedForKept(w, e, gronx, id, horizon);
      }
    }
  }

  lemma BegunWasKnown(w: World, e: Event)
    requires Sound(w)
    ensures e.Begin? && Exists(w.jobs, e.id) ==> e.id in w.schedules
  {
  }

  lemma {:induction false} AllSpacedRun(w: World, es: seq<Event>, gronx: Gronx, horizon: int)
    requires Sound(w) && AllSpaced(w, horizon) && IsOneLoopRun(w, es, gronx, horizon)
    ensures AllSpaced(After(w, es, gronx), horizon)
    decreases |es|
  {
    hide Apply;
    hide AllSpaced;
    if es != [] {
      SoundKept(w, es[0], gronx);
      AllSpacedKept(w, es[0], gronx, horizon);
      AllSpacedRun(Apply(w, es[0], gronx), es[1..], gronx, horizon);
    }
  }

  /** Recurring jobs are spaced: with one loop at a time, the handler starts of an "every" job
      are at least its period apart, across Enable, Stop, Start and crashes. */
  lemma RecurringJobsSpaced(w: World, es: seq<Event>, gronx: Gronx, horizon: int, id: JobId)
    requires Initial(w) && IsOneLoopRun(w, es, gronx, horizon)
    requires var w' := After(w, es, gronx); id in w'.schedules && Paced(w'.schedules[id], horizon)
    ensures Spaced(After(w, es, gronx).runs, id, After(w, es, gronx).schedules[id].every.value)
  {
    InitialIsSound(w);
    hide Apply;
    AllSpacedRun(w, es, gronx, horizon);
  }

  /** The period's bound is exact: a next run is a full period away exactly when adding it to the
      clock stays in the int64 range; otherwise the wrapped sum lies in the past and the job is
      due at once. */
  lemma PeriodWrapsAround(every: int, now: int, gronx: Gronx)
    requires 0 < every <= MAX_INT64 && 0 <= now <= MAX_INT64
    ensures var next := ComputeNextRun(Every(Some(every)), now, gronx).value;
            (next >= now + every <==> every <= MAX_INT64 - now) && (every > MAX_INT64 - now ==> next < now)
  {
    if now + every > MAX_INT64 {
      assert Wrap64(now + every) == now + every - 2 * (MAX_INT64 + 1);
    }
  }
}

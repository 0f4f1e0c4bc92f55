/** Runs of the cron service: jobs do fire. An "at" job stays armed for its time until something disarms
    it, and is then called; an "every" job is never armed further away than its period. */
module CronFiring {
  import opened Options
  import opened Cron
  import opened CronRuns

  // ------------------------------------------------------------ what a tick collects

  /** A tick adds each due job to those waiting for their call, once, and no other job. */
  lemma TickCollects(w: World, gronx: Gronx, i: nat)
    requires Sound(w) && w.running && i < |w.jobs|
    ensures var w', id := Apply(w, Tick, gronx), w.jobs[i].id;
            && w'.pending[id] == w.pending[id] + (if Due(w.jobs[i], w.clock) then 1 else 0)
            && |w'.jobs| == |w.jobs|
            && w'.jobs[i] == if Due(w.jobs[i], w.clock) then w.jobs[i].(next := None) else w.jobs[i]
  {
    var id, ids := w.jobs[i].id, DueIds(w.jobs, w.clock);
    DueIdsAre(w.jobs, w.clock);
    DueOnce(w.jobs, w.clock);
    ClearRunsIs(w.jobs, w.clock);
    assert w.jobs[i] in w.jobs;
    assert id in multiset(ids) <==> id in ids;
    assert id in ids <==> Due(w.jobs[i], w.clock);
    hide DueIds;
    hide ClearRuns;
  }

  /** A collected job that still exists is called when its turn comes. */
  lemma BeginCalls(w: World, gronx: Gronx, id: JobId)
    requires id in w.pending && Exists(w.jobs, id)
    ensures Calls(Apply(w, Begin(id), gronx).runs, id) == Calls(w.runs, id) + 1
  {
    hide Exists;
    assert (w.runs + [Run(id, w.clock)])[..|w.runs|] == w.runs;
  }

  // ------------------------------------------------------------ one-shot jobs

  predicate ArmedAt(j: Job, id: JobId, t: int) {
    j.id == id && j.enabled && j.schedule == At(Some(t)) && j.next == Some(t)
  }

  predicate ArmedFor(w: World, id: JobId, t: int) {
    exists i :: 0 <= i < |w.jobs| && ArmedAt(w.jobs[i], id, t)
  }

  /** The events after which an "at" job armed for t no longer is: it is collected, removed, disabled,
      finished, or its next run is computed anew when t has come. */
  predicate Disarms(w: World, e: Event, id: JobId, t: int) {
    match e
    case Tick => t <= w.clock
    case Finish(run, _) => run.id == id
    case Remove(removed) => removed == id
    case Enable(other, enabled) => other == id && (!enabled || t <= w.clock)
    case Start => !w.running && t <= w.clock
    case _ => false
  }

  /** Adding an "at" job arms it exactly when its time lies ahead. */
  lemma AddArms(w: World, e: Event, gronx: Gronx, t: int)
    requires Sound(w) && Possible(w, e) && e.Add? && e.schedule == At(Some(t))
    ensures ArmedFor(Apply(w, e, gronx), e.id, t) <==> t > w.clock
  {
    var w' := Apply(w, e, gronx);
    var n := |w.jobs|;
    assert w'.jobs[n] == NewJob(e.id, e.schedule, w.clock, gronx);
    NextRunIsRight(e.schedule, w.clock, gronx);
    if t > w.clock { assert ArmedAt(w'.jobs[n], e.id, t); }
    forall i | 0 <= i < n ensures w'.jobs[i].id != e.id { assert w'.jobs[i] == w.jobs[i]; }
  }

  /** Enabling it does, too. */
  lemma EnableArms(w: World, gronx: Gronx, i: nat, t: int)
    requires Sound(w) && i < |w.jobs| && w.jobs[i].schedule == At(Some(t))
    ensures ArmedFor(Apply(w, Enable(w.jobs[i].id, true), gronx), w.jobs[i].id, t) <==> t > w.clock
  {
    var id := w.jobs[i].id;
    var w' := Apply(w, Enable(id, true), gronx);
    SetEnabledIs(w.jobs, id, true, w.clock, gronx);
    hide SetEnabled;
    if t > w.clock { assert ArmedAt(w'.jobs[i], id, t); }
  }

  /** And so does a start for an enabled job of the store. */
  lemma StartArms(w: World, gronx: Gronx, i: nat, t: int)
    requires Sound(w) && !w.running && i < |w.jobs| && w.jobs[i].enabled && w.jobs[i].schedule == At(Some(t))
    ensures ArmedFor(Apply(w, Start, gronx), w.jobs[i].id, t) <==> t > w.clock
  {
    var id := w.jobs[i].id;
    var w' := Apply(w, Start, gronx);
    RecomputeIs(w.jobs, w.clock, gronx);
    hide Recompute;
    if t > w.clock { assert ArmedAt(w'.jobs[i], id, t); }
    forall k | 0 <= k < |w'.jobs| && ArmedAt(w'.jobs[k], id, t) ensures k == i { }
  }

  /** An armed "at" job stays armed for its time until one of these events: neither a crash nor a stop,
      nor anything that happens to another job, disarms it. */
  lemma StaysArmedIff(w: World, e: Event, gronx: Gronx, id: JobId, t: int)
    requires Sound(w) && Possible(w, e) && ArmedFor(w, id, t)
    ensures ArmedFor(Apply(w, e, gronx), id, t) <==> !Disarms(w, e, id, t)
  {
    var w' := Apply(w, e, gronx);
    if Disarms(w, e, id, t) {
      hide Apply;
      forall k | 0 <= k < |w'.jobs| ensures !ArmedAt(w'.jobs[k], id, t) {
        JobStems(w, e, gronx, k);
      }
    } else {
      ArmedKeptBy(w, e, gronx, id, t);
    }
  }

  lemma ArmedKeptBy(w: World, e: Event, gronx: Gronx, id: JobId, t: int)
    requires Sound(w) && Possible(w, e) && ArmedFor(w, id, t) && !Disarms(w, e, id, t)
    ensures ArmedFor(Apply(w, e, gronx), id, t)
  {
    hide Apply;
    var i :| 0 <= i < |w.jobs| && ArmedAt(w.jobs[i], id, t);
    JobGoesOn(w, e, gronx, i);
    var w' := Apply(w, e, gronx);
    var j' :| j' in w'.jobs && Becomes(w, e, gronx, w.jobs[i], j');
    NextRunIsRight(At(Some(t)), w.clock, gronx);
    hide ComputeNextRun;
    assert ArmedAt(j', id, t);
  }

  /** A job goes on after an event in the way of that event, unless it was removed or its handler
      returned. */
  lemma JobGoesOn(w: World, e: Event, gronx: Gronx, i: nat)
    requires Sound(w) && Possible(w, e) && i < |w.jobs|
    ensures || e == Remove(w.jobs[i].id) || (e.Finish? && e.run.id == w.jobs[i].id)
            || exists j' :: j' in Apply(w, e, gronx).jobs && Becomes(w, e, gronx, w.jobs[i], j')
  {
    hide ClearRuns;
    hide DueIds;
    hide FinishJob;
    hide RemoveId;
    hide ComputeNextRun;
    var w', j := Apply(w, e, gronx), w.jobs[i];
    match e
    case Tick =>
      TickCollects(w, gronx, i);
      assert Becomes(w, e, gronx, j, w'.jobs[i]);
    case Finish(run, failed) =>
      if j.id != run.id { OthersGoOn(w, run, failed, gronx, i); }
    case Remove(removed) =>
      RemoveIdIs(w.jobs, removed);
      assert j in w.jobs;
      assert j.id != removed ==> Becomes(w, e, gronx, j, j);
    case Add(_, _) =>
      assert w'.jobs[i] == j && Becomes(w, e, gronx, j, w'.jobs[i]);
    case _ =>
      assert |w'.jobs| == |w.jobs|;
      assert Becomes(w, e, gronx, j, w'.jobs[i]);
  }

  lemma OthersGoOn(w: World, run: Run, failed: bool, gronx: Gronx, i: nat)
    requires i < |w.jobs| && w.jobs[i].id != run.id
    ensures w.jobs[i] in Apply(w, Finish(run, failed), gronx).jobs
  {
    FinishJobIs(w.jobs, run.id, run.start, w.clock, failed, gronx);
    hide FinishJob;
    assert w.jobs[i] in w.jobs;
  }

  // ------------------------------------------------------------ over runs

  /** A handler that has not returned was called. */
  ghost predicate HandledWereCalled(w: World) {
    forall r :: r in w.handling ==> Calls(w.runs, r.id) > 0
  }

  lemma CallsGrow(w: World, e: Event, gronx: Gronx, id: JobId)
    ensures Calls(Apply(w, e, gronx).runs, id)
            == Calls(w.runs, id) + if e == Begin(id) && Exists(w.jobs, id) then 1 else 0
  {
    RunsGrow(w, e, gronx);
    hide Apply;
    hide Exists;
    assert w.runs + [] == w.runs;
    if e.Begin? { assert (w.runs + [Run(e.id, w.clock)])[..|w.runs|] == w.runs; }
  }

  lemma HandlingChanges(w: World, e: Event, gronx: Gronx, r: Run)
    requires Possible(w, e) && r in Apply(w, e, gronx).handling
    ensures r in w.handling || (e == Begin(r.id) && Exists(w.jobs, r.id))
  {
    hide DueIds;
    hide ClearRuns;
    hide FinishJob;
    hide SetEnabled;
    hide Recompute;
    hide RemoveId;
    hide NewJob;
    hide Exists;
  }

  lemma HandledKept(w: World, e: Event, gronx: Gronx)
    requires HandledWereCalled(w) && Possible(w, e)
    ensures HandledWereCalled(Apply(w, e, gronx))
  {
    hide Apply;
    hide Exists;
    hide Calls;
    forall r | r in Apply(w, e, gronx).handling ensures Calls(Apply(w, e, gronx).runs, r.id) > 0 {
      HandlingChanges(w, e, gronx, r);
      CallsGrow(w, e, gronx, r.id);
    }
  }

  /** The events that can keep an "at" job from its call: its removal, its being disabled, a late new
      computation of its next run, and a crash after it was collected. */
  predicate Loses(w: World, e: Event, id: JobId, t: int) {
    match e
    case Remove(removed) => removed == id
    case Enable(other, enabled) => other == id && (!enabled || t <= w.clock)
    case Start => !w.running && t <= w.clock
    case Crash => id in w.pending
    case _ => false
  }

  ghost predicate LosesIn(w: World, es: seq<Event>, gronx: Gronx, id: JobId, t: int)
    decreases |es|
  {
    es != [] && (Loses(w, es[0], id, t) || LosesIn(Apply(w, es[0], gronx), es[1..], gronx, id, t))
  }

  ghost predicate Collected(w: World, id: JobId) {
    id in w.pending && Exists(w.jobs, id)
  }

  /** The job is armed for t, or collected, or was called. */
  ghost predicate OnItsWay(w: World, id: JobId, t: int) {
    ArmedFor(w, id, t) || Collected(w, id) || Calls(w.runs, id) > 0
  }

  lemma ExistsIff(jobs: seq<Job>, id: JobId)
    ensures Exists(jobs, id) <==> exists j :: j in jobs && j.id == id
  {
    if Exists(jobs, id) { assert jobs[IndexOf(jobs, id)] in jobs; }
  }

  /** A job is gone after an event only if it was removed, or its handler returned. */
  lemma StaysUnless(w: World, e: Event, gronx: Gronx, id: JobId)
    requires Sound(w) && Possible(w, e) && Exists(w.jobs, id)
    ensures Exists(Apply(w, e, gronx).jobs, id) || e == Remove(id) || (e.Finish? && e.run.id == id)
  {
    JobGoesOn(w, e, gronx, IndexOf(w.jobs, id));
    ExistsIff(Apply(w, e, gronx).jobs, id);
    hide Apply;
    hide ComputeNextRun;
  }

  lemma CollectedKept(w: World, e: Event, gronx: Gronx, id: JobId, t: int)
    requires Sound(w) && HandledWereCalled(w) && Possible(w, e) && Collected(w, id) && !Loses(w, e, id, t)
    ensures OnItsWay(Apply(w, e, gronx), id, t)
  {
    hide Apply;
    hide Exists;
    hide Calls;
    hide ArmedFor;
    StaysUnless(w, e, gronx, id);
    CallsGrow(w, e, gronx, id);
    PendingChanges(w, e, gronx);
    hide DueIds;
  }

  lemma OnItsWayKept(w: World, e: Event, gronx: Gronx, id: JobId, t: int)
    requires Sound(w) && HandledWereCalled(w) && Possible(w, e) && OnItsWay(w, id, t) && !Loses(w, e, id, t)
    ensures OnItsWay(Apply(w, e, gronx), id, t)
  {
    hide Apply;
    hide Exists;
    hide Calls;
    CallsGrow(w, e, gronx, id);
    if Collected(w, id) {
      CollectedKept(w, e, gronx, id, t);
    } else if ArmedFor(w, id, t) {
      StaysArmedIff(w, e, gronx, id, t);
      if e.Tick? && t <= w.clock { ArmedIsCollected(w, gronx, id, t); }
    }
  }

  /** A tick at or after its time collects an armed job. */
  lemma ArmedIsCollected(w: World, gronx: Gronx, id: JobId, t: int)
    requires Sound(w) && w.running && ArmedFor(w, id, t) && t <= w.clock
    ensures Collected(Apply(w, Tick, gronx), id)
  {
    var i :| 0 <= i < |w.jobs| && ArmedAt(w.jobs[i], id, t);
    TickCollects(w, gronx, i);
    ExistsIff(Apply(w, Tick, gronx).jobs, id);
    assert Apply(w, Tick, gronx).jobs[i] in Apply(w, Tick, gronx).jobs;
  }

  lemma {:induction false} OnItsWayRun(w: World, es: seq<Event>, gronx: Gronx, id: JobId, t: int)
    requires Sound(w) && HandledWereCalled(w) && OnItsWay(w, id, t)
    requires IsRun(w, es, gronx) && !LosesIn(w, es, gronx, id, t)
    ensures OnItsWay(After(w, es, gronx), id, t)
    decreases |es|
  {
    hide Apply;
    hide OnItsWay;
    hide HandledWereCalled;
    hide Loses;
    if es != [] {
      SoundKept(w, es[0], gronx);
      HandledKept(w, es[0], gronx);
      OnItsWayKept(w, es[0], gronx, id, t);
      OnItsWayRun(Apply(w, es[0], gronx), es[1..], gronx, id, t);
    }
  }

  lemma {:induction false} HandledRun(w: World, es: seq<Event>, gronx: Gronx)
    requires HandledWereCalled(w) && IsRun(w, es, gronx)
    ensures HandledWereCalled(After(w, es, gronx))
    decreases |es|
  {
    hide Apply;
    hide HandledWereCalled;
    if es != [] {
      HandledKept(w, es[0], gronx);
      HandledRun(Apply(w, es[0], gronx), es[1..], gronx);
    }
  }

  /** What becomes of an "at" job added for a time ahead, in any run without an event that loses it: it
      is armed for its time, or collected, or was called exactly once. In particular a tick at or after
      its time and the turn that follows see it called, and never a second time. */
  lemma OneShotFires(w: World, es: seq<Event>, e: Event, more: seq<Event>, gronx: Gronx, t: int)
    requires Initial(w) && IsRun(w, es, gronx)
    requires Possible(After(w, es, gronx), e) && e.Add? && e.schedule == At(Some(t)) && t > After(w, es, gronx).clock
    requires var added := Apply(After(w, es, gronx), e, gronx);
             IsRun(added, more, gronx) && !LosesIn(added, more, gronx, e.id, t)
    ensures var w' := After(Apply(After(w, es, gronx), e, gronx), more, gronx);
            && (ArmedFor(w', e.id, t) || Collected(w', e.id) || Calls(w'.runs, e.id) == 1)
            && (w'.running && t <= w'.clock ==>
                  var ticked := Apply(w', Tick, gronx);
                  && !ArmedFor(ticked, e.id, t)
                  && (Calls(ticked.runs, e.id) == 1
                      || (Collected(ticked, e.id) && Calls(Apply(ticked, Begin(e.id), gronx).runs, e.id) == 1)))
  {
    var id, before := e.id, After(w, es, gronx);
    InitialIsSound(w);
    OneShotRun(w, es, gronx);
    HandledRun(w, es, gronx);
    var added := Apply(before, e, gronx);
    hide Apply;
    AddArms(before, e, gronx, t);
    SoundKept(before, e, gronx);
    OneShotKept(before, e, gronx);
    HandledKept(before, e, gronx);
    HistoryGrows(before, e, gronx);
    OneShotRun(added, more, gronx);
    HandledRun(added, more, gronx);
    OnItsWayRun(added, more, gronx, id, t);
    ScheduleStays(added, more, gronx, id);
    var w' := After(added, more, gronx);
    CalledOnce(w', id);
    if w'.running && t <= w'.clock { TickThenCall(w', gronx, id, t); }
  }

  lemma {:induction false} ScheduleStays(w: World, es: seq<Event>, gronx: Gronx, id: JobId)
    requires Sound(w) && IsRun(w, es, gronx) && id in w.schedules
    ensures id in After(w, es, gronx).schedules && After(w, es, gronx).schedules[id] == w.schedules[id]
    decreases |es|
  {
    hide Apply;
    if es != [] {
      SoundKept(w, es[0], gronx);
      HistoryGrows(w, es[0], gronx);
      ScheduleStays(Apply(w, es[0], gronx), es[1..], gronx, id);
    }
  }

  lemma CalledOnce(w: World, id: JobId)
    requires OneShot(w) && id in w.schedules && w.schedules[id].At?
    ensures Calls(w.runs, id) <= 1
  {
  }

  lemma TickThenCall(w: World, gronx: Gronx, id: JobId, t: int)
    requires Sound(w) && OneShot(w) && HandledWereCalled(w) && OnItsWay(w, id, t) && w.running && t <= w.clock
    requires id in w.schedules && w.schedules[id].At?
    ensures var ticked := Apply(w, Tick, gronx);
            && !ArmedFor(ticked, id, t)
            && (Calls(ticked.runs, id) == 1
                || (Collected(ticked, id) && Calls(Apply(ticked, Begin(id), gronx).runs, id) == 1))
  {
    var ticked := Apply(w, Tick, gronx);
    hide Apply;
    OnItsWayKept(w, Tick, gronx, id, t);
    SoundKept(w, Tick, gronx);
    OneShotKept(w, Tick, gronx);
    HistoryGrows(w, Tick, gronx);
    NotArmedAfterTick(w, gronx, id, t);
    CalledOnce(ticked, id);
    if Calls(ticked.runs, id) == 0 { BeginCalls(ticked, gronx, id); }
  }

  lemma NotArmedAfterTick(w: World, gronx: Gronx, id: JobId, t: int)
    requires Sound(w) && w.running && t <= w.clock
    ensures !ArmedFor(Apply(w, Tick, gronx), id, t)
  {
    var w' := Apply(w, Tick, gronx);
    ClearRunsIs(w.jobs, w.clock);
    hide ClearRuns;
    hide DueIds;
  }

  // ------------------------------------------------------------ recurring jobs are never late

  ghost predicate NotFar(w: World, j: Job) {
    w.started && j.enabled && Recurring(j.schedule) && j.next.Some? ==>
      j.next.value <= w.clock + j.schedule.every.value
  }

  ghost predicate AllNotFar(w: World) {
    forall i :: 0 <= i < |w.jobs| ==> NotFar(w, w.jobs[i])
  }

  lemma NextIsNotFar(s: Schedule, now: int, gronx: Gronx)
    requires Recurring(s) && -MAX_INT64 - 1 <= now
    ensures ComputeNextRun(s, now, gronx).Some? && ComputeNextRun(s, now, gronx).value <= now + s.every.value
  {
  }

  lemma NotFarKept(w: World, e: Event, gronx: Gronx)
    requires Sound(w) && AllNotFar(w) && Possible(w, e) && w.clock >= 0
    ensures AllNotFar(Apply(w, e, gronx))
  {
    hide Apply;
    hide ComputeNextRun;
    var w' := Apply(w, e, gronx);
    HistoryGrows(w, e, gronx);
    forall k | 0 <= k < |w'.jobs| ensures NotFar(w', w'.jobs[k]) {
      JobStems(w, e, gronx, k);
      var j' := w'.jobs[k];
      if Recurring(j'.schedule) { NextIsNotFar(j'.schedule, w.clock, gronx); }
      if !(e.Add? && j' == NewJob(e.id, e.schedule, w.clock, gronx)) {
        var i :| 0 <= i < |w.jobs| && Becomes(w, e, gronx, w.jobs[i], j');
        assert NotFar(w, w.jobs[i]);
      }
    }
  }

  lemma {:induction false} NotFarRun(w: World, es: seq<Event>, gronx: Gronx)
    requires Sound(w) && AllNotFar(w) && IsRun(w, es, gronx) && w.clock >= 0
    ensures AllNotFar(After(w, es, gronx))
    decreases |es|
  {
    hide Apply;
    hide AllNotFar;
    if es != [] {
      SoundKept(w, es[0], gronx);
      NotFarKept(w, es[0], gronx);
      HistoryGrows(w, es[0], gronx);
      NotFarRun(Apply(w, es[0], gronx), es[1..], gronx);
    }
  }

  /** Recurring jobs are never late: in every run, once started and with no handler collected or running,
      an enabled "every" job is due within its period. */
  lemma RecurringJobsDueWithin(w: World, es: seq<Event>, gronx: Gronx, i: nat)
    requires Initial(w) && IsRun(w, es, gronx) && w.clock >= 0
    requires var w' := After(w, es, gronx);
             && w'.started && w'.pending == multiset{} && w'.handling == multiset{}
             && i < |w'.jobs| && w'.jobs[i].enabled && Recurring(w'.jobs[i].schedule)
    ensures var w' := After(w, es, gronx);
            forall now :: now >= w'.clock + w'.jobs[i].schedule.every.value ==> Due(w'.jobs[i], now)
  {
    RecurringJobsNeverStuck(w, es, gronx, i);
    InitialIsSound(w);
    NotFarRun(w, es, gronx);
    assert NotFar(After(w, es, gronx), After(w, es, gronx).jobs[i]);
  }
}

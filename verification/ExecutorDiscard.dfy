/**
 The discard protocol between a worker and the scheduler thread, over all
 interleavings, and exactly when an overdue task goes unwatched.
 */
module ExecutorDiscard {
  import opened Options
  import opened Executor

  lemma {:induction false} RunDisciplined(c: Config, trace: seq<State>, actions: seq<Action>, i: nat)
    requires Run(c, trace, actions) && i < |trace|
    ensures Disciplined(trace[i])
  {
    if i > 0 {
      RunDisciplined(c, trace, actions, i - 1);
      StepDisciplined(c, trace[i - 1], actions[i - 1], trace[i]);
    }
  }

  /** The assertion against discarding a worker twice never fires. */
  lemma {:induction false} NeverDiscardsTwice(c: Config, trace: seq<State>, actions: seq<Action>, i: nat)
    requires Run(c, trace, actions) && i < |trace|
    ensures !DiscardsTwice(trace[i])
  {
    RunDisciplined(c, trace, actions, i);
  }

  /** The executor is told about a worker at most once, and only if it is discarded. */
  lemma {:induction false} NotifiedOnce(c: Config, trace: seq<State>, actions: seq<Action>, i: nat, w: Wid)
    requires Run(c, trace, actions) && i < |trace| && w in trace[i].workers
    ensures trace[i].workers[w].notices <= 1
    ensures trace[i].workers[w].notices == 1 ==> trace[i].workers[w].discarded
    ensures trace[i].workers[w].discarded && trace[i].workers[w].notices == 0 ==>
              trace[i].scheduler == Checked(w) || trace[i].scheduler == Notifying(w)
  {
    RunDisciplined(c, trace, actions, i);
    assert NoticesOk(trace[i].scheduler, w, trace[i].workers[w]);
  }

  /**
   A worker is discarded only by the check of the very task it is executing, and
   only while that task, which has a timeout and may be discarded, is running.
   */
  lemma {:induction false} OnlyRunningTasksDiscard(c: Config, trace: seq<State>, actions: seq<Action>, i: nat, w: Wid)
    requires Run(c, trace, actions) && i < |actions|
    requires w in trace[i].workers && w in trace[i + 1].workers
    requires !trace[i].workers[w].discarded && trace[i + 1].workers[w].discarded
    ensures var me := trace[i].workers[w];
            && me.pc.Running? && me.pc.t.discard && me.pc.t.timed
            && trace[i].scheduler == Firing(Check(w, me.counter))
  {
    RunDisciplined(c, trace, actions, i);
    var s, a := trace[i], actions[i];
    StepKeepsFlag(c, s, a, trace[i + 1], w);
    assert FiringOk(s.workers, s.checks, s.scheduler.check);
    assert WorkerOk(s.workers[w]);
  }

  lemma WorkerKeepsFlag(c: Config, s: State, a: Action, t: State, w: Wid)
    requires Step(c, s, a, t) && w in s.workers
    requires a.Take? || a.Begin? || a.Finish? || a.Loop? || a.Leave?
    ensures w in t.workers && t.workers[w].discarded == s.workers[w].discarded && t.workers[w].lost == s.workers[w].lost
  {
  }

  lemma ArmKeepsFlag(c: Config, s: State, a: Action, t: State, w: Wid)
    requires Step(c, s, a, t) && w in s.workers
    requires a.Arm? || a.Disarm?
    ensures w in t.workers && t.workers[w].discarded == s.workers[w].discarded
    ensures t.workers[w].lost ==> s.workers[w].lost
  {
  }

  lemma SchedulerKeepsFlag(c: Config, s: State, a: Action, t: State, w: Wid)
    requires Step(c, s, a, t) && w in s.workers
    requires a.Fire? || a.RunCheck? || a.ReadFlag? || a.Notice?
    ensures w in t.workers && (s.workers[w].discarded ==> t.workers[w].discarded)
    ensures !s.workers[w].discarded && t.workers[w].discarded ==> a == RunCheck && s.scheduler.check.worker == w
  {
  }

  lemma LockKeepsFlag(c: Config, s: State, a: Action, t: State, w: Wid)
    requires Step(c, s, a, t) && w in s.workers
    requires a.Start? || a.Spawn? || a.Add? || a.Release? || a.Stop? || a.PutPill? || a.DispatchCheck?
          || a.DispatchPut? || a.Visit? || a.Decide? || a.StopScheduler?
    ensures w in t.workers && t.workers[w] == s.workers[w]
  {
  }

  /** Flags are only ever set, and only by a check. */
  lemma {:induction false} StepKeepsFlag(c: Config, s: State, a: Action, t: State, w: Wid)
    requires Step(c, s, a, t) && w in s.workers
    ensures w in t.workers && (s.workers[w].discarded ==> t.workers[w].discarded)
    ensures !s.workers[w].discarded && t.workers[w].discarded ==> a == RunCheck && s.scheduler.check.worker == w
  {
    hide Step;
    if a.Take? || a.Begin? || a.Finish? || a.Loop? || a.Leave? {
      WorkerKeepsFlag(c, s, a, t, w);
    } else if a.Arm? || a.Disarm? {
      ArmKeepsFlag(c, s, a, t, w);
    } else if a.Fire? || a.RunCheck? || a.ReadFlag? || a.Notice? {
      SchedulerKeepsFlag(c, s, a, t, w);
    } else {
      LockKeepsFlag(c, s, a, t, w);
    }
  }

  /** Once discarded, a worker never waits for, takes or starts a task again. */
  lemma {:induction false} DiscardedTakesNoTask(c: Config, trace: seq<State>, actions: seq<Action>, i: nat, j: nat,
                                                 w: Wid)
    requires Run(c, trace, actions) && i <= j < |trace|
    requires w in trace[i].workers && trace[i].workers[w].discarded
    ensures w in trace[j].workers && trace[j].workers[w].discarded
    ensures var pc := trace[j].workers[w].pc; !pc.Waiting? && !pc.Got? && !pc.Armed?
    decreases j
  {
    if i < j {
      DiscardedTakesNoTask(c, trace, actions, i, j - 1, w);
      StepKeepsFlag(c, trace[j - 1], actions[j - 1], trace[j], w);
    }
    RunDisciplined(c, trace, actions, j);
    assert WorkerOk(trace[j].workers[w]);
  }

  // ------------------------------------------------------------------ supervision

  /** A task with a timeout is being watched, or its worker has been discarded. */
  ghost predicate Watched(me: Worker, w: Wid, checks: Checks, sch: Scheduler) {
    || (me.check.Some? && me.check.value in checks && checks[me.check.value].worker == w)
    || sch == Firing(Check(w, me.counter))
    || me.discarded
  }

  ghost predicate Supervised(me: Worker, w: Wid, checks: Checks, sch: Scheduler) {
    (me.pc.Armed? || me.pc.Running?) && me.pc.t.timed ==> (Watched(me, w, checks, sch) <==> !me.lost)
  }

  ghost predicate AllSupervised(s: State) {
    s.schedulerUp ==> forall w :: w in s.workers ==> Supervised(s.workers[w], w, s.checks, s.scheduler)
  }

  /** A worker moves on without touching its check. */
  lemma MoveSupervised(c: Config, s: State, a: Action, t: State, w: Wid)
    requires Step(c, s, a, t) && w in s.workers && Supervised(s.workers[w], w, s.checks, s.scheduler)
    requires a.Take? || a.Begin? || a.Finish? || a.Loop? || a.Leave?
    ensures w in t.workers && Supervised(t.workers[w], w, t.checks, t.scheduler)
  {
  }

  lemma ArmSupervised(c: Config, s: State, a: Action, t: State, w: Wid)
    requires Disciplined(s) && Step(c, s, a, t) && w in s.workers
    requires Supervised(s.workers[w], w, s.checks, s.scheduler)
    requires a.Arm? || a.Disarm?
    ensures w in t.workers && Supervised(t.workers[w], w, t.checks, t.scheduler)
  {
  }

  lemma FireSupervised(c: Config, s: State, id: Cid, t: State, w: Wid)
    requires Disciplined(s) && Step(c, s, Fire(id), t)
    requires w in s.workers && Supervised(s.workers[w], w, s.checks, s.scheduler)
    ensures Supervised(t.workers[w], w, t.checks, t.scheduler)
  {
  }

  lemma RunCheckSupervised(s: State, t: State, w: Wid)
    requires s.scheduler.Firing? && FiringOk(s.workers, s.checks, s.scheduler.check) && s.schedulerUp
    requires Checking(s, s.scheduler.check.worker, s.scheduler.check.number, t)
    requires w in s.workers && w in t.workers && WorkerOk(s.workers[w])
    requires Supervised(s.workers[w], w, s.checks, s.scheduler)
    requires s.workers[w].check.Some? ==> s.workers[w].check.value < s.nextCheck
    ensures Supervised(t.workers[w], w, t.checks, t.scheduler)
  {
  }

  lemma CheckSupervised(c: Config, s: State, a: Action, t: State, w: Wid)
    requires Disciplined(s) && Step(c, s, a, t) && w in s.workers && s.schedulerUp
    requires Supervised(s.workers[w], w, s.checks, s.scheduler)
    requires a.Fire? || a.RunCheck? || a.ReadFlag? || a.Notice?
    ensures w in t.workers && Supervised(t.workers[w], w, t.checks, t.scheduler)
  {
    match a
    case Fire(id) => FireSupervised(c, s, id, t, w);
    case RunCheck =>
      assert FiringOk(s.workers, s.checks, s.scheduler.check);
      RunCheckSupervised(s, t, w);
    case ReadFlag =>
    case Notice =>
  }

  lemma LockSupervised(c: Config, s: State, a: Action, t: State, w: Wid)
    requires Step(c, s, a, t) && t.schedulerUp && w in t.workers
    requires w in s.workers ==> Supervised(s.workers[w], w, s.checks, s.scheduler)
    requires a.Start? || a.Spawn? || a.Add? || a.Release? || a.Stop? || a.PutPill? || a.DispatchCheck?
          || a.DispatchPut? || a.Visit? || a.Decide? || a.StopScheduler?
    ensures Supervised(t.workers[w], w, t.checks, t.scheduler)
  {
  }

  lemma WorkerFrame(c: Config, s: State, a: Action, t: State)
    requires Step(c, s, a, t) && (a.Take? || a.Begin? || a.Finish? || a.Loop? || a.Leave?)
    ensures t.schedulerUp == s.schedulerUp && t.workers.Keys == s.workers.Keys
  {
  }

  lemma ArmFrame(c: Config, s: State, a: Action, t: State)
    requires Step(c, s, a, t) && (a.Arm? || a.Disarm?)
    ensures t.schedulerUp == s.schedulerUp && t.workers.Keys == s.workers.Keys
  {
  }

  lemma CheckFrame(c: Config, s: State, a: Action, t: State)
    requires Step(c, s, a, t) && (a.Fire? || a.RunCheck? || a.ReadFlag? || a.Notice?)
    ensures t.schedulerUp == s.schedulerUp && t.workers.Keys == s.workers.Keys
  {
  }

  lemma LockFrame(c: Config, s: State, a: Action, t: State)
    requires Step(c, s, a, t)
    requires a.Start? || a.Spawn? || a.Add? || a.Release? || a.Stop? || a.PutPill? || a.DispatchCheck?
          || a.DispatchPut? || a.Visit? || a.Decide? || a.StopScheduler?
    ensures t.schedulerUp ==> s.schedulerUp
  {
  }

  lemma StepSupervised(c: Config, s: State, a: Action, t: State)
    requires Disciplined(s) && AllSupervised(s) && Step(c, s, a, t)
    ensures AllSupervised(t)
  {
    hide Step, Disciplined, Supervised;
    if a.Take? || a.Begin? || a.Finish? || a.Loop? || a.Leave? {
      WorkerFrame(c, s, a, t);
      forall w | w in t.workers && t.schedulerUp ensures Supervised(t.workers[w], w, t.checks, t.scheduler) {
        MoveSupervised(c, s, a, t, w);
      }
    } else if a.Arm? || a.Disarm? {
      ArmFrame(c, s, a, t);
      forall w | w in t.workers && t.schedulerUp ensures Supervised(t.workers[w], w, t.checks, t.scheduler) {
        ArmSupervised(c, s, a, t, w);
      }
    } else if a.Fire? || a.RunCheck? || a.ReadFlag? || a.Notice? {
      CheckFrame(c, s, a, t);
      forall w | w in t.workers && t.schedulerUp ensures Supervised(t.workers[w], w, t.checks, t.scheduler) {
        CheckSupervised(c, s, a, t, w);
      }
    } else {
      LockFrame(c, s, a, t);
      forall w | w in t.workers && t.schedulerUp ensures Supervised(t.workers[w], w, t.checks, t.scheduler) {
        LockSupervised(c, s, a, t, w);
      }
    }
  }

  lemma {:induction false} RunSupervised(c: Config, trace: seq<State>, actions: seq<Action>, i: nat)
    requires Run(c, trace, actions) && i < |trace|
    ensures AllSupervised(trace[i])
  {
    if i > 0 {
      RunSupervised(c, trace, actions, i - 1);
      RunDisciplined(c, trace, actions, i - 1);
      StepSupervised(c, trace[i - 1], actions[i - 1], trace[i]);
    }
  }

  /**
   While the scheduler runs, a started task with a timeout has a check that is
   pending or running, or a discarded worker, if and only if it did not lose its
   check.
   */
  lemma {:induction false} WatchedIffNotLost(c: Config, trace: seq<State>, actions: seq<Action>, i: nat, w: Wid)
    requires Run(c, trace, actions) && i < |trace| && trace[i].schedulerUp && w in trace[i].workers
    requires var pc := trace[i].workers[w].pc; (pc.Armed? || pc.Running?) && pc.t.timed
    ensures Watched(trace[i].workers[w], w, trace[i].checks, trace[i].scheduler) <==> !trace[i].workers[w].lost
  {
    RunSupervised(c, trace, actions, i);
    assert Supervised(trace[i].workers[w], w, trace[i].checks, trace[i].scheduler);
  }

  lemma CheckMayLose(c: Config, s: State, a: Action, t: State, w: Wid)
    requires Disciplined(s) && Step(c, s, a, t) && w in s.workers
    requires a.Fire? || a.RunCheck? || a.ReadFlag? || a.Notice?
    ensures w in t.workers
    ensures !s.workers[w].lost && t.workers[w].lost <==>
            a == RunCheck && !s.workers[w].lost && s.workers[w].pc.Armed? &&
            s.scheduler == Firing(Check(w, s.workers[w].counter))
  {
    assert WorkerOk(s.workers[w]);
  }

  /**
   A check is lost exactly when it runs after it was armed and before its worker
   wrote the task.
   */
  lemma {:induction false} LostInWindow(c: Config, trace: seq<State>, actions: seq<Action>, i: nat, w: Wid)
    requires Run(c, trace, actions) && i < |actions| && w in trace[i].workers
    ensures w in trace[i + 1].workers
    ensures var me := trace[i].workers[w];
            !me.lost && trace[i + 1].workers[w].lost <==>
            actions[i] == RunCheck && !me.lost && me.pc.Armed? && trace[i].scheduler == Firing(Check(w, me.counter))
  {
    RunDisciplined(c, trace, actions, i);
    var s, a, t := trace[i], actions[i], trace[i + 1];
    assert Step(c, s, a, t);
    hide Step, Disciplined;
    if a.Take? || a.Begin? || a.Finish? || a.Loop? || a.Leave? {
      WorkerKeepsFlag(c, s, a, t, w);
    } else if a.Arm? || a.Disarm? {
      ArmKeepsFlag(c, s, a, t, w);
    } else if a.Fire? || a.RunCheck? || a.ReadFlag? || a.Notice? {
      CheckMayLose(c, s, a, t, w);
    } else {
      LockKeepsFlag(c, s, a, t, w);
    }
  }

  // The states of a run in which a check is lost: one worker, one task.

  const OneWorker := Config(1, None, 1)
  const Stubborn := Task(true, true)
  const L1 := Fresh.(started := true, running := true, lock := Creating(1))
  const L2 := L1.(workers := map[0 := NewWorker], lock := Adding(0, 0))
  const L3 := L2.(pool := {0}, lock := Creating(0))
  const L4 := L3.(lock := Free)
  const L5 := L4.(dispatchers := 1)
  const L6 := L5.(dispatchers := 0, queue := [Work(Stubborn)])
  const L7 := L6.(workers := map[0 := NewWorker.(pc := Got(Stubborn))], queue := [])
  const L8 := L7.(workers := map[0 := NewWorker.(pc := Armed(Stubborn), check := Some(0))],
                  checks := map[0 := Check(0, 0)], nextCheck := 1)
  const L9 := L8.(scheduler := Firing(Check(0, 0)), checks := map[])
  const L10 := L9.(workers := map[0 := NewWorker.(pc := Armed(Stubborn), check := Some(0), lost := true)],
                   scheduler := Idle)
  const L11 := L10.(workers := map[0 := NewWorker.(pc := Running(Stubborn), task := Some(Stubborn), check := Some(0),
                                                   lost := true)])

  lemma LostRunHires()
    ensures Step(OneWorker, Fresh, Start, L1) && Step(OneWorker, L1, Spawn(0), L2)
    ensures Step(OneWorker, L2, Add, L3) && Step(OneWorker, L3, Release, L4)
  {
  }

  lemma LostRunDispatches()
    ensures Step(OneWorker, L4, DispatchCheck, L5) && Step(OneWorker, L5, DispatchPut(Stubborn), L6)
    ensures Step(OneWorker, L6, Take(0), L7)
  {
  }

  lemma LostRunChecks()
    ensures Step(OneWorker, L7, Arm(0), L8) && Step(OneWorker, L8, Fire(0), L9)
  {
  }

  lemma LostRunBegins()
    ensures Step(OneWorker, L9, RunCheck, L10) && Step(OneWorker, L10, Begin(0), L11)
  {
  }

  const LostTrace := [Fresh, L1, L2, L3, L4, L5, L6, L7, L8, L9, L10, L11]
  const LostActions := [
    Start, Spawn(0), Add, Release, DispatchCheck, DispatchPut(Stubborn), Take(0), Arm(0), Fire(0), RunCheck, Begin(0)]

  lemma LostRunRuns()
    ensures Run(OneWorker, LostTrace, LostActions)
  {
    hide Step;
    LostRunHires();
    LostRunDispatches();
    LostRunChecks();
    LostRunBegins();
  }

  /**
   The exception does happen: a run in which the check fires between arming and
   the write of _task leaves an overdue discardable task running, with nobody
   watching it and its worker not discarded.
   */
  lemma {:induction false} LostCheckHappens()
    ensures exists trace: seq<State>, actions: seq<Action> ::
              && Run(OneWorker, trace, actions)
              && var s := trace[|trace| - 1];
                 && 0 in s.workers && s.schedulerUp
                 && s.workers[0].pc == Running(Stubborn)
                 && !Watched(s.workers[0], 0, s.checks, s.scheduler)
  {
    LostRunRuns();
    assert !Watched(L11.workers[0], 0, L11.checks, L11.scheduler);
    hide Step;
    assert LostTrace[|LostTrace| - 1] == L11;
  }
}

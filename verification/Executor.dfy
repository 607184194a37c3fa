/**
 The thread-pool executor (lib/vdsm/executor.py): dispatchers, workers and the
 scheduler thread share the worker set, the per-worker locks and the task queue.
 Every critical section, and every write made outside one, is a step; the count
 of active workers, which reads flags one by one while they change, is a step
 for each flag.
 */
module Executor {
  import opened Options

  type Wid = nat
  type Cid = nat

  datatype Config = Config(workersCount: nat, maxWorkers: Option<nat>, maxTasks: nat)

  ghost predicate GoodConfig(c: Config) {
    c.maxWorkers.Some? ==> c.workersCount <= c.maxWorkers.value
  }

  // --------------------------------------------------------------------- state

  /** timed: the task has a timeout. */
  datatype Task = Task(timed: bool, discard: bool)

  datatype Entry = Work(task: Task) | StopPill

  /** Where a worker thread is; fatal marks an exception that ends the thread. */
  datatype Pc =
    | Waiting              // in _next_task
    | Got(t: Task)         // has a task, about to arm the check
    | Armed(t: Task)       // check scheduled, _task not yet written
    | Running(t: Task)     // _task written
    | Ending(fatal: bool)  // _task cleared, about to disarm the check
    | Disarmed(fatal: bool)// task counted, about to look at _discarded
    | Leaving              // about to call _worker_stopped
    | Gone

  /**
   The fields of _Worker, how often the executor was told that it is discarded,
   and whether a check of the current task found no _task and was lost.
   */
  datatype Worker = Worker(
    pc: Pc, discarded: bool, counter: nat, task: Option<Task>, check: Option<Cid>,
    notices: nat, lost: bool)

  const NewWorker := Worker(Waiting, false, 0, None, None, 0, false)

  datatype Check = Check(worker: Wid, number: nat)

  /** Where the scheduler thread is. */
  datatype Scheduler =
    | Idle
    | Firing(check: Check)    // _check_task called, lock not yet taken
    | Checked(worker: Wid)    // lock released, about to look at _discarded
    | Notifying(worker: Wid)  // about to call _worker_discarded
    | InSection               // inside _worker_discarded

  /** The executor lock and how far the section holding it has come. */
  datatype Section =
    | Free
    | Creating(left: nat)                            // workers still to create
    | Adding(worker: Wid, left: nat)                 // thread started, not in the set
    | Counting(unvisited: set<Wid>, seen: set<Wid>)  // _active_workers
    | Pilling(left: nat)                             // stop pills still to put

  /**
   stopped: stop() was called since start(); room: at that moment the queue had
   room for all pills beside the dispatches already past their running check.
   */
  datatype State = State(
    started: bool, running: bool, stopped: bool, room: bool,
    pool: set<Wid>, workers: map<Wid, Worker>, lock: Section,
    queue: seq<Entry>, dispatchers: nat,
    checks: map<Cid, Check>, nextCheck: Cid, scheduler: Scheduler, schedulerUp: bool)

  const Fresh := State(false, false, false, false, {}, map[], Free, [], 0, map[], 0, Idle, true)

  ghost predicate At(s: State, w: Wid, pc: Pc) {
    w in s.workers && s.workers[w].pc == pc
  }

  // --------------------------------------------------------------------- steps

  datatype Action =
    | Start | Spawn(worker: Wid) | Add | Release
    | Stop | PutPill
    | DispatchCheck | DispatchPut(task: Task)
    | Take(worker: Wid) | Arm(worker: Wid) | Begin(worker: Wid)
    | Finish(worker: Wid, fatal: bool) | Disarm(worker: Wid) | Loop(worker: Wid) | Leave(worker: Wid)
    | Fire(check: Cid) | RunCheck | ReadFlag | Notice
    | Visit(worker: Wid) | Decide
    | StopScheduler(dropped: set<Cid>)

  ghost predicate Step(c: Config, s: State, a: Action, t: State) {
    match a
    case Start =>
      // The section of start(), up to its loop.  One start in a run.
      && s.lock == Free && !s.running && !s.started
      && t == s.(started := true, running := true, stopped := false, lock := Creating(c.workersCount))
    case Spawn(w) =>
      // _add_worker: the thread runs before the worker is in the set.
      && s.lock.Creating? && s.lock.left > 0 && w !in s.workers
      && t == s.(workers := s.workers[w := NewWorker], lock := Adding(w, s.lock.left - 1))
    case Add =>
      && s.lock.Adding?
      && t == s.(pool := s.pool + {s.lock.worker}, lock := Creating(s.lock.left))
    case Release =>
      && (s.lock == Creating(0) || s.lock == Pilling(0))
      && t == s.(lock := Free, scheduler := LeftSection(s.scheduler))
    case Stop =>
      && s.lock == Free
      && t == s.(running := false, stopped := true, queue := [], lock := Pilling(c.workersCount),
                 room := c.workersCount + s.dispatchers <= c.maxTasks)
    case PutPill =>
      // A full queue raises out of stop() and releases the lock.
      && s.lock.Pilling? && s.lock.left > 0
      && t == s.(queue := PutEntry(c, s.queue, StopPill),
                 lock := if |s.queue| == c.maxTasks then Free else Pilling(s.lock.left - 1))
    case DispatchCheck =>
      && s.running && t == s.(dispatchers := s.dispatchers + 1)
    case DispatchPut(task) =>
      && s.dispatchers > 0
      && t == s.(dispatchers := s.dispatchers - 1, queue := PutEntry(c, s.queue, Work(task)))
    case Take(w) =>
      && At(s, w, Waiting) && s.queue != []
      && t == s.(workers := s.workers[w := s.workers[w].(pc := Taken(s.queue[0]))], queue := s.queue[1..])
    case Arm(w) =>
      && w in s.workers && s.workers[w].pc.Got?
      && var schedules := s.workers[w].pc.t.timed && s.schedulerUp;
         t == s.(workers := s.workers[w := ArmedWorker(s.workers[w], s.schedulerUp, s.nextCheck)],
                 checks := if schedules then s.checks[s.nextCheck := Check(w, s.workers[w].counter)] else s.checks,
                 nextCheck := if schedules then s.nextCheck + 1 else s.nextCheck)
    case Begin(w) =>
      && w in s.workers && s.workers[w].pc.Armed?
      && t == s.(workers := s.workers[w :=
                   s.workers[w].(pc := Running(s.workers[w].pc.t), task := Some(s.workers[w].pc.t))])
    case Finish(w, fatal) =>
      && w in s.workers && s.workers[w].pc.Running?
      && t == s.(workers := s.workers[w := s.workers[w].(pc := Ending(fatal), task := None)])
    case Disarm(w) =>
      && w in s.workers && s.workers[w].pc.Ending?
      && t == s.(workers := s.workers[w := DisarmedWorker(s.workers[w])],
                 checks := if s.workers[w].check.Some? then s.checks - {s.workers[w].check.value} else s.checks)
    case Loop(w) =>
      && w in s.workers && s.workers[w].pc.Disarmed?
      && t == s.(workers := s.workers[w := LoopedWorker(s.workers[w])])
    case Leave(w) =>
      // _worker_stopped: the removal, then either return or count.
      && At(s, w, Leaving) && s.lock == Free
      && t == s.(workers := s.workers[w := s.workers[w].(pc := Gone)], pool := s.pool - {w},
                 lock := if s.running then Counting(s.pool - {w}, {}) else Free)
    case Fire(id) =>
      && s.scheduler.Idle? && id in s.checks
      && t == s.(scheduler := Firing(s.checks[id]), checks := s.checks - {id})
    case RunCheck =>
      && s.scheduler.Firing? && s.scheduler.check.worker in s.workers
      && Checking(s, s.scheduler.check.worker, s.scheduler.check.number, t)
    case ReadFlag =>
      && s.scheduler.Checked? && s.scheduler.worker in s.workers
      && t == s.(scheduler := if s.workers[s.scheduler.worker].discarded then Notifying(s.scheduler.worker) else Idle)
    case Notice =>
      // _worker_discarded: return when stopped, otherwise count.
      && s.scheduler.Notifying? && s.scheduler.worker in s.workers && s.lock == Free
      && t == s.(workers := s.workers[s.scheduler.worker := NoticedWorker(s.workers[s.scheduler.worker])],
                 scheduler := if s.running then InSection else Idle,
                 lock := if s.running then Counting(s.pool, {}) else Free)
    case Visit(w) =>
      && s.lock.Counting? && w in s.lock.unvisited && w in s.workers
      && t == s.(lock := Counting(s.lock.unvisited - {w},
                                  if s.workers[w].discarded then s.lock.seen else s.lock.seen + {w}))
    case Decide =>
      && s.lock.Counting? && s.lock.unvisited == {}
      && t == s.(lock := if MayAdd(c, |s.lock.seen|, |s.pool|) then Creating(1) else Free,
                 scheduler := if MayAdd(c, |s.lock.seen|, |s.pool|) then s.scheduler else LeftSection(s.scheduler))
    case StopScheduler(dropped) =>
      // From now on scheduling raises; pending checks may never run.
      t == s.(schedulerUp := false, checks := s.checks - dropped)
  }

  /** _may_add_workers */
  predicate MayAdd(c: Config, active: nat, total: nat) {
    active < c.workersCount && (c.maxWorkers.None? || total < c.maxWorkers.value)
  }

  function LeftSection(sch: Scheduler): Scheduler { if sch.InSection? then Idle else sch }

  /** TaskQueue.put; a full queue raises ResourceExhausted. */
  function PutEntry(c: Config, queue: seq<Entry>, e: Entry): seq<Entry> {
    if |queue| == c.maxTasks then queue else queue + [e]
  }

  function Taken(e: Entry): Pc { if e.StopPill? then Leaving else Got(e.task) }

  /** Scheduling the check of a timed task raises once the scheduler has stopped. */
  function ArmedWorker(me: Worker, schedulerUp: bool, next: Cid): Worker
    requires me.pc.Got?
  {
    if !me.pc.t.timed then me.(pc := Armed(me.pc.t), check := None, lost := false)
    else if !schedulerUp then me.(pc := Leaving)
    else me.(pc := Armed(me.pc.t), check := Some(next), lost := false)
  }

  function DisarmedWorker(me: Worker): Worker
    requires me.pc.Ending?
  {
    me.(pc := Disarmed(me.pc.fatal), check := None, counter := me.counter + 1)
  }

  function LoopedWorker(me: Worker): Worker
    requires me.pc.Disarmed?
  {
    me.(pc := if me.discarded || me.pc.fatal then Leaving else Waiting)
  }

  function NoticedWorker(me: Worker): Worker { me.(notices := me.notices + 1) }

  /** What the locked part of _check_task does. */
  datatype Judgement =
    | Stale    // the check is for an earlier task
    | Crashes  // _task is None, which has no attribute discard; the scheduler swallows it
    | Flags    // the worker is marked discarded
    | Renews   // the next check is scheduled
    | Forgets  // a task without timeout gets no next check
    | Refused  // the scheduler no longer accepts calls

  function Judge(me: Worker, n: nat, schedulerUp: bool): Judgement {
    if n != me.counter then Stale
    else if me.task.None? then Crashes
    else if me.task.value.discard then Flags
    else if !me.task.value.timed then Forgets
    else if schedulerUp then Renews
    else Refused
  }

  function Judged(me: Worker, j: Judgement, next: Cid): Worker {
    match j
    case Crashes => me.(lost := me.lost || me.pc.Armed?)
    case Flags => me.(discarded := true)
    case Renews => me.(check := Some(next))
    case Forgets => me.(check := None)
    case _ => me
  }

  /** The locked part of _check_task, for the check numbered n of worker w. */
  ghost predicate Checking(s: State, w: Wid, n: nat, t: State)
    requires w in s.workers
  {
    var me := s.workers[w];
    var j := Judge(me, n, s.schedulerUp);
    t == s.(workers := s.workers[w := Judged(me, j, s.nextCheck)],
            checks := if j.Renews? then s.checks[s.nextCheck := Check(w, me.counter)] else s.checks,
            nextCheck := if j.Renews? then s.nextCheck + 1 else s.nextCheck,
            scheduler := if j.Flags? || j.Renews? || j.Forgets? then Checked(w) else Idle)
  }

  /** The run-time assertion of _check_task that a worker is discarded once. */
  ghost predicate DiscardsTwice(s: State) {
    && s.scheduler.Firing? && s.scheduler.check.worker in s.workers
    && var me := s.workers[s.scheduler.check.worker];
       && s.scheduler.check.number == me.counter
       && me.task.Some? && me.task.value.discard && me.discarded
  }

  ghost predicate Run(c: Config, trace: seq<State>, actions: seq<Action>) {
    && |trace| == |actions| + 1 && trace[0] == Fresh
    && forall i :: 0 <= i < |actions| ==> Step(c, trace[i], actions[i], trace[i + 1])
  }

  // ----------------------------------------------- discipline of a single worker

  type Workers = map<Wid, Worker>
  type Checks = map<Cid, Check>

  /** Busy with a task that has a timeout. */
  predicate BusyTimed(pc: Pc) {
    ((pc.Armed? || pc.Running?) && pc.t.timed) || pc.Ending?
  }

  ghost predicate WorkerOk(me: Worker) {
    && (me.task.Some? <==> me.pc.Running?)
    && (me.pc.Running? ==> me.task == Some(me.pc.t))
    && (me.discarded ==> !me.pc.Waiting? && !me.pc.Got? && !me.pc.Armed?)
  }

  /** The scheduler thread holds a notice about w for the executor. */
  ghost predicate Outstanding(sch: Scheduler, w: Wid, me: Worker) {
    sch == Notifying(w) || (sch == Checked(w) && me.discarded)
  }

  ghost predicate NoticesOk(sch: Scheduler, w: Wid, me: Worker) {
    me.notices + (if Outstanding(sch, w, me) then 1 else 0) == if me.discarded then 1 else 0
  }

  /** A pending check is the one its worker holds, for the task it is busy with. */
  ghost predicate CheckOk(ws: Workers, check: Check, id: Cid) {
    && check.worker in ws
    && var me := ws[check.worker];
       me.check == Some(id) && me.counter == check.number && BusyTimed(me.pc) && !me.discarded
  }

  /** A check being run for the current task is the only one there is. */
  ghost predicate FiringOk(ws: Workers, checks: Checks, check: Check) {
    && check.worker in ws
    && var me := ws[check.worker];
       && check.number <= me.counter
       && (check.number == me.counter ==>
             && BusyTimed(me.pc) && !me.discarded
             && forall id :: id in checks ==> checks[id].worker != check.worker)
  }

  ghost predicate SchedulerOk(ws: Workers, checks: Checks, sch: Scheduler) {
    match sch
    case Firing(check) => FiringOk(ws, checks, check)
    case Checked(w) => w in ws
    case Notifying(w) => w in ws && ws[w].discarded
    case _ => true
  }

  ghost predicate Discipline(ws: Workers, checks: Checks, next: Cid, sch: Scheduler) {
    && (forall w :: w in ws ==> WorkerOk(ws[w]) && NoticesOk(sch, w, ws[w]))
    && (forall w :: w in ws && ws[w].check.Some? ==>
          && ws[w].check.value < next
          && (ws[w].check.value in checks ==> checks[ws[w].check.value].worker == w))
    && (forall id :: id in checks ==> id < next && CheckOk(ws, checks[id], id))
    && SchedulerOk(ws, checks, sch)
  }

  ghost predicate Disciplined(s: State) {
    Discipline(s.workers, s.checks, s.nextCheck, s.scheduler)
  }

  /** A worker moves on; a busy one stays busy with the same task. */
  lemma MoveOn(ws: Workers, checks: Checks, next: Cid, sch: Scheduler, w: Wid, me: Worker)
    requires Discipline(ws, checks, next, sch) && w in ws
    requires WorkerOk(me) && (BusyTimed(ws[w].pc) ==> BusyTimed(me.pc))
    requires me.discarded == ws[w].discarded && me.counter == ws[w].counter
    requires me.check == ws[w].check && me.notices == ws[w].notices
    ensures Discipline(ws[w := me], checks, next, sch)
  {
  }

  /** A worker starts an untimed task. */
  lemma StartUntimed(ws: Workers, checks: Checks, next: Cid, sch: Scheduler, w: Wid, me: Worker)
    requires Discipline(ws, checks, next, sch) && w in ws && ws[w].pc.Got?
    requires me == ws[w].(pc := Armed(ws[w].pc.t), check := None, lost := false)
    ensures Discipline(ws[w := me], checks, next, sch)
  {
  }

  /** A worker starts a timed task with a new check. */
  lemma StartTimed(ws: Workers, checks: Checks, next: Cid, sch: Scheduler, w: Wid, me: Worker)
    requires Discipline(ws, checks, next, sch) && w in ws && ws[w].pc.Got?
    requires ws[w].pc.t.timed
    requires me == ws[w].(pc := Armed(ws[w].pc.t), check := Some(next), lost := false)
    ensures Discipline(ws[w := me], checks[next := Check(w, me.counter)], next + 1, sch)
  {
  }

  /** Disarming cancels the only check a worker can have. */
  lemma CancelCheck(ws: Workers, checks: Checks, next: Cid, sch: Scheduler, w: Wid, me: Worker)
    requires Discipline(ws, checks, next, sch) && w in ws && ws[w].pc.Ending?
    requires me == ws[w].(pc := Disarmed(ws[w].pc.fatal), check := None, counter := ws[w].counter + 1)
    ensures Discipline(ws[w := me], if ws[w].check.Some? then checks - {ws[w].check.value} else checks, next, sch)
  {
  }

  /** The scheduler takes a pending check to run it. */
  lemma TakeCheck(ws: Workers, checks: Checks, next: Cid, id: Cid)
    requires Discipline(ws, checks, next, Idle) && id in checks
    ensures Discipline(ws, checks - {id}, next, Firing(checks[id]))
  {
  }

  /** The scheduler drops the check it was running. */
  lemma EndCheck(ws: Workers, checks: Checks, next: Cid, check: Check)
    requires Discipline(ws, checks, next, Firing(check))
    ensures Discipline(ws, checks, next, Idle)
  {
  }

  /** The check of a running discardable task sets the flag, for the first time. */
  lemma SetFlag(ws: Workers, checks: Checks, next: Cid, w: Wid, me: Worker)
    requires w in ws && Discipline(ws, checks, next, Firing(Check(w, ws[w].counter)))
    requires ws[w].task.Some? && me == ws[w].(discarded := true)
    ensures !ws[w].discarded && Discipline(ws[w := me], checks, next, Checked(w))
  {
  }

  /** The check of a task that is not discardable schedules the next one. */
  lemma RenewCheck(ws: Workers, checks: Checks, next: Cid, w: Wid, me: Worker)
    requires w in ws && Discipline(ws, checks, next, Firing(Check(w, ws[w].counter)))
    requires me == ws[w].(check := Some(next))
    ensures !ws[w].discarded
    ensures Discipline(ws[w := me], checks[next := Check(w, me.counter)], next + 1, Checked(w))
  {
  }

  /** After the lock is released the flag is read once more. */
  lemma AfterFlag(ws: Workers, checks: Checks, next: Cid, w: Wid)
    requires Discipline(ws, checks, next, Checked(w))
    ensures Discipline(ws, checks, next, if ws[w].discarded then Notifying(w) else Idle)
  {
  }

  /** The notice reaches the executor. */
  lemma Noticed(ws: Workers, checks: Checks, next: Cid, w: Wid, me: Worker, sch: Scheduler)
    requires Discipline(ws, checks, next, Notifying(w)) && (sch == Idle || sch == InSection)
    requires me == ws[w].(notices := ws[w].notices + 1)
    ensures Discipline(ws[w := me], checks, next, sch)
  {
  }

  lemma SectionDone(ws: Workers, checks: Checks, next: Cid)
    requires Discipline(ws, checks, next, InSection)
    ensures Discipline(ws, checks, next, Idle)
  {
  }

  lemma Hired(ws: Workers, checks: Checks, next: Cid, sch: Scheduler, w: Wid)
    requires Discipline(ws, checks, next, sch) && w !in ws
    ensures Discipline(ws[w := NewWorker], checks, next, sch)
  {
  }

  lemma Dropped(ws: Workers, checks: Checks, next: Cid, sch: Scheduler, dropped: set<Cid>)
    requires Discipline(ws, checks, next, sch)
    ensures Discipline(ws, checks - dropped, next, sch)
  {
  }

  lemma RunCheckDisciplined(c: Config, s: State, t: State)
    requires Disciplined(s) && Step(c, s, RunCheck, t)
    ensures Disciplined(t)
  {
    var check := s.scheduler.check;
    var w := check.worker;
    var me := s.workers[w];
    var j := Judge(me, check.number, s.schedulerUp);
    assert FiringOk(s.workers, s.checks, check) && WorkerOk(me);
    match j
    case Flags => SetFlag(s.workers, s.checks, s.nextCheck, w, me.(discarded := true));
    case Renews => RenewCheck(s.workers, s.checks, s.nextCheck, w, me.(check := Some(s.nextCheck)));
    case Forgets => assert false;
    case _ =>
      EndCheck(s.workers, s.checks, s.nextCheck, check);
      MoveOn(s.workers, s.checks, s.nextCheck, Idle, w, Judged(me, j, s.nextCheck));
  }

  lemma MoveDisciplined(c: Config, s: State, a: Action, t: State)
    requires Disciplined(s) && Step(c, s, a, t)
    requires a.Take? || a.Begin? || a.Finish? || a.Loop? || a.Leave?
    ensures Disciplined(t)
  {
    hide Discipline;
    var w := a.worker;
    assert WorkerOk(s.workers[w]) by { WorkersOk(s, w); }
    MoveOn(s.workers, s.checks, s.nextCheck, s.scheduler, w, t.workers[w]);
  }

  lemma WorkersOk(s: State, w: Wid)
    requires Disciplined(s) && w in s.workers
    ensures WorkerOk(s.workers[w])
  {
  }

  lemma ArmDisciplined(c: Config, s: State, w: Wid, t: State)
    requires Disciplined(s) && Step(c, s, Arm(w), t)
    ensures Disciplined(t)
  {
    hide Discipline;
    var me := t.workers[w];
    assert WorkerOk(s.workers[w]) by { WorkersOk(s, w); }
    if me.pc.Leaving? {
      MoveOn(s.workers, s.checks, s.nextCheck, s.scheduler, w, me);
    } else if me.pc.t.timed {
      StartTimed(s.workers, s.checks, s.nextCheck, s.scheduler, w, me);
    } else {
      StartUntimed(s.workers, s.checks, s.nextCheck, s.scheduler, w, me);
    }
  }

  lemma DisarmDisciplined(c: Config, s: State, w: Wid, t: State)
    requires Disciplined(s) && Step(c, s, Disarm(w), t)
    ensures Disciplined(t)
  {
    hide Discipline;
    CancelCheck(s.workers, s.checks, s.nextCheck, s.scheduler, w, t.workers[w]);
  }

  lemma SchedulerDisciplined(c: Config, s: State, a: Action, t: State)
    requires Disciplined(s) && Step(c, s, a, t)
    requires a.Fire? || a.ReadFlag? || a.Notice? || a.Release? || a.Decide?
    ensures Disciplined(t)
  {
    hide Discipline;
    match a
    case Fire(id) => TakeCheck(s.workers, s.checks, s.nextCheck, id);
    case ReadFlag => AfterFlag(s.workers, s.checks, s.nextCheck, s.scheduler.worker);
    case Notice =>
      var w := s.scheduler.worker;
      Noticed(s.workers, s.checks, s.nextCheck, w, t.workers[w], t.scheduler);
    case Release =>
      if s.scheduler.InSection? { SectionDone(s.workers, s.checks, s.nextCheck); }
    case Decide =>
      if s.scheduler.InSection? { SectionDone(s.workers, s.checks, s.nextCheck); }
  }

  lemma OtherDisciplined(c: Config, s: State, a: Action, t: State)
    requires Disciplined(s) && Step(c, s, a, t)
    requires a.Start? || a.Spawn? || a.Add? || a.Stop? || a.PutPill? || a.DispatchCheck?
          || a.DispatchPut? || a.Visit? || a.StopScheduler?
    ensures Disciplined(t)
  {
    hide Discipline;
    if a.Spawn? {
      Hired(s.workers, s.checks, s.nextCheck, s.scheduler, a.worker);
    } else if a.StopScheduler? {
      Dropped(s.workers, s.checks, s.nextCheck, s.scheduler, a.dropped);
    }
  }

  lemma {:induction false} StepDisciplined(c: Config, s: State, a: Action, t: State)
    requires Disciplined(s) && Step(c, s, a, t)
    ensures Disciplined(t)
  {
    hide Step, Discipline;
    if a.Take? || a.Begin? || a.Finish? || a.Loop? || a.Leave? {
      MoveDisciplined(c, s, a, t);
    } else if a.Arm? {
      ArmDisciplined(c, s, a.worker, t);
    } else if a.Disarm? {
      DisarmDisciplined(c, s, a.worker, t);
    } else if a.Fire? || a.ReadFlag? || a.Notice? || a.Release? || a.Decide? {
      SchedulerDisciplined(c, s, a, t);
    } else if a.RunCheck? {
      RunCheckDisciplined(c, s, t);
    } else {
      OtherDisciplined(c, s, a, t);
    }
  }
}

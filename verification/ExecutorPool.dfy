/**
 The size of the executor's worker pool over all interleavings, and the safety
 of removing a worker from the set.
 */
module ExecutorPool {
  import opened Executor
  import opened Collections

  // ---------------------------------------------------------------- quantities

  /** The worker set, with the worker whose thread runs but who is not in it yet. */
  ghost function Hires(pool: set<Wid>, lock: Section): set<Wid> {
    if lock.Adding? then pool + {lock.worker} else pool
  }

  ghost function Active(ws: Workers, among: set<Wid>): set<Wid> {
    set w | w in among && w in ws && !ws[w].discarded
  }

  /** Workers the section holding the lock is committed to create. */
  ghost function Left(lock: Section): nat {
    if lock.Creating? || lock.Adding? then lock.left else 0
  }

  /** Workers it may still create. */
  ghost function Credit(lock: Section): nat {
    if lock.Counting? then 1 else Left(lock)
  }

  ghost predicate NoticePending(ws: Workers, sch: Scheduler) {
    sch.Notifying? || (sch.Checked? && sch.worker in ws && ws[sch.worker].discarded)
  }

  ghost function Notices(ws: Workers, sch: Scheduler): nat {
    if NoticePending(ws, sch) then 1 else 0
  }

  // ----------------------------------------------------------------- invariant

  /** A thread that has not left is in the set or about to be put there. */
  ghost predicate Members(ws: Workers, pool: set<Wid>, lock: Section) {
    && (forall w :: w in Hires(pool, lock) <==> w in ws && ws[w].pc != Gone)
    && (lock.Adding? ==> lock.worker !in pool)
  }

  /** What the loop of _active_workers knows while flags change under it. */
  ghost predicate CountOk(ws: Workers, pool: set<Wid>, lock: Section, sch: Scheduler) {
    lock.Counting? ==>
      && lock.unvisited <= pool && lock.seen <= pool
      && Active(ws, pool) <= lock.seen + lock.unvisited
      && forall w :: w in lock.seen && w in ws && ws[w].discarded ==> Outstanding(sch, w, ws[w])
  }

  ghost predicate LockOk(running: bool, lock: Section, sch: Scheduler) {
    && (lock.Creating? || lock.Adding? || lock.Counting? ==> running)
    && (lock.Pilling? ==> !running)
    && (sch.InSection? ==> lock.Creating? || lock.Adding? || lock.Counting?)
  }

  ghost predicate NotTooMany(c: Config, active: nat, total: nat, left: nat) {
    && active + left <= c.workersCount
    && (c.maxWorkers.Some? ==> total + left <= c.maxWorkers.value)
  }

  ghost predicate NotTooFew(c: Config, active: nat, total: nat, credit: nat, notices: nat) {
    || (c.maxWorkers.Some? && total + credit >= c.maxWorkers.value)
    || active + notices + credit >= c.workersCount
  }

  ghost predicate Sized(c: Config, running: bool, ws: Workers, pool: set<Wid>, lock: Section, sch: Scheduler) {
    var hires := Hires(pool, lock);
    && NotTooMany(c, |Active(ws, hires)|, |hires|, Left(lock))
    && (running ==> NotTooFew(c, |Active(ws, hires)|, |hires|, Credit(lock), Notices(ws, sch)))
  }

  ghost predicate PoolOk(c: Config, running: bool, ws: Workers, pool: set<Wid>, lock: Section, sch: Scheduler) {
    && Members(ws, pool, lock)
    && CountOk(ws, pool, lock, sch)
    && LockOk(running, lock, sch)
    && Sized(c, running, ws, pool, lock, sch)
  }

  ghost predicate Inv(c: Config, s: State) {
    && Disciplined(s)
    && PoolOk(c, s.running, s.workers, s.pool, s.lock, s.scheduler)
    && Untouched(s)
  }

  // ------------------------------------------------------------ preservation

  /** A step that moves one worker without touching its flag. */
  lemma MoveSized(c: Config, running: bool, ws: Workers, pool: set<Wid>, lock: Section, sch: Scheduler, w: Wid,
                  me: Worker)
    requires PoolOk(c, running, ws, pool, lock, sch) && w in ws
    requires me.discarded == ws[w].discarded && (me.pc == Gone <==> ws[w].pc == Gone)
    ensures PoolOk(c, running, ws[w := me], pool, lock, sch)
  {
    assert Members(ws[w := me], pool, lock);
    MoveCount(ws, pool, lock, sch, w, me);
    hide Members, CountOk;
    SameActive(ws, w, me, Hires(pool, lock));
  }

  lemma MoveCount(ws: Workers, pool: set<Wid>, lock: Section, sch: Scheduler, w: Wid, me: Worker)
    requires CountOk(ws, pool, lock, sch) && w in ws && me.discarded == ws[w].discarded
    ensures CountOk(ws[w := me], pool, lock, sch)
  {
  }

  lemma SameActive(ws: Workers, w: Wid, me: Worker, among: set<Wid>)
    requires w in ws && me.discarded == ws[w].discarded
    ensures Active(ws[w := me], among) == Active(ws, among)
  {
  }

  /** The scheduler moves without gaining or losing a notice. */
  lemma SchedulerSized(c: Config, running: bool, ws: Workers, pool: set<Wid>, lock: Section, sch: Scheduler,
                       sch': Scheduler)
    requires PoolOk(c, running, ws, pool, lock, sch)
    requires NoticePending(ws, sch) == NoticePending(ws, sch')
    requires forall w :: w in ws && Outstanding(sch, w, ws[w]) ==> Outstanding(sch', w, ws[w])
    requires sch'.InSection? ==> sch.InSection?
    ensures PoolOk(c, running, ws, pool, lock, sch')
  {
  }

  /** Setting the flag of a worker leaves a notice that makes up for it. */
  lemma FlagSized(c: Config, running: bool, ws: Workers, pool: set<Wid>, lock: Section, w: Wid, me: Worker,
                  check: Check)
    requires PoolOk(c, running, ws, pool, lock, Firing(check)) && w in ws
    requires !ws[w].discarded && me == ws[w].(discarded := true) && me.pc != Gone
    ensures PoolOk(c, running, ws[w := me], pool, lock, Checked(w))
  {
    var hires := Hires(pool, lock);
    assert Active(ws[w := me], hires) == Active(ws, hires) - {w};
    assert Active(ws[w := me], pool) == Active(ws, pool) - {w};
  }

  lemma StartSized(c: Config, ws: Workers, pool: set<Wid>, sch: Scheduler)
    requires GoodConfig(c) && PoolOk(c, false, ws, pool, Free, sch) && ws == map[]
    ensures PoolOk(c, true, ws, pool, Creating(c.workersCount), sch)
  {
  }

  lemma SpawnSized(c: Config, ws: Workers, pool: set<Wid>, left: nat, sch: Scheduler, w: Wid)
    requires PoolOk(c, true, ws, pool, Creating(left), sch) && left > 0 && w !in ws
    ensures PoolOk(c, true, ws[w := NewWorker], pool, Adding(w, left - 1), sch)
  {
    assert CountOk(ws[w := NewWorker], pool, Adding(w, left - 1), sch);
    SpawnMembers(ws, pool, left, w);
    SpawnNotices(ws, w, sch);
    hide Members, CountOk, Notices, Active;
    OneMoreActive(ws, pool, w);
    assert |pool + {w}| == |pool| + 1;
    assert |Active(ws, pool) + {w}| == |Active(ws, pool)| + 1;
  }

  lemma SpawnNotices(ws: Workers, w: Wid, sch: Scheduler)
    requires w !in ws
    ensures Notices(ws[w := NewWorker], sch) == Notices(ws, sch)
  {
  }

  lemma SpawnMembers(ws: Workers, pool: set<Wid>, left: nat, w: Wid)
    requires Members(ws, pool, Creating(left)) && left > 0 && w !in ws
    ensures Members(ws[w := NewWorker], pool, Adding(w, left - 1)) && w !in pool
  {
  }

  lemma OneMoreActive(ws: Workers, pool: set<Wid>, w: Wid)
    requires w !in ws
    ensures Active(ws[w := NewWorker], pool + {w}) == Active(ws, pool) + {w}
    ensures w !in Active(ws, pool)
  {
  }

  lemma AddSized(c: Config, ws: Workers, pool: set<Wid>, w: Wid, left: nat, sch: Scheduler)
    requires PoolOk(c, true, ws, pool, Adding(w, left), sch)
    ensures PoolOk(c, true, ws, pool + {w}, Creating(left), sch)
  {
  }

  lemma ReleaseSized(c: Config, running: bool, ws: Workers, pool: set<Wid>, lock: Section, sch: Scheduler)
    requires PoolOk(c, running, ws, pool, lock, sch) && (lock == Creating(0) || lock.Pilling?)
    ensures PoolOk(c, running, ws, pool, Free, LeftSection(sch))
  {
  }

  lemma StopSized(c: Config, running: bool, ws: Workers, pool: set<Wid>, sch: Scheduler, lock: Section)
    requires PoolOk(c, running, ws, pool, Free, sch) && lock.Pilling?
    ensures PoolOk(c, false, ws, pool, lock, sch)
  {
  }

  /** Losing a worker is covered by the right to create one. */
  lemma LeaveSized(c: Config, running: bool, ws: Workers, pool: set<Wid>, sch: Scheduler, w: Wid, me: Worker)
    requires PoolOk(c, running, ws, pool, Free, sch) && w in ws
    requires ws[w].pc != Gone && me == ws[w].(pc := Gone)
    ensures w in pool
    ensures PoolOk(c, running, ws[w := me], pool - {w}, if running then Counting(pool - {w}, {}) else Free, sch)
  {
    assert w in Hires(pool, Free);
    var ws' := ws[w := me];
    assert Active(ws', pool - {w}) == Active(ws, pool) - {w};
  }

  /** The notice becomes the right to create a worker. */
  lemma NoticeSized(c: Config, running: bool, ws: Workers, pool: set<Wid>, w: Wid, me: Worker)
    requires PoolOk(c, running, ws, pool, Free, Notifying(w)) && w in ws
    requires me == ws[w].(notices := ws[w].notices + 1)
    ensures PoolOk(c, running, ws[w := me], pool, if running then Counting(pool, {}) else Free,
                   if running then InSection else Idle)
  {
    assert Active(ws[w := me], pool) == Active(ws, pool);
  }

  lemma VisitSized(c: Config, ws: Workers, pool: set<Wid>, lock: Section, sch: Scheduler, w: Wid)
    requires PoolOk(c, true, ws, pool, lock, sch) && lock.Counting? && w in lock.unvisited && w in ws
    ensures var seen := if ws[w].discarded then lock.seen else lock.seen + {w};
            PoolOk(c, true, ws, pool, Counting(lock.unvisited - {w}, seen), sch)
  {
  }

  /** At most one of the workers counted active has been discarded since. */
  lemma SeenAlmostActive(ws: Workers, pool: set<Wid>, seen: set<Wid>, sch: Scheduler)
    requires CountOk(ws, pool, Counting({}, seen), sch) && pool <= ws.Keys
    ensures Active(ws, pool) <= seen && |Active(ws, pool)| <= |seen|
    ensures |seen| <= |Active(ws, pool)| + Notices(ws, sch)
  {
    var active := Active(ws, pool);
    SubsetCard(active, seen);
    if NoticePending(ws, sch) {
      assert seen <= active + {sch.worker};
      SubsetCard(seen, active + {sch.worker});
    } else {
      assert seen <= active;
      SubsetCard(seen, active);
    }
  }

  lemma DecideSized(c: Config, ws: Workers, pool: set<Wid>, seen: set<Wid>, sch: Scheduler)
    requires PoolOk(c, true, ws, pool, Counting({}, seen), sch)
    ensures if MayAdd(c, |seen|, |pool|)
            then PoolOk(c, true, ws, pool, Creating(1), sch)
            else PoolOk(c, true, ws, pool, Free, LeftSection(sch))
  {
    assert pool <= ws.Keys by {
      forall w | w in pool ensures w in ws {
        assert w in Hires(pool, Counting({}, seen));
      }
    }
    SeenAlmostActive(ws, pool, seen, sch);
  }

  lemma WorkerStepPool(c: Config, s: State, a: Action, t: State)
    requires Inv(c, s) && Step(c, s, a, t)
    requires a.Take? || a.Arm? || a.Begin? || a.Finish? || a.Disarm? || a.Loop?
    ensures PoolOk(c, t.running, t.workers, t.pool, t.lock, t.scheduler)
  {
    hide PoolOk, Disciplined;
    MoveSized(c, s.running, s.workers, s.pool, s.lock, s.scheduler, a.worker, t.workers[a.worker]);
  }

  lemma RunCheckPool(c: Config, s: State, t: State)
    requires Inv(c, s) && Step(c, s, RunCheck, t)
    ensures PoolOk(c, t.running, t.workers, t.pool, t.lock, t.scheduler)
  {
    hide PoolOk;
    var check := s.scheduler.check;
    var w := check.worker;
    var me := t.workers[w];
    assert FiringOk(s.workers, s.checks, check);
    if check.number == s.workers[w].counter && s.workers[w].task.Some? && s.workers[w].task.value.discard {
      assert WorkerOk(s.workers[w]);
      FlagSized(c, s.running, s.workers, s.pool, s.lock, w, me, check);
    } else {
      assert t.scheduler == Idle || (t.scheduler == Checked(w) && !s.workers[w].discarded);
      SchedulerSized(c, s.running, s.workers, s.pool, s.lock, s.scheduler, t.scheduler);
      MoveSized(c, s.running, s.workers, s.pool, s.lock, t.scheduler, w, me);
      assert t.workers == s.workers[w := me];
    }
  }

  lemma SchedulerStepPool(c: Config, s: State, a: Action, t: State)
    requires Inv(c, s) && Step(c, s, a, t)
    requires a.Fire? || a.ReadFlag? || a.Notice?
    ensures PoolOk(c, t.running, t.workers, t.pool, t.lock, t.scheduler)
  {
    if a.Notice? {
      var w := s.scheduler.worker;
      NoticeSized(c, s.running, s.workers, s.pool, w, t.workers[w]);
    } else {
      SchedulerSized(c, s.running, s.workers, s.pool, s.lock, s.scheduler, t.scheduler);
    }
  }

  lemma LockFacts(c: Config, s: State)
    requires Inv(c, s)
    ensures s.lock.Creating? || s.lock.Adding? || s.lock.Counting? ==> s.running
    ensures s.lock.Pilling? ==> !s.running
    ensures !s.started ==> !s.running && s.workers == map[]
  {
  }

  lemma CreateStepPool(c: Config, s: State, a: Action, t: State)
    requires GoodConfig(c) && Inv(c, s) && Step(c, s, a, t)
    requires a.Start? || a.Spawn? || a.Add? || a.Release?
    ensures PoolOk(c, t.running, t.workers, t.pool, t.lock, t.scheduler)
  {
    LockFacts(c, s);
    hide PoolOk, Disciplined;
    match a
    case Start => StartSized(c, s.workers, s.pool, s.scheduler);
    case Spawn(w) => SpawnSized(c, s.workers, s.pool, s.lock.left, s.scheduler, w);
    case Add => AddSized(c, s.workers, s.pool, s.lock.worker, s.lock.left, s.scheduler);
    case Release => ReleaseSized(c, s.running, s.workers, s.pool, s.lock, s.scheduler);
  }

  lemma LockStepPool(c: Config, s: State, a: Action, t: State)
    requires Inv(c, s) && Step(c, s, a, t)
    requires a.Stop? || a.PutPill? || a.Leave? || a.Visit? || a.Decide?
    ensures PoolOk(c, t.running, t.workers, t.pool, t.lock, t.scheduler)
  {
    LockFacts(c, s);
    hide PoolOk, Disciplined, MayAdd, LeftSection, PutEntry;
    match a
    case Stop => StopSized(c, s.running, s.workers, s.pool, s.scheduler, t.lock);
    case PutPill => PillSized(c, s.workers, s.pool, s.lock, t.lock, s.scheduler);
    case Leave(w) => LeaveSized(c, s.running, s.workers, s.pool, s.scheduler, w, t.workers[w]);
    case Visit(w) => VisitSized(c, s.workers, s.pool, s.lock, s.scheduler, w);
    case Decide => DecideSized(c, s.workers, s.pool, s.lock.seen, s.scheduler);
  }

  lemma PillSized(c: Config, ws: Workers, pool: set<Wid>, lock: Section, lock': Section, sch: Scheduler)
    requires PoolOk(c, false, ws, pool, lock, sch) && lock.Pilling? && (lock'.Pilling? || lock'.Free?)
    ensures PoolOk(c, false, ws, pool, lock', sch)
  {
  }

  lemma StepPool(c: Config, s: State, a: Action, t: State)
    requires GoodConfig(c) && Inv(c, s) && Step(c, s, a, t)
    ensures PoolOk(c, t.running, t.workers, t.pool, t.lock, t.scheduler)
  {
    hide PoolOk;
    if a.Take? || a.Arm? || a.Begin? || a.Finish? || a.Disarm? || a.Loop? {
      WorkerStepPool(c, s, a, t);
    } else if a.RunCheck? {
      RunCheckPool(c, s, t);
    } else if a.Fire? || a.ReadFlag? || a.Notice? {
      SchedulerStepPool(c, s, a, t);
    } else if a.DispatchCheck? || a.DispatchPut? || a.StopScheduler? {
      assert t.workers == s.workers && t.pool == s.pool && t.lock == s.lock;
      assert t.scheduler == s.scheduler && t.running == s.running;
    } else if a.Start? || a.Spawn? || a.Add? || a.Release? {
      CreateStepPool(c, s, a, t);
    } else {
      LockStepPool(c, s, a, t);
    }
  }

  lemma StepInv(c: Config, s: State, a: Action, t: State)
    requires GoodConfig(c) && Inv(c, s) && Step(c, s, a, t)
    ensures Inv(c, t)
  {
    hide Step;
    StepDisciplined(c, s, a, t);
    StepPool(c, s, a, t);
    BeforeStart(c, s, a, t);
  }

  ghost predicate Untouched(s: State) {
    !s.started ==> !s.running && s.workers == map[] && s.pool == {}
  }

  lemma WorkerActed(c: Config, s: State, a: Action, t: State)
    requires Step(c, s, a, t)
    requires a.Take? || a.Arm? || a.Begin? || a.Finish? || a.Disarm? || a.Loop? || a.Leave?
    ensures s.workers != map[] && t.started == s.started
  {
  }

  lemma SchedulerActed(c: Config, s: State, a: Action, t: State)
    requires Step(c, s, a, t) && (a.RunCheck? || a.ReadFlag? || a.Notice?)
    ensures s.workers != map[] && t.started == s.started
  {
  }

  lemma LockActed(c: Config, s: State, a: Action, t: State)
    requires LockOk(s.running, s.lock, s.scheduler) && Untouched(s) && Step(c, s, a, t)
    requires a.Start? || a.Spawn? || a.Add? || a.Release? || a.Stop? || a.PutPill? || a.DispatchCheck?
          || a.DispatchPut? || a.Fire? || a.Visit? || a.Decide? || a.StopScheduler?
    ensures Untouched(t)
  {
  }

  lemma BeforeStart(c: Config, s: State, a: Action, t: State)
    requires LockOk(s.running, s.lock, s.scheduler) && Untouched(s) && Step(c, s, a, t)
    ensures Untouched(t)
  {
    hide Step;
    if a.Take? || a.Arm? || a.Begin? || a.Finish? || a.Disarm? || a.Loop? || a.Leave? {
      WorkerActed(c, s, a, t);
    } else if a.RunCheck? || a.ReadFlag? || a.Notice? {
      SchedulerActed(c, s, a, t);
    } else {
      LockActed(c, s, a, t);
    }
  }

  lemma {:induction false} RunInv(c: Config, trace: seq<State>, actions: seq<Action>, i: nat)
    requires GoodConfig(c) && Run(c, trace, actions) && i < |trace|
    ensures Inv(c, trace[i])
  {
    if i == 0 {
      assert Active(Fresh.workers, {}) == {};
    } else {
      RunInv(c, trace, actions, i - 1);
      StepInv(c, trace[i - 1], actions[i - 1], trace[i]);
    }
  }

  // -------------------------------------------------------------------- theorems

  /**
   Pool size, in every state of every run: the active workers never exceed
   workers_count and all workers together never exceed max_workers; and whenever
   the executor runs, its lock is free and no discard notice is under way, the
   pool is full in one of the two senses, in whatever order the callbacks came.
   */
  lemma {:induction false} PoolSize(c: Config, trace: seq<State>, actions: seq<Action>, i: nat)
    requires GoodConfig(c) && Run(c, trace, actions) && i < |trace|
    ensures var s := trace[i]; var active := |Active(s.workers, s.pool)|;
            && active <= c.workersCount
            && (c.maxWorkers.Some? ==> |s.pool| <= c.maxWorkers.value)
            && (s.running && s.lock == Free && !NoticePending(s.workers, s.scheduler) ==>
                  active == c.workersCount || (c.maxWorkers.Some? && |s.pool| == c.maxWorkers.value))
  {
    RunInv(c, trace, actions, i);
    var s := trace[i];
    SubsetCard(s.pool, Hires(s.pool, s.lock));
    SubsetCard(Active(s.workers, s.pool), Active(s.workers, Hires(s.pool, s.lock)));
  }

  /** The set removal of _worker_stopped always finds the worker. */
  lemma {:induction false} RemoveIsSafe(c: Config, trace: seq<State>, actions: seq<Action>, i: nat)
    requires GoodConfig(c) && Run(c, trace, actions) && i < |actions| && actions[i].Leave?
    ensures actions[i].worker in trace[i].pool
  {
    RunInv(c, trace, actions, i);
    assert Step(c, trace[i], actions[i], trace[i + 1]);
    assert actions[i].worker in Hires(trace[i].pool, trace[i].lock);
  }
}

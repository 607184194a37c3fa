/**
 Stopping the executor: the stop pills left in the queue are enough for every
 worker that still has to take one.
 */
module ExecutorStop {
  import opened Executor
  import opened ExecutorPool
  import opened Collections

  function CountPills(queue: seq<Entry>): nat {
    if queue == [] then 0 else (if queue[0].StopPill? then 1 else 0) + CountPills(queue[1..])
  }

  lemma {:induction false} CountAppend(queue: seq<Entry>, e: Entry)
    ensures CountPills(queue + [e]) == CountPills(queue) + if e.StopPill? then 1 else 0
  {
    if queue == [] {
      assert [e][1..] == [];
    } else {
      assert (queue + [e])[1..] == queue[1..] + [e];
      CountAppend(queue[1..], e);
    }
  }

  lemma {:induction false} CountedIsQueued(queue: seq<Entry>)
    ensures CountPills(queue) > 0 ==> StopPill in queue
  {
    if queue != [] && !queue[0].StopPill? {
      CountedIsQueued(queue[1..]);
    }
  }

  /** Pills in the queue and those the running stop() has still to put. */
  ghost function Pills(queue: seq<Entry>, lock: Section): nat {
    CountPills(queue) + if lock.Pilling? then lock.left else 0
  }

  /** A worker that will go back to the queue unless it is discarded. */
  ghost predicate Needy(me: Worker) {
    && !me.discarded
    && (me.pc.Waiting? || me.pc.Got? || me.pc.Armed? || me.pc.Running? ||
        (me.pc.Ending? && !me.pc.fatal) || (me.pc.Disarmed? && !me.pc.fatal))
  }

  ghost function NeedyWorkers(ws: Workers): set<Wid> {
    set w | w in ws && Needy(ws[w])
  }

  ghost predicate StopOk(c: Config, s: State) {
    && (s.stopped ==> !s.running)
    && (s.lock.Pilling? ==> s.stopped)
    && (s.stopped && s.room ==> |NeedyWorkers(s.workers)| <= Pills(s.queue, s.lock))
    && (s.room && s.lock.Pilling? ==> |s.queue| + s.lock.left + s.dispatchers <= c.maxTasks)
  }

  lemma NeedyAfter(ws: Workers, w: Wid, me: Worker)
    requires w in ws
    ensures Needy(me) && !Needy(ws[w]) ==> NeedyWorkers(ws[w := me]) == NeedyWorkers(ws) + {w}
    ensures Needy(me) == Needy(ws[w]) ==> NeedyWorkers(ws[w := me]) == NeedyWorkers(ws)
    ensures !Needy(me) && Needy(ws[w]) ==> NeedyWorkers(ws[w := me]) == NeedyWorkers(ws) - {w}
  {
  }

  /** When the lock is free, needy workers are active members of the pool. */
  lemma NeedyIsActive(c: Config, s: State)
    requires Inv(c, s) && s.lock == Free
    ensures |NeedyWorkers(s.workers)| <= c.workersCount
  {
    forall w | w in NeedyWorkers(s.workers) ensures w in Active(s.workers, s.pool) {
      assert w in Hires(s.pool, s.lock);
    }
    SubsetCard(NeedyWorkers(s.workers), Active(s.workers, s.pool));
  }

  /** Steps of one worker: only taking a pill uses one up. */
  lemma WorkerStop(c: Config, s: State, a: Action, t: State)
    requires Disciplined(s) && StopOk(c, s) && Step(c, s, a, t)
    requires a.Arm? || a.Begin? || a.Finish? || a.Disarm? || a.Loop?
    ensures StopOk(c, t)
  {
    var w := a.worker;
    NeedyAfter(s.workers, w, t.workers[w]);
  }

  lemma TakeStop(c: Config, s: State, w: Wid, t: State)
    requires Disciplined(s) && StopOk(c, s) && Step(c, s, Take(w), t)
    ensures StopOk(c, t)
  {
    assert WorkerOk(s.workers[w]);
    NeedyAfter(s.workers, w, t.workers[w]);
  }

  lemma LeaveStop(c: Config, s: State, w: Wid, t: State)
    requires StopOk(c, s) && Step(c, s, Leave(w), t)
    ensures StopOk(c, t)
  {
    NeedyAfter(s.workers, w, t.workers[w]);
  }

  /** A worker changes, and needs a pill only if it did before. */
  lemma NeedShrinks(c: Config, s: State, t: State, w: Wid)
    requires StopOk(c, s) && w in s.workers && w in t.workers
    requires t.workers == s.workers[w := t.workers[w]] && (Needy(t.workers[w]) ==> Needy(s.workers[w]))
    requires t.queue == s.queue && t.dispatchers == s.dispatchers && t.running == s.running
    requires t.stopped == s.stopped && t.room == s.room
    requires t.lock == s.lock || (s.lock == Free && !t.lock.Pilling?)
    ensures StopOk(c, t)
  {
    NeedyAfter(s.workers, w, t.workers[w]);
  }

  lemma CheckingNeed(s: State, w: Wid, n: nat, t: State)
    requires w in s.workers && Checking(s, w, n, t)
    ensures w in t.workers && t.workers == s.workers[w := t.workers[w]]
    ensures Needy(t.workers[w]) ==> Needy(s.workers[w])
    ensures t.queue == s.queue && t.dispatchers == s.dispatchers && t.running == s.running
    ensures t.stopped == s.stopped && t.room == s.room && t.lock == s.lock
  {
  }

  lemma SchedulerStop(c: Config, s: State, a: Action, t: State)
    requires StopOk(c, s) && Step(c, s, a, t)
    requires a.Fire? || a.RunCheck? || a.ReadFlag? || a.Notice?
    ensures StopOk(c, t)
  {
    if a.RunCheck? {
      var check := s.scheduler.check;
      CheckingNeed(s, check.worker, check.number, t);
      NeedShrinks(c, s, t, check.worker);
    } else if a.Notice? {
      NeedShrinks(c, s, t, s.scheduler.worker);
    }
  }

  lemma QueueStop(c: Config, s: State, a: Action, t: State)
    requires StopOk(c, s) && Step(c, s, a, t)
    requires a.PutPill? || a.DispatchCheck? || a.DispatchPut? || a.StopScheduler?
    ensures StopOk(c, t)
  {
    if a.PutPill? {
      CountAppend(s.queue, StopPill);
    } else if a.DispatchPut? {
      CountAppend(s.queue, Work(a.task));
    }
  }

  lemma LockStop(c: Config, s: State, a: Action, t: State)
    requires Inv(c, s) && StopOk(c, s) && Step(c, s, a, t)
    requires a.Start? || a.Spawn? || a.Add? || a.Release? || a.Stop? || a.Visit? || a.Decide?
    ensures StopOk(c, t)
  {
    if a.Stop? {
      NeedyIsActive(c, s);
    }
  }

  lemma StepStopOk(c: Config, s: State, a: Action, t: State)
    requires Inv(c, s) && StopOk(c, s) && Step(c, s, a, t)
    ensures StopOk(c, t)
  {
    hide Step;
    hide StopOk;
    if a.Take? {
      TakeStop(c, s, a.worker, t);
    } else if a.Leave? {
      LeaveStop(c, s, a.worker, t);
    } else if a.Arm? || a.Begin? || a.Finish? || a.Disarm? || a.Loop? {
      WorkerStop(c, s, a, t);
    } else if a.Fire? || a.RunCheck? || a.ReadFlag? || a.Notice? {
      SchedulerStop(c, s, a, t);
    } else if a.PutPill? || a.DispatchCheck? || a.DispatchPut? || a.StopScheduler? {
      QueueStop(c, s, a, t);
    } else {
      LockStop(c, s, a, t);
    }
  }

  lemma FreshStopOk(c: Config)
    ensures StopOk(c, Fresh)
  {
  }

  lemma {:induction false} RunStopOk(c: Config, trace: seq<State>, actions: seq<Action>, i: nat)
    requires GoodConfig(c) && Run(c, trace, actions) && i < |trace|
    ensures StopOk(c, trace[i])
  {
    hide StopOk, Step, Inv;
    if i == 0 {
      FreshStopOk(c);
    } else {
      RunStopOk(c, trace, actions, i - 1);
      RunInv(c, trace, actions, i - 1);
      StepStopOk(c, trace[i - 1], actions[i - 1], trace[i]);
    }
  }

  /**
   After stop(): if the queue had room for all pills beside the dispatches that
   were already past their running check, then at every later moment the pills
   left cover the workers that still need one, so no worker waits on a queue
   without a pill once stop() has put them all.
   */
  lemma {:induction false} PillsCover(c: Config, trace: seq<State>, actions: seq<Action>, i: nat)
    requires GoodConfig(c) && Run(c, trace, actions) && i < |trace|
    requires trace[i].stopped && trace[i].room
    ensures |NeedyWorkers(trace[i].workers)| <= Pills(trace[i].queue, trace[i].lock)
    ensures trace[i].lock == Free && (exists w :: w in trace[i].workers && trace[i].workers[w].pc == Waiting) ==>
              StopPill in trace[i].queue
  {
    hide Step;
    RunStopOk(c, trace, actions, i);
    RunInv(c, trace, actions, i);
    WaitingNeedsPill(c, trace[i]);
  }

  lemma WaitingNeedsPill(c: Config, s: State)
    requires Inv(c, s) && StopOk(c, s)
    ensures s.stopped && s.room && s.lock == Free && (exists w :: w in s.workers && s.workers[w].pc == Waiting) ==>
              StopPill in s.queue
  {
    if s.stopped && s.room && s.lock == Free && exists w :: w in s.workers && s.workers[w].pc == Waiting {
      var w :| w in s.workers && s.workers[w].pc == Waiting;
      assert WorkerOk(s.workers[w]);
      assert w in NeedyWorkers(s.workers);
      CountedIsQueued(s.queue);
    }
  }
}

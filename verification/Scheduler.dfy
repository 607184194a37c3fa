/**
 The scheduler thread and its calls (lib/vdsm/schedule.py).  Any thread may
 schedule, cancel and stop at any moment; time passes between any two steps of
 the scheduler thread, also while it holds the lock.
 */
module Scheduler {
  import opened Collections

  type Id = nat

  const DEFAULT_DELAY: real := 30.0

  // --------------------------------------------------------------------- state

  /**
   A ScheduledCall: valid until its callable is overwritten.  The other fields
   record whether cancel() came before execution and when execution began.
   */
  datatype Call = Call(deadline: real, valid: bool, cancelled: bool, starts: nat, startedAt: real)

  datatype Thread =
    | NotStarted
    | AtTop                             // about to take the lock
    | Deciding(readAt: real, delay: real) // lock held, clock read, about to wait
    | Sleeping(readAt: real, sleptAt: real, delay: real, notified: bool)
    | Popping                           // lock held, about to pop
    | Executing(next: nat)              // about to execute batch[next]
    | Calling(at: nat)                  // inside the callable of batch[at]
    | Exiting(left: nat)                // about to cancel; batch[left..] was never taken up
    | Dead(left: nat)

  datatype State = State(
    now: real, running: bool, calls: map<Id, Call>, heap: set<Id>, batch: seq<Id>, thread: Thread)

  const Fresh := State(0.0, false, map[], {}, [], NotStarted)

  /** schedule(), start() and stop() need the lock. */
  predicate LockFree(s: State) { !s.thread.Deciding? && !s.thread.Popping? }

  // --------------------------------------------------------------------- steps

  /** Whether a pushed call becomes calls[0]: heapq moves it up past greater ones only. */
  ghost predicate OnTop(calls: map<Id, Call>, heap: set<Id>, deadline: real) {
    forall id :: id in heap && id in calls ==> deadline < calls[id].deadline
  }

  function Notify(t: Thread): Thread {
    if t.Sleeping? then t.(notified := true) else t
  }

  ghost predicate Schedule(s: State, t: State, id: Id, deadline: real) {
    && LockFree(s) && s.running && id !in s.calls
    && t == s.(calls := s.calls[id := Call(deadline, true, false, 0, 0.0)], heap := s.heap + {id},
               thread := if OnTop(s.calls, s.heap, deadline) then Notify(s.thread) else s.thread)
  }

  function CancelOne(c: Call): Call {
    c.(valid := false, cancelled := c.cancelled || c.starts == 0)
  }

  ghost predicate Cancel(s: State, t: State, id: Id) {
    id in s.calls && t == s.(calls := s.calls[id := CancelOne(s.calls[id])])
  }

  /** A second start() raises only after it has set the flag. */
  ghost predicate Start(s: State, t: State) {
    && LockFree(s) && !s.running
    && t == s.(running := true, thread := if s.thread.NotStarted? then AtTop else s.thread)
  }

  ghost predicate Stop(s: State, t: State) {
    LockFree(s) && t == s.(running := false, thread := Notify(s.thread))
  }

  ghost predicate Tick(s: State, t: State, d: real) {
    d >= 0.0 && t == s.(now := s.now + d)
  }

  ghost predicate IsMin(calls: map<Id, Call>, heap: set<Id>, id: Id) {
    id in heap && id in calls && forall o :: o in heap && o in calls ==> calls[id].deadline <= calls[o].deadline
  }

  /** _time_until_deadline */
  ghost predicate DelayOk(s: State, delay: real) {
    if s.heap == {} then delay == DEFAULT_DELAY
    else exists id :: IsMin(s.calls, s.heap, id) && delay == s.calls[id].deadline - s.now
  }

  /** The first half of the section of _loop. */
  ghost predicate Decide(s: State, t: State, delay: real) {
    && s.thread.AtTop?
    && if !s.running then t == s.(thread := Exiting(|s.batch|))
       else DelayOk(s, delay) && t == s.(thread := if delay > 0.0 then Deciding(s.now, delay) else Popping)
  }

  /** cond.wait(delay) gives up the lock. */
  ghost predicate Sleep(s: State, t: State) {
    && s.thread.Deciding?
    && t == s.(thread := Sleeping(s.thread.readAt, s.now, s.thread.delay, false))
  }

  /** The wait ends, for whatever reason, with the lock taken back. */
  ghost predicate Wake(s: State, t: State) {
    s.thread.Sleeping? && t == s.(thread := if s.running then Popping else Exiting(|s.batch|))
  }

  function Deadlines(calls: map<Id, Call>, batch: seq<Id>): seq<real>
    requires forall i :: 0 <= i < |batch| ==> batch[i] in calls
  {
    seq(|batch|, i requires 0 <= i < |batch| => calls[batch[i]].deadline)
  }

  predicate Sorted(s: seq<real>) {
    forall i, j :: 0 <= i < j < |s| ==> s[i] <= s[j]
  }

  /** What _pop_expired_calls returns: the valid expired calls, by deadline. */
  ghost predicate Popped(calls: map<Id, Call>, heap: set<Id>, now: real, expired: seq<Id>, rest: set<Id>) {
    && (forall id :: id in rest <==> id in heap && id in calls && calls[id].deadline > now)
    && (forall id :: id in expired <==> id in heap && id in calls && calls[id].deadline <= now && calls[id].valid)
    && (forall i, j :: 0 <= i < j < |expired| ==> expired[i] != expired[j])
    && Sorted(Deadlines(calls, expired))
  }

  ghost predicate Pop(s: State, t: State, expired: seq<Id>, rest: set<Id>) {
    && s.thread.Popping? && Popped(s.calls, s.heap, s.now, expired, rest)
    && t == s.(heap := rest, batch := expired, thread := Executing(0))
  }

  function Begun(c: Call, now: real): Call {
    if c.valid then c.(starts := c.starts + 1, startedAt := now) else c
  }

  /** _execute reads the callable: a cancelled call runs the empty sentinel. */
  ghost predicate Execute(s: State, t: State) {
    && s.thread.Executing?
    && if s.thread.next >= |s.batch| then t == s.(thread := AtTop)
       else
         && s.batch[s.thread.next] in s.calls
         && t == s.(calls := s.calls[s.batch[s.thread.next] := Begun(s.calls[s.batch[s.thread.next]], s.now)],
                    thread := Calling(s.thread.next))
  }

  /** The callable returned or raised; an exit request ends the thread. */
  ghost predicate Return(s: State, t: State, fatal: bool) {
    && s.thread.Calling? && s.thread.at < |s.batch| && s.batch[s.thread.at] in s.calls
    && var id := s.batch[s.thread.at];
       t == s.(calls := s.calls[id := s.calls[id].(valid := false)],
               thread := if fatal then Exiting(s.thread.at + 1) else Executing(s.thread.at + 1))
  }

  /** _cancel_calls */
  ghost predicate Exit(s: State, t: State) {
    && s.thread.Exiting?
    && t == s.(calls := map id | id in s.calls :: if id in s.heap then CancelOne(s.calls[id]) else s.calls[id],
               thread := Dead(s.thread.left))
  }

  ghost predicate Next(s: State, t: State) {
    || (exists id, deadline :: Schedule(s, t, id, deadline))
    || (exists id :: Cancel(s, t, id))
    || Start(s, t) || Stop(s, t)
    || (exists d :: Tick(s, t, d))
    || (exists delay :: Decide(s, t, delay))
    || Sleep(s, t) || Wake(s, t)
    || (exists expired, rest :: Pop(s, t, expired, rest))
    || Execute(s, t) || (exists fatal :: Return(s, t, fatal)) || Exit(s, t)
  }

  ghost predicate Run(trace: seq<State>) {
    && trace != [] && trace[0] == Fresh
    && forall i :: 0 < i < |trace| ==> Next(trace[i - 1], trace[i])
  }

  // ----------------------------------------------------------------- invariants

  type Calls = map<Id, Call>

  /** Where the part of the batch begins that has not been taken up. */
  function Position(thread: Thread, size: nat): nat {
    match thread
    case Executing(next) => next
    case Calling(at) => at + 1
    case Exiting(left) => left
    case Dead(left) => left
    case _ => size
  }

  ghost predicate CallOk(now: real, c: Call) {
    && c.starts <= 1
    && (c.starts == 1 ==> c.deadline <= c.startedAt <= now)
    && (c.cancelled ==> c.starts == 0 && !c.valid)
    && (c.starts == 0 && !c.valid ==> c.cancelled)
  }

  ghost predicate HeapOk(calls: Calls, heap: set<Id>) {
    forall id :: id in heap ==> id in calls && calls[id].starts == 0
  }

  ghost predicate BatchOk(now: real, calls: Calls, heap: set<Id>, batch: seq<Id>, thread: Thread) {
    && Position(thread, |batch|) <= |batch|
    && (forall i :: 0 <= i < |batch| ==> batch[i] in calls && batch[i] !in heap && calls[batch[i]].deadline <= now)
    && (forall i, j :: 0 <= i < j < |batch| ==> batch[i] != batch[j])
    && (forall i, j :: 0 <= i < j < |batch| ==> calls[batch[i]].deadline <= calls[batch[j]].deadline)
    && (forall i :: Position(thread, |batch|) <= i < |batch| ==> calls[batch[i]].starts == 0)
    && (thread.Calling? ==> calls[batch[thread.at]].starts == 1 || !calls[batch[thread.at]].valid)
  }

  /** A call that may still run is in the heap or in the rest of the batch. */
  ghost predicate Kept(calls: Calls, heap: set<Id>, batch: seq<Id>, thread: Thread) {
    forall id :: id in calls && calls[id].valid && calls[id].starts == 0 ==>
      id in heap || id in batch[Min(Position(thread, |batch|), |batch|)..]
  }

  /** Nothing in the heap is due before the sleeper's alarm. */
  ghost predicate AlarmOk(calls: Calls, heap: set<Id>, at: real) {
    forall id :: id in heap && id in calls ==> at <= calls[id].deadline
  }

  ghost predicate ThreadOk(s: State) {
    && (s.thread.Deciding? ==>
          s.running && s.thread.readAt <= s.now && AlarmOk(s.calls, s.heap, s.thread.readAt + s.thread.delay))
    && (s.thread.Sleeping? && !s.thread.notified ==>
          && s.running && s.thread.readAt <= s.thread.sleptAt <= s.now
          && AlarmOk(s.calls, s.heap, s.thread.readAt + s.thread.delay))
  }

  ghost predicate Inv(s: State) {
    && (forall id :: id in s.calls ==> CallOk(s.now, s.calls[id]))
    && HeapOk(s.calls, s.heap)
    && BatchOk(s.now, s.calls, s.heap, s.batch, s.thread)
    && Kept(s.calls, s.heap, s.batch, s.thread)
    && ThreadOk(s)
  }

  lemma ScheduleKeeps(s: State, t: State, id: Id, deadline: real)
    requires Inv(s) && Schedule(s, t, id, deadline)
    ensures Inv(t)
  {
  }

  lemma CancelKeeps(s: State, t: State, id: Id)
    requires Inv(s) && Cancel(s, t, id)
    ensures Inv(t)
  {
  }

  lemma ControlKeeps(s: State, t: State)
    requires Inv(s)
    requires Start(s, t) || Stop(s, t) || (exists d :: Tick(s, t, d))
    ensures Inv(t)
  {
  }

  lemma LoopKeeps(s: State, t: State)
    requires Inv(s)
    requires (exists delay :: Decide(s, t, delay)) || Sleep(s, t) || Wake(s, t)
    ensures Inv(t)
  {
  }

  lemma PopKeeps(s: State, t: State, expired: seq<Id>, rest: set<Id>)
    requires Inv(s) && Pop(s, t, expired, rest)
    ensures Inv(t)
  {
    assert expired[0..] == expired && s.batch[|s.batch|..] == [];
    var d := Deadlines(s.calls, expired);
    assert forall i :: 0 <= i < |expired| ==> d[i] == s.calls[expired[i]].deadline;
    assert forall i :: 0 <= i < |expired| ==> expired[i] in expired;
  }

  lemma BeginBatch(now: real, calls: Calls, heap: set<Id>, batch: seq<Id>, next: nat, c: Call)
    requires BatchOk(now, calls, heap, batch, Executing(next)) && next < |batch|
    requires c == Begun(calls[batch[next]], now)
    ensures BatchOk(now, calls[batch[next] := c], heap, batch, Calling(next))
  {
  }

  lemma BeginKept(now: real, calls: Calls, heap: set<Id>, batch: seq<Id>, next: nat, c: Call)
    requires BatchOk(now, calls, heap, batch, Executing(next)) && next < |batch|
    requires Kept(calls, heap, batch, Executing(next)) && c == Begun(calls[batch[next]], now)
    ensures Kept(calls[batch[next] := c], heap, batch, Calling(next))
  {
  }

  lemma BeginHeap(now: real, calls: Calls, heap: set<Id>, batch: seq<Id>, next: nat, c: Call)
    requires HeapOk(calls, heap) && BatchOk(now, calls, heap, batch, Executing(next)) && next < |batch|
    ensures HeapOk(calls[batch[next] := c], heap)
  {
  }

  lemma BeginCall(now: real, calls: Calls, heap: set<Id>, batch: seq<Id>, next: nat)
    requires BatchOk(now, calls, heap, batch, Executing(next)) && next < |batch| && CallOk(now, calls[batch[next]])
    ensures CallOk(now, Begun(calls[batch[next]], now))
  {
  }

  lemma EndBatch(s: State, t: State)
    requires Inv(s) && s.thread.Executing? && s.thread.next >= |s.batch| && t == s.(thread := AtTop)
    ensures Inv(t)
  {
  }

  lemma ExecuteKeeps(s: State, t: State)
    requires Inv(s) && Execute(s, t)
    ensures Inv(t)
  {
    var next := s.thread.next;
    if next < |s.batch| {
      var c := Begun(s.calls[s.batch[next]], s.now);
      hide BatchOk, Kept, HeapOk, CallOk, Begun;
      BeginCall(s.now, s.calls, s.heap, s.batch, next);
      BeginBatch(s.now, s.calls, s.heap, s.batch, next, c);
      BeginKept(s.now, s.calls, s.heap, s.batch, next, c);
      BeginHeap(s.now, s.calls, s.heap, s.batch, next, c);
    } else {
      hide Inv;
      EndBatch(s, t);
    }
  }

  lemma EndCall(now: real, calls: Calls, heap: set<Id>, batch: seq<Id>, at: nat, thread: Thread)
    requires BatchOk(now, calls, heap, batch, Calling(at)) && at < |batch| && CallOk(now, calls[batch[at]])
    requires thread == Executing(at + 1) || thread == Exiting(at + 1)
    ensures var c := calls[batch[at]].(valid := false);
            CallOk(now, c) && BatchOk(now, calls[batch[at] := c], heap, batch, thread)
  {
  }

  lemma EndKept(now: real, calls: Calls, heap: set<Id>, batch: seq<Id>, at: nat, thread: Thread)
    requires BatchOk(now, calls, heap, batch, Calling(at)) && at < |batch| && HeapOk(calls, heap)
    requires Kept(calls, heap, batch, Calling(at)) && (thread == Executing(at + 1) || thread == Exiting(at + 1))
    ensures var c := calls[batch[at]].(valid := false);
            Kept(calls[batch[at] := c], heap, batch, thread) && HeapOk(calls[batch[at] := c], heap)
  {
  }

  lemma ReturnKeeps(s: State, t: State, fatal: bool)
    requires Inv(s) && Return(s, t, fatal)
    ensures Inv(t)
  {
    hide BatchOk, Kept, HeapOk, CallOk;
    EndCall(s.now, s.calls, s.heap, s.batch, s.thread.at, t.thread);
    EndKept(s.now, s.calls, s.heap, s.batch, s.thread.at, t.thread);
  }

  lemma ExitKeeps(s: State, t: State)
    requires Inv(s) && Exit(s, t)
    ensures Inv(t)
  {
  }

  lemma NextKeeps(s: State, t: State)
    requires Inv(s) && Next(s, t)
    ensures Inv(t)
  {
    hide Inv;
    if id, deadline :| Schedule(s, t, id, deadline) {
      ScheduleKeeps(s, t, id, deadline);
    } else if id :| Cancel(s, t, id) {
      CancelKeeps(s, t, id);
    } else if Start(s, t) || Stop(s, t) || exists d :: Tick(s, t, d) {
      ControlKeeps(s, t);
    } else if (exists delay :: Decide(s, t, delay)) || Sleep(s, t) || Wake(s, t) {
      LoopKeeps(s, t);
    } else if expired, rest :| Pop(s, t, expired, rest) {
      PopKeeps(s, t, expired, rest);
    } else if Execute(s, t) {
      ExecuteKeeps(s, t);
    } else if fatal :| Return(s, t, fatal) {
      ReturnKeeps(s, t, fatal);
    } else {
      ExitKeeps(s, t);
    }
  }

  lemma {:induction false} RunInv(trace: seq<State>, i: nat)
    requires Run(trace) && i < |trace|
    ensures Inv(trace[i])
  {
    if i > 0 {
      RunInv(trace, i - 1);
      NextKeeps(trace[i - 1], trace[i]);
    }
  }

  // ------------------------------------------------------------------- theorems

  ghost predicate Pending(s: State, id: Id)
    requires id in s.calls
  {
    id in s.heap && s.calls[id].valid
  }

  ghost predicate TakenOff(s: State, id: Id)
    requires id in s.calls
  {
    s.calls[id].valid && s.calls[id].starts == 0 &&
    exists i :: Position(s.thread, |s.batch|) <= i < |s.batch| && s.batch[i] == id
  }

  ghost predicate Ran(s: State, id: Id)
    requires id in s.calls
  {
    s.calls[id].starts > 0
  }

  ghost predicate Cancelled(s: State, id: Id)
    requires id in s.calls
  {
    s.calls[id].starts == 0 && !s.calls[id].valid
  }

  function Count(a: bool, b: bool, c: bool, d: bool): nat {
    (if a then 1 else 0) + (if b then 1 else 0) + (if c then 1 else 0) + (if d then 1 else 0)
  }

  /**
   In every state of every run a call has started at most once, never before its
   deadline, and is in exactly one of pending, popped, run and cancelled; the
   calls of a batch are executed in order of their deadlines.
   */
  lemma {:induction false} CallsSafe(trace: seq<State>, i: nat, id: Id)
    requires Run(trace) && i < |trace| && id in trace[i].calls
    ensures var s := trace[i];
            && s.calls[id].starts <= 1
            && (Ran(s, id) ==> s.calls[id].deadline <= s.calls[id].startedAt)
            && Count(Pending(s, id), TakenOff(s, id), Ran(s, id), Cancelled(s, id)) == 1
            && forall j, k :: 0 <= j < k < |s.batch| && s.batch[j] in s.calls && s.batch[k] in s.calls ==>
                 s.calls[s.batch[j]].deadline <= s.calls[s.batch[k]].deadline
  {
    RunInv(trace, i);
    var s := trace[i];
    assert CallOk(s.now, s.calls[id]);
    if s.calls[id].valid && s.calls[id].starts == 0 && id !in s.heap {
      var p := Position(s.thread, |s.batch|);
      var k :| 0 <= k < |s.batch[p..]| && s.batch[p..][k] == id;
      assert s.batch[p + k] == id;
    }
  }

  predicate IsCancelled(calls: Calls, id: Id) { id in calls && calls[id].cancelled }

  lemma ClientKeepsCancel(s: State, t: State, id: Id)
    requires IsCancelled(s.calls, id)
    requires (exists o, deadline :: Schedule(s, t, o, deadline)) || (exists o :: Cancel(s, t, o)) ||
             Start(s, t) || Stop(s, t) || (exists d :: Tick(s, t, d))
    ensures IsCancelled(t.calls, id)
  {
  }

  lemma LoopKeepsCancel(s: State, t: State, id: Id)
    requires IsCancelled(s.calls, id)
    requires (exists delay :: Decide(s, t, delay)) || Sleep(s, t) || Wake(s, t) ||
             (exists expired, rest :: Pop(s, t, expired, rest))
    ensures IsCancelled(t.calls, id)
  {
    hide Popped, DelayOk;
  }

  lemma ExecutionKeepsCancel(s: State, t: State, id: Id)
    requires IsCancelled(s.calls, id)
    requires Execute(s, t) || (exists fatal :: Return(s, t, fatal)) || Exit(s, t)
    ensures IsCancelled(t.calls, id)
  {
  }

  lemma CancelSticks(s: State, t: State, id: Id)
    requires Next(s, t) && IsCancelled(s.calls, id)
    ensures IsCancelled(t.calls, id)
  {
    hide Schedule, Cancel, Start, Stop, Tick, Decide, Sleep, Wake, Pop, Execute, Return, Exit;
    if Execute(s, t) || (exists fatal :: Return(s, t, fatal)) || Exit(s, t) {
      ExecutionKeepsCancel(s, t, id);
    } else if (exists delay :: Decide(s, t, delay)) || Sleep(s, t) || Wake(s, t) ||
              (exists expired, rest :: Pop(s, t, expired, rest)) {
      LoopKeepsCancel(s, t, id);
    } else {
      ClientKeepsCancel(s, t, id);
    }
  }

  /** A call cancelled before its execution starts is never executed. */
  lemma {:induction false} CancelledNeverRuns(trace: seq<State>, i: nat, j: nat, id: Id)
    requires Run(trace) && i < j < |trace|
    requires Cancel(trace[i], trace[i + 1], id) && trace[i].calls[id].starts == 0
    ensures id in trace[j].calls && trace[j].calls[id].cancelled && trace[j].calls[id].starts == 0
    decreases j
  {
    hide Next, Inv;
    if i + 1 < j {
      CancelledNeverRuns(trace, i, j - 1, id);
      CancelSticks(trace[j - 1], trace[j], id);
    }
    CallAt(trace, j, id);
  }

  lemma CallAt(trace: seq<State>, i: nat, id: Id)
    requires Run(trace) && i < |trace| && id in trace[i].calls
    ensures CallOk(trace[i].now, trace[i].calls[id])
  {
    RunInv(trace, i);
  }

  /**
   Whenever the scheduler thread sleeps without having been notified, it is
   running, and its alarm is no later than the earliest deadline in the heap
   plus the time it spent between reading the clock and falling asleep.  So
   neither a new earlier call nor stop() is missed.
   */
  lemma {:induction false} SleepSafe(trace: seq<State>, i: nat)
    requires Run(trace) && i < |trace|
    ensures var s := trace[i];
            s.thread.Sleeping? && !s.thread.notified ==>
              s.running && s.heap <= s.calls.Keys
    ensures var s := trace[i];
            s.thread.Sleeping? && !s.thread.notified ==>
              forall id :: id in s.heap && id in s.calls ==>
                s.thread.sleptAt + s.thread.delay <= s.calls[id].deadline + (s.thread.sleptAt - s.thread.readAt)
  {
    RunInv(trace, i);
  }

  // --------------------------------------------------- the loop over the heap

  /** Everything taken off so far is due no later than anything left. */
  ghost predicate Earlier(calls: Calls, done: seq<Id>, heap: set<Id>) {
    forall i, id :: 0 <= i < |done| && id in heap && done[i] in calls && id in calls ==>
      calls[done[i]].deadline <= calls[id].deadline
  }

  lemma {:induction false} MinExists(calls: Calls, heap: set<Id>)
    requires heap != {} && heap <= calls.Keys
    ensures exists id :: IsMin(calls, heap, id)
  {
    var x :| x in heap;
    if heap == {x} {
      assert IsMin(calls, heap, x);
    } else {
      assert heap - {x} != {};
      MinExists(calls, heap - {x});
      var y :| IsMin(calls, heap - {x}, y);
      if calls[x].deadline <= calls[y].deadline {
        assert IsMin(calls, heap, x);
      } else {
        assert IsMin(calls, heap, y);
      }
    }
  }

  /** heap[0]: some call with the least deadline. */
  method Top(calls: Calls, heap: set<Id>) returns (id: Id)
    requires heap != {} && heap <= calls.Keys
    ensures IsMin(calls, heap, id)
  {
    MinExists(calls, heap);
    id :| id in heap && forall o :: o in heap ==> calls[id].deadline <= calls[o].deadline;
  }

  /** _pop_expired_calls */
  method PopExpired(calls: Calls, heap: set<Id>, now: real) returns (expired: seq<Id>, rest: set<Id>)
    requires heap <= calls.Keys
    ensures Popped(calls, heap, now, expired, rest)
  {
    expired, rest := [], heap;
    while rest != {}
      invariant rest <= heap
      invariant forall id :: id in heap && id !in rest ==> calls[id].deadline <= now
      invariant forall id :: id in expired <==> id in heap && id !in rest && calls[id].valid
      invariant forall i, j :: 0 <= i < j < |expired| ==> expired[i] != expired[j]
      invariant forall i, j :: 0 <= i < j < |expired| ==> calls[expired[i]].deadline <= calls[expired[j]].deadline
      invariant Earlier(calls, expired, rest)
      decreases rest
    {
      var id := Top(calls, rest);
      if calls[id].deadline > now {
        break;
      }
      rest := rest - {id};
      if calls[id].valid {
        expired := expired + [id];
      }
    }
    assert forall i :: 0 <= i < |expired| ==> expired[i] in expired;
  }
}

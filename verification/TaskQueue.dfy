/**
 The bounded task queue of the executor (lib/vdsm/executor.py, class TaskQueue):
 any number of threads put, get and clear.  get() pops without the lock and
 sleeps on the condition only after seeing the queue empty under it.
 */
module TaskQueue {
  import opened Options

  type Thread = nat

  /** Where a thread inside get() is. */
  datatype Getter =
    | Popping   // about to call popleft
    | FoundNone // caught IndexError, about to take the lock
    | Asleep    // in cond.wait, not notified
    | Notified  // woken, waiting to take the lock back

  /**
   The queue, the threads inside get(), and, since the last clear, the tasks
   put and the tasks delivered.
   */
  datatype State<T> = State(
    tasks: seq<T>, getters: map<Thread, Getter>, put: seq<T>, delivered: seq<T>)

  ghost predicate Init<T>(s: State<T>) {
    s == State([], map[], [], [])
  }

  // ----------------------------------------------------------- atomic sections

  /** The section of put(), without the notification; false is ResourceExhausted. */
  function Appended<T>(maxTasks: nat, tasks: seq<T>, task: T): (bool, seq<T>) {
    if |tasks| == maxTasks then (false, tasks) else (true, tasks + [task])
  }

  ghost predicate Sleeping<T>(s: State<T>, g: Thread) {
    g in s.getters && s.getters[g] == Asleep
  }

  /** put(): append and notify one sleeping thread, if there is one. */
  ghost predicate Put<T>(maxTasks: nat, s: State<T>, t: State<T>, task: T) {
    var (ok, tasks) := Appended(maxTasks, s.tasks, task);
    if !ok then t == s
    else
      && t.tasks == tasks && t.put == s.put + [task] && t.delivered == s.delivered
      && if exists g :: Sleeping(s, g)
         then exists g :: Sleeping(s, g) && t.getters == s.getters[g := Notified]
         else t.getters == s.getters
  }

  ghost predicate Clear<T>(s: State<T>, t: State<T>) {
    t == State([], s.getters, [], [])
  }

  /** A thread calls get(). */
  ghost predicate Enter<T>(s: State<T>, t: State<T>, g: Thread) {
    g !in s.getters && t == s.(getters := s.getters[g := Popping])
  }

  /** popleft(): return a task, or find none. */
  ghost predicate Pop<T>(s: State<T>, t: State<T>, g: Thread) {
    && g in s.getters && s.getters[g] == Popping
    && if s.tasks == [] then t == s.(getters := s.getters[g := FoundNone])
       else t == s.(tasks := s.tasks[1..], getters := s.getters - {g},
                    delivered := s.delivered + [s.tasks[0]])
  }

  /** Under the lock: look again, then sleep. */
  ghost predicate Recheck<T>(s: State<T>, t: State<T>, g: Thread) {
    && g in s.getters && s.getters[g] == FoundNone
    && t == s.(getters := s.getters[g := if s.tasks == [] then Asleep else Popping])
  }

  /** A notified thread gets the lock back and starts over. */
  ghost predicate Resume<T>(s: State<T>, t: State<T>, g: Thread) {
    && g in s.getters && s.getters[g] == Notified
    && t == s.(getters := s.getters[g := Popping])
  }

  /** A wait may also end without a notification. */
  ghost predicate Spurious<T>(s: State<T>, t: State<T>, g: Thread) {
    Sleeping(s, g) && t == s.(getters := s.getters[g := Notified])
  }

  ghost predicate Next<T(!new)>(maxTasks: nat, s: State<T>, t: State<T>) {
    || (exists task: T :: Put(maxTasks, s, t, task))
    || Clear(s, t)
    || (exists g: Thread :: Enter(s, t, g) || Pop(s, t, g) || Recheck(s, t, g) || Resume(s, t, g) || Spurious(s, t, g))
  }

  ghost predicate Run<T(!new)>(maxTasks: nat, trace: seq<State<T>>) {
    && trace != [] && Init(trace[0])
    && forall i :: 0 < i < |trace| ==> Next(maxTasks, trace[i - 1], trace[i])
  }

  // ---------------------------------------------------------------- invariants

  ghost function Awake<T>(s: State<T>): set<Thread> {
    set g | g in s.getters && s.getters[g] != Asleep
  }

  /** Queued tasks never outnumber the awake getters while somebody sleeps. */
  ghost predicate Covered<T>(s: State<T>) {
    (exists g :: Sleeping(s, g)) ==> |s.tasks| <= |Awake(s)|
  }

  ghost predicate Inv<T>(maxTasks: nat, s: State<T>) {
    && |s.tasks| <= maxTasks
    && s.put == s.delivered + s.tasks
    && Covered(s)
  }

  lemma PutKeeps<T>(maxTasks: nat, s: State<T>, t: State<T>, task: T)
    requires Inv(maxTasks, s) && Put(maxTasks, s, t, task)
    ensures Inv(maxTasks, t)
  {
    assert forall h :: Sleeping(t, h) ==> Sleeping(s, h);
    if |s.tasks| != maxTasks && exists g :: Sleeping(s, g) {
      var g :| Sleeping(s, g) && t.getters == s.getters[g := Notified];
      assert Awake(t) == Awake(s) + {g};
    }
  }

  lemma PopKeeps<T>(maxTasks: nat, s: State<T>, t: State<T>, g: Thread)
    requires Inv(maxTasks, s) && Pop(s, t, g)
    ensures Inv(maxTasks, t)
  {
    if s.tasks == [] {
      assert Awake(t) == Awake(s);
    } else {
      assert Awake(t) == Awake(s) - {g};
      assert forall h :: Sleeping(t, h) ==> Sleeping(s, h);
    }
  }

  lemma GetterKeeps<T>(maxTasks: nat, s: State<T>, t: State<T>, g: Thread)
    requires Inv(maxTasks, s)
    requires Enter(s, t, g) || Recheck(s, t, g) || Resume(s, t, g) || Spurious(s, t, g)
    ensures Inv(maxTasks, t)
  {
    if t.tasks != [] {
      assert Awake(t) == Awake(s) + {g};
      assert g in Awake(s) ==> Awake(s) + {g} == Awake(s);
      assert forall h :: Sleeping(t, h) ==> Sleeping(s, h);
    }
  }

  lemma NextKeeps<T(!new)>(maxTasks: nat, s: State<T>, t: State<T>)
    requires Inv(maxTasks, s) && Next(maxTasks, s, t)
    ensures Inv(maxTasks, t)
  {
    if task: T :| Put(maxTasks, s, t, task) {
      PutKeeps(maxTasks, s, t, task);
    } else if Clear(s, t) {
    } else {
      var g: Thread :| Enter(s, t, g) || Pop(s, t, g) || Recheck(s, t, g) || Resume(s, t, g) || Spurious(s, t, g);
      if Pop(s, t, g) {
        PopKeeps(maxTasks, s, t, g);
      } else {
        GetterKeeps(maxTasks, s, t, g);
      }
    }
  }

  lemma {:induction false} RunInv<T(!new)>(maxTasks: nat, trace: seq<State<T>>, i: nat)
    requires Run(maxTasks, trace) && i < |trace|
    ensures Inv(maxTasks, trace[i])
  {
    if i > 0 {
      RunInv(maxTasks, trace, i - 1);
      NextKeeps(maxTasks, trace[i - 1], trace[i]);
    }
  }

  /**
   In every run: the queue respects its bound, deliveries since the last clear
   are the first tasks put since then, in order, and a queued task never waits
   while every thread inside get() sleeps un-notified.
   */
  lemma {:induction false} QueueSafe<T(!new)>(maxTasks: nat, trace: seq<State<T>>, i: nat)
    requires Run(maxTasks, trace) && i < |trace|
    ensures |trace[i].tasks| <= maxTasks
    ensures trace[i].delivered <= trace[i].put
    ensures trace[i].tasks != [] && trace[i].getters != map[] ==>
              exists g :: g in trace[i].getters && trace[i].getters[g] != Asleep
  {
    RunInv(maxTasks, trace, i);
    var s := trace[i];
    if s.tasks != [] && s.getters != map[] {
      var h :| h in s.getters;
      if Sleeping(s, h) {
        var g :| g in Awake(s);
      }
    }
  }

  // --------------------------------------------------------- the queue object

  /**
   The queue with its condition: getters holds where each thread inside get() is,
   so a sleeping one can be notified.  Each method is one atomic section.
   */
  class Queue<T> {
    const maxTasks: nat
    var tasks: seq<T>
    var getters: map<Thread, Getter>
    ghost var put: seq<T>
    ghost var delivered: seq<T>

    ghost function View(): State<T>
      reads this
    {
      State(tasks, getters, put, delivered)
    }

    ghost predicate Valid()
      reads this
    {
      Inv(maxTasks, View())
    }

    constructor (maxTasks: nat)
      ensures this.maxTasks == maxTasks && Valid() && Init(View())
    {
      this.maxTasks := maxTasks;
      tasks, getters, put, delivered := [], map[], [], [];
    }

    method PutTask(task: T) returns (ok: bool)
      requires Valid()
      modifies this
      ensures Valid() && Put(maxTasks, old(View()), View(), task)
      ensures ok <==> |old(tasks)| != maxTasks
    {
      ghost var before := View();
      if |tasks| == maxTasks {
        return false;
      }
      tasks := tasks + [task];
      put := put + [task];
      Notify(before);
      PutKeeps(maxTasks, before, View(), task);
      return true;
    }

    /** cond.notify(): wake one sleeping thread, if there is one. */
    method Notify(ghost before: State<T>)
      requires getters == before.getters
      modifies this`getters
      ensures if exists g :: Sleeping(before, g)
              then exists g :: Sleeping(before, g) && getters == before.getters[g := Notified]
              else getters == before.getters
    {
      var asleep := set g | g in getters && getters[g] == Asleep;
      if asleep != {} {
        var g :| g in asleep;
        assert Sleeping(before, g);
        getters := getters[g := Notified];
      } else {
        assert forall g :: Sleeping(before, g) ==> g in asleep;
      }
    }

    /** A thread calls get(). */
    method EnterGet(g: Thread)
      requires Valid() && g !in getters
      modifies this`getters
      ensures Valid() && Enter(old(View()), View(), g)
    {
      ghost var before := View();
      getters := getters[g := Popping];
      GetterKeeps(maxTasks, before, View(), g);
    }

    /** The popleft() of get(): the first task, or IndexError. */
    method PopLeft(g: Thread) returns (got: Option<T>)
      requires Valid() && g in getters && getters[g] == Popping
      modifies this
      ensures Valid() && Pop(old(View()), View(), g)
      ensures if old(tasks) == [] then got == None && delivered == old(delivered)
              else got == Some(old(tasks)[0]) && delivered == old(delivered) + [got.value]
    {
      ghost var before := View();
      if tasks == [] {
        getters := getters[g := FoundNone];
        got := None;
      } else {
        got := Some(tasks[0]);
        tasks, getters, delivered := tasks[1..], getters - {g}, delivered + [tasks[0]];
      }
      PopKeeps(maxTasks, before, View(), g);
    }

    /** The locked part of get(): look again, and sleep only if there is still nothing. */
    method LookAgain(g: Thread)
      requires Valid() && g in getters && getters[g] == FoundNone
      modifies this`getters
      ensures Valid() && Recheck(old(View()), View(), g)
    {
      ghost var before := View();
      if tasks == [] {
        getters := getters[g := Asleep];
      } else {
        getters := getters[g := Popping];
      }
      GetterKeeps(maxTasks, before, View(), g);
    }

    /** cond.wait() returns to a notified thread, which starts over. */
    method WakeUp(g: Thread)
      requires Valid() && g in getters && getters[g] == Notified
      modifies this`getters
      ensures Valid() && Resume(old(View()), View(), g)
    {
      ghost var before := View();
      getters := getters[g := Popping];
      GetterKeeps(maxTasks, before, View(), g);
    }

    method ClearTasks()
      requires Valid()
      modifies this
      ensures Valid() && Clear(old(View()), View())
    {
      tasks, put, delivered := [], [], [];
    }
  }
}

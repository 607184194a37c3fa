/**
 The life-cycle of a job (lib/vdsm/jobs.py) and the registry of jobs.  A job is
 run by one thread and aborted by others; each critical section of its status
 lock is one step, and so is each of the two halves of deleting from the
 registry, since deletion reads the status without that lock.
 */
module Jobs {
  import opened Options

  type Id = nat
  type Ref = nat

  datatype Status = Pending | Running | Done | Aborting | Aborted | Failed

  /** How a body ends; Killed is an exception outside the Exception class. */
  datatype Outcome = Completed | Stopped | Raised | Killed

  predicate Final(s: Status) { s == Done || s == Aborted || s == Failed }

  predicate Active(s: Status) { s == Pending || s == Running }

  // ------------------------------------------------------------ status changes

  function AfterAbort(s: Status): Status {
    match s
    case Pending => Aborted
    case Running => Aborting
    case _ => s
  }

  function AfterBody(s: Status, o: Outcome): Status {
    match o
    case Completed => Done
    case Stopped => Aborted
    case Raised => if s == Aborting then Aborted else Failed
    case Killed => s
  }

  /**
   A job: its status, how often a body was started, how many threads are in the
   body, whether a body was killed, how many threads have set a status and not
   sent the event yet, and the events.
   */
  datatype Job = Job(id: Id, status: Status, starts: nat, bodies: nat, killed: bool, notifying: nat,
                     events: seq<Status>)

  function NewJob(id: Id): Job { Job(id, Pending, 0, 0, false, 0, []) }

  datatype JobStep = MayRun | Abort | Finish(o: Outcome) | Notify

  function StepJob(j: Job, a: JobStep): Job {
    match a
    case MayRun =>
      if j.status == Pending then j.(status := Running, starts := j.starts + 1, bodies := j.bodies + 1) else j
    case Abort =>
      j.(status := AfterAbort(j.status), notifying := j.notifying + if j.status == Pending then 1 else 0)
    case Finish(o) =>
      if j.bodies == 0 then j
      else j.(status := AfterBody(j.status, o), bodies := j.bodies - 1, notifying := j.notifying + 1,
              killed := j.killed || o == Killed)
    case Notify =>
      if j.notifying == 0 then j else j.(notifying := j.notifying - 1, events := j.events + [j.status])
  }

  // ---------------------------------------------------------------- the system

  /** All jobs ever created, the registry, and the id a deleter has looked up. */
  datatype State = State(jobs: map<Ref, Job>, registry: map<Id, Ref>, deleting: Option<Id>)

  const Initial := State(map[], map[], None)

  datatype Action =
    | Create(j: Ref, id: Id)
    | OnJob(j: Ref, step: JobStep)
    | Add(j: Ref)
    | Look(id: Id)
    | Drop

  /** An action that cannot happen changes nothing; while a deletion is under way the registry is locked. */
  function Apply(s: State, a: Action): State {
    match a
    case Create(j, id) => if j in s.jobs then s else s.(jobs := s.jobs[j := NewJob(id)])
    case OnJob(j, step) => if j !in s.jobs then s else s.(jobs := s.jobs[j := StepJob(s.jobs[j], step)])
    case Add(j) =>
      if s.deleting.Some? || j !in s.jobs || s.jobs[j].id in s.registry then s
      else s.(registry := s.registry[s.jobs[j].id := j])
    case Look(id) =>
      if s.deleting.Some? || id !in s.registry || s.registry[id] !in s.jobs || Active(s.jobs[s.registry[id]].status)
      then s
      else s.(deleting := Some(id))
    case Drop =>
      if s.deleting.None? then s
      else s.(registry := s.registry - {s.deleting.value}, deleting := None)
  }

  function After(s: State, actions: seq<Action>): State {
    if actions == [] then s else Apply(After(s, actions[..|actions| - 1]), actions[|actions| - 1])
  }

  function Reached(actions: seq<Action>): State { After(Initial, actions) }

  // ------------------------------------------------------------- the invariant

  /**
   Once a job has left Pending exactly one of these exists: its body, a thread
   about to notify, its event.
   */
  predicate JobInv(j: Job) {
    && j.bodies + j.notifying + |j.events| == (if j.status == Pending then 0 else 1)
    && (j.status == Pending ==> j.starts == 0)
    && (j.starts == 0 ==> j.status == Pending || j.status == Aborted)
    && j.starts <= 1
    && (j.bodies == 1 ==> j.starts == 1 && !j.killed && !Final(j.status))
    && (j.killed ==> j.starts == 1 && !Final(j.status))
    && (j.bodies == 0 && !j.killed && j.status != Pending ==> Final(j.status))
    && (j.events != [] ==> if j.killed then !Final(j.events[0]) else j.events[0] == j.status)
  }

  predicate Inv(s: State) {
    && (forall j :: j in s.jobs ==> JobInv(s.jobs[j]))
    && (forall id :: id in s.registry ==> s.registry[id] in s.jobs && s.jobs[s.registry[id]].id == id)
    && (s.deleting.Some? ==>
          s.deleting.value in s.registry && !Active(s.jobs[s.registry[s.deleting.value]].status))
  }

  /** What a later state of a job keeps of an earlier one. */
  predicate Continues(j: Job, k: Job) {
    && k.id == j.id
    && (!Active(j.status) ==> !Active(k.status))
    && (Final(j.status) ==> k.status == j.status)
    && j.starts <= k.starts
    && j.events <= k.events
  }

  lemma StepJobInv(j: Job, a: JobStep)
    requires JobInv(j)
    ensures JobInv(StepJob(j, a)) && Continues(j, StepJob(j, a))
  {
  }

  lemma ContinuesTwice(j: Job, k: Job, l: Job)
    requires Continues(j, k) && Continues(k, l)
    ensures Continues(j, l)
  {
  }

  lemma ApplyInv(s: State, a: Action)
    requires Inv(s)
    ensures Inv(Apply(s, a))
  {
    hide JobInv, StepJob;
    if a.OnJob? && a.j in s.jobs {
      StepJobInv(s.jobs[a.j], a.step);
    }
    if a.Create? {
      assert JobInv(NewJob(a.id)) by { NewJobInv(a.id); }
    }
  }

  lemma NewJobInv(id: Id)
    ensures JobInv(NewJob(id))
  {
  }

  lemma {:induction false} AfterInv(s: State, actions: seq<Action>)
    requires Inv(s)
    ensures Inv(After(s, actions))
  {
    if actions != [] {
      AfterInv(s, actions[..|actions| - 1]);
      ApplyInv(After(s, actions[..|actions| - 1]), actions[|actions| - 1]);
    }
  }

  lemma {:induction false} AfterAppend(s: State, a: seq<Action>, b: seq<Action>)
    ensures After(s, a + b) == After(After(s, a), b)
  {
    if b == [] {
      assert a + b == a;
    } else {
      var n := |b| - 1;
      AfterAppend(s, a, b[..n]);
      assert (a + b)[..|a + b| - 1] == a + b[..n];
    }
  }

  // ------------------------------------------------------------------ theorems

  /**
   In every run a body is started at most once and at most one event is sent;
   when nothing is under way any more the event is there and carries the status,
   which is final, unless the body was killed; and an event carries a final
   status if and only if the body was not killed.
   */
  lemma {:induction false} LifeCycle(actions: seq<Action>, r: Ref)
    requires r in Reached(actions).jobs
    ensures var j := Reached(actions).jobs[r];
            && j.starts <= 1 && j.bodies <= j.starts && |j.events| <= 1
            && (Final(j.status) && j.notifying == 0 ==> j.events == [j.status])
            && (j.status != Pending && j.bodies == 0 && j.notifying == 0 ==> |j.events| == 1)
            && (j.events != [] ==> (Final(j.events[0]) <==> !j.killed))
            && (j.events != [] && !j.killed ==> j.events[0] == j.status)
  {
    AfterInv(Initial, actions);
    assert JobInv(Reached(actions).jobs[r]);
  }

  /** A killed body does send an event that carries no final status. */
  lemma {:induction false} KilledEvent(actions: seq<Action>, r: Ref)
    requires r in Reached(actions).jobs && Reached(actions).jobs[r].status == Pending
    ensures var t := Reached(actions + [OnJob(r, MayRun), OnJob(r, Finish(Killed))] + [OnJob(r, Notify)]);
            r in t.jobs && t.jobs[r].status == Running && t.jobs[r].events == [Running] && t.jobs[r].bodies == 0
  {
    var s := Reached(actions);
    var more := actions + [OnJob(r, MayRun), OnJob(r, Finish(Killed))];
    AfterInv(Initial, actions);
    AfterAppend(Initial, actions, [OnJob(r, MayRun), OnJob(r, Finish(Killed))]);
    Two(s, OnJob(r, MayRun), OnJob(r, Finish(Killed)));
    KilledSteps(s.jobs[r]);
    hide After, StepJob, JobInv;
    AfterAppend(Initial, more, [OnJob(r, Notify)]);
    One(Reached(more), OnJob(r, Notify));
  }

  lemma KilledSteps(j: Job)
    requires JobInv(j) && j.status == Pending
    ensures var k := StepJob(StepJob(StepJob(j, MayRun), Finish(Killed)), Notify);
            k.status == Running && k.events == [Running] && k.bodies == 0
  {
  }

  lemma One(s: State, a: Action)
    ensures After(s, [a]) == Apply(s, a)
  {
    assert [a][..0] == [];
  }

  lemma ApplyContinues(s: State, a: Action, r: Ref)
    requires Inv(s) && r in s.jobs
    ensures r in Apply(s, a).jobs && Continues(s.jobs[r], Apply(s, a).jobs[r])
  {
    hide Continues, StepJob, JobInv;
    ContinuesItself(s.jobs[r]);
    if a.OnJob? {
      StepJobInv(s.jobs[r], a.step);
    }
  }

  lemma ContinuesItself(j: Job)
    ensures Continues(j, j)
  {
  }

  lemma {:induction false} Persists(s: State, later: seq<Action>, r: Ref)
    requires Inv(s) && r in s.jobs
    ensures r in After(s, later).jobs && Continues(s.jobs[r], After(s, later).jobs[r])
  {
    if later != [] {
      hide Apply, Inv, Continues;
      var n := |later| - 1;
      Persists(s, later[..n], r);
      var before := After(s, later[..n]);
      AfterInv(s, later[..n]);
      ApplyContinues(before, later[n], r);
      ContinuesTwice(s.jobs[r], before.jobs[r], Apply(before, later[n]).jobs[r]);
    }
  }

  /** A final status is never left, and an inactive job never becomes active. */
  lemma {:induction false} FinalForever(actions: seq<Action>, later: seq<Action>, r: Ref)
    requires r in Reached(actions).jobs
    ensures r in Reached(actions + later).jobs
    ensures Final(Reached(actions).jobs[r].status) ==>
              Reached(actions + later).jobs[r].status == Reached(actions).jobs[r].status
    ensures !Active(Reached(actions).jobs[r].status) ==> !Active(Reached(actions + later).jobs[r].status)
  {
    AfterInv(Initial, actions);
    AfterAppend(Initial, actions, later);
    Persists(Reached(actions), later, r);
  }

  /**
   Deletion looks at the status without the status lock and drops the job later.
   Whatever happens in between, the job dropped is the one looked up, and it is
   neither pending nor running, then or ever after.
   */
  lemma {:induction false} NeverDropsActive(actions: seq<Action>, a: Action, later: seq<Action>, id: Id)
    requires id in Reached(actions).registry && id !in Reached(actions + [a]).registry
    ensures var r := Reached(actions).registry[id];
            && r in Reached(actions).jobs && Reached(actions).jobs[r].id == id
            && !Active(Reached(actions).jobs[r].status)
            && r in Reached(actions + later).jobs && !Active(Reached(actions + later).jobs[r].status)
  {
    AfterInv(Initial, actions);
    var s := Reached(actions);
    assert Reached(actions + [a]) == Apply(s, a) by {
      assert (actions + [a])[..|actions + [a]| - 1] == actions;
    }
    assert s.deleting == Some(id);
    FinalForever(actions, later, s.registry[id]);
  }

  /** A registered job stays registered, under its id, until a deletion that looked it up drops it. */
  lemma {:induction false} RegistryOnlyDropped(actions: seq<Action>, a: Action, id: Id)
    requires id in Reached(actions).registry
    ensures var s := Reached(actions);
            && (id in Reached(actions + [a]).registry ==> Reached(actions + [a]).registry[id] == s.registry[id])
            && (id !in Reached(actions + [a]).registry <==> a == Drop && s.deleting == Some(id))
  {
  }

  /** An undisturbed deletion drops a registered job if and only if it is neither pending nor running. */
  lemma {:induction false} DroppedIff(actions: seq<Action>, id: Id)
    requires var s := Reached(actions); id in s.registry && s.deleting.None?
    ensures var s := Reached(actions);
            s.registry[id] in s.jobs &&
            (id !in Reached(actions + [Look(id), Drop]).registry <==> !Active(s.jobs[s.registry[id]].status))
  {
    var s := Reached(actions);
    AfterInv(Initial, actions);
    AfterAppend(Initial, actions, [Look(id), Drop]);
    Two(s, Look(id), Drop);
  }

  lemma Two(s: State, a: Action, b: Action)
    ensures After(s, [a, b]) == Apply(Apply(s, a), b)
  {
    assert [a, b][..1] == [a] && [a][..0] == [];
    assert After(s, [a]) == Apply(s, a);
  }

  /**
   So a job whose body is still running can be dropped: from any state where a
   pending job is registered, running it, aborting it and deleting it does so.
   */
  lemma {:induction false} DroppedWhileRunning(actions: seq<Action>, id: Id)
    requires var s := Reached(actions);
             id in s.registry && s.deleting.None? && s.registry[id] in s.jobs &&
             s.jobs[s.registry[id]].status == Pending
    ensures var r := Reached(actions).registry[id];
            var t := Reached(actions + [OnJob(r, MayRun), OnJob(r, Abort)] + [Look(id), Drop]);
            id !in t.registry && r in t.jobs && t.jobs[r].bodies == 1
  {
    var s := Reached(actions);
    var r := s.registry[id];
    var more := actions + [OnJob(r, MayRun), OnJob(r, Abort)];
    AfterInv(Initial, actions);
    AfterAppend(Initial, actions, [OnJob(r, MayRun), OnJob(r, Abort)]);
    Two(s, OnJob(r, MayRun), OnJob(r, Abort));
    var t := Reached(more);
    assert t.registry == s.registry && t.deleting == None;
    assert t.jobs[r].status == Aborting && t.jobs[r].bodies == 1;
    DroppedIff(more, id);
    AfterAppend(Initial, more, [Look(id), Drop]);
    Two(t, Look(id), Drop);
  }

  // ------------------------------------------------------------------- classes

  datatype Permission = Go | Refused | RuntimeError

  datatype AbortResult = AbortOk | JobNotActive | AbortNotSupported

  class JobObject {
    const id: Id
    var status: Status
    var failure: bool
    var events: seq<Status>

    constructor (id: Id)
      ensures this.id == id && status == Pending && !failure && events == []
    {
      this.id := id;
      status, failure, events := Pending, false, [];
    }

    method MayRunNow() returns (p: Permission)
      modifies this`status
      ensures p == Go <==> old(status) == Pending
      ensures p == Refused <==> old(status) == Aborted
      ensures status == if p == Go then Running else old(status)
    {
      if status == Aborted {
        return Refused;
      }
      if status != Pending {
        return RuntimeError;
      }
      status := Running;
      return Go;
    }

    /** The job's own abort hook is told to stop the body unless it does not support that. */
    method AbortNow(supported: bool) returns (r: AbortResult)
      modifies this`status, this`events
      ensures r == JobNotActive <==> Final(old(status))
      ensures r == AbortNotSupported <==> !supported && old(status) in {Running, Aborting}
      ensures status == AfterAbort(old(status))
      ensures events == if old(status) == Pending then old(events) + [Aborted] else old(events)
    {
      if status == Pending {
        status := Aborted;
        events := events + [status];
        return AbortOk;
      } else if status == Running {
        status := Aborting;
        return if supported then AbortOk else AbortNotSupported;
      } else if status == Aborting {
        return if supported then AbortOk else AbortNotSupported;
      } else {
        return JobNotActive;
      }
    }

    method AbortCompleted()
      modifies this`status
      ensures status == AfterBody(old(status), Stopped)
    {
      status := Aborted;
    }

    method RunCompleted()
      modifies this`status
      ensures status == AfterBody(old(status), Completed)
    {
      status := Done;
    }

    method RunFailed()
      modifies this`status, this`failure
      ensures status == AfterBody(old(status), Raised) && failure
    {
      if status == Aborting {
        status := Aborted;
      } else {
        status := Failed;
      }
      failure := true;
    }

    /** run(); while the body runs, which ends with o, there may be an abort, which the job may support. */
    method Run(o: Outcome, aborted: bool, supported: bool) returns (p: Permission)
      modifies this
      ensures p == Go <==> old(status) == Pending
      ensures p == Refused <==> old(status) == Aborted
      ensures p != Go ==> status == old(status) && events == old(events) && failure == old(failure)
      ensures p == Go ==> status == AfterBody(if aborted then Aborting else Running, o)
      ensures p == Go ==> events == old(events) + [status]
      ensures p == Go ==> failure == (old(failure) || o == Raised)
      ensures p == Go && o != Killed ==> Final(status)
    {
      p := MayRunNow();
      if p != Go {
        return;
      }
      if aborted {
        var _ := AbortNow(supported);
      }
      match o {
        case Stopped => AbortCompleted();
        case Raised => RunFailed();
        case Completed => RunCompleted();
        case Killed =>
      }
      events := events + [status];
    }
  }

  datatype RegistryError = Fine | JobExistsError | NoSuchJob | JobNotDone

  class Registry {
    var jobs: map<Id, JobObject>

    ghost predicate Valid()
      reads this
    {
      forall id :: id in jobs ==> jobs[id].id == id
    }

    constructor ()
      ensures Valid() && jobs == map[]
    {
      jobs := map[];
    }

    method AddJob(job: JobObject) returns (e: RegistryError)
      requires Valid()
      modifies this
      ensures Valid()
      ensures e == (if job.id in old(jobs) then JobExistsError else Fine)
      ensures jobs == if e == Fine then old(jobs)[job.id := job] else old(jobs)
    {
      if job.id in jobs {
        return JobExistsError;
      }
      jobs := jobs[job.id := job];
      return Fine;
    }

    method Get(id: Id) returns (e: RegistryError, job: Option<JobObject>)
      requires Valid()
      ensures e == (if id in jobs then Fine else NoSuchJob)
      ensures e == Fine ==> job == Some(jobs[id]) && job.value.id == id
      ensures e != Fine ==> job == None
    {
      if id !in jobs {
        return NoSuchJob, None;
      }
      return Fine, Some(jobs[id]);
    }

    method Delete(id: Id) returns (e: RegistryError)
      requires Valid()
      modifies this
      ensures Valid()
      ensures e == NoSuchJob <==> id !in old(jobs)
      ensures e == JobNotDone <==> id in old(jobs) && Active(old(jobs)[id].status)
      ensures e == Fine ==> id !in jobs && jobs == old(jobs) - {id}
      ensures e != Fine ==> jobs == old(jobs)
      ensures e != JobExistsError
    {
      if id !in jobs {
        return NoSuchJob;
      }
      if Active(jobs[id].status) {
        return JobNotDone;
      }
      jobs := jobs - {id};
      return Fine;
    }
  }
}

/**
 tmap (lib/vdsm/common/concurrent.py): the caller puts all values in a queue,
 starts the workers, and yields results as they come.  Values are named by their
 position, so position i stands for the i-th value put in the pending queue.
 */
module ParallelMap {
  import opened Collections

  /** Result(True, value) or Result(False, exception). */
  datatype Outcome<R> = Outcome(succeeded: bool, value: R)

  /** An outcome and the value it is for; the caller sees only the outcome. */
  datatype Answer<R> = Answer(i: nat, outcome: Outcome<R>)

  datatype Worker =
    | Polling          // about to take a value
    | Working(i: nat)  // calling func on the i-th value
    | Finished         // found the pending queue empty
    | Killed(i: nat)   // func raised something that is not an Exception

  datatype Fate =
    | Waiting             // in the pending queue
    | InHand(worker: nat) // being processed
    | Lost                // its worker was killed
    | Answered            // put in the results queue

  /**
   next: how many values were taken; toStart: workers not yet started; results:
   the results queue; yielded: what the caller got.  The history: begun lists the
   values func was called on, answers what the calls came to, as they ended.
   */
  datatype State<R> = State(
    next: nat, toStart: nat, workers: seq<Worker>, fates: seq<Fate>, results: seq<Answer<R>>,
    yielded: seq<Answer<R>>, begun: seq<nat>, answers: seq<Answer<R>>)

  ghost predicate Init<R>(n: nat, maxWorkers: nat, s: State<R>) {
    && s.next == 0 && s.toStart == Min(n, maxWorkers) && s.workers == [] && s.results == [] && s.yielded == []
    && s.begun == [] && s.answers == []
    && |s.fates| == n && forall i :: 0 <= i < n ==> s.fates[i] == Waiting
  }

  // --------------------------------------------------------------------- steps

  ghost predicate StartWorker<R>(s: State<R>, t: State<R>) {
    s.toStart > 0 && t == s.(toStart := s.toStart - 1, workers := s.workers + [Polling])
  }

  ghost predicate Take<R>(s: State<R>, t: State<R>, w: nat) {
    && w < |s.workers| && s.workers[w] == Polling && s.next < |s.fates|
    && t == s.(next := s.next + 1, workers := s.workers[w := Working(s.next)], fates := s.fates[s.next := InHand(w)],
               begun := s.begun + [s.next])
  }

  ghost predicate Quit<R>(s: State<R>, t: State<R>, w: nat) {
    && w < |s.workers| && s.workers[w] == Polling && s.next >= |s.fates|
    && t == s.(workers := s.workers[w := Finished])
  }

  /** The call ends with outcome o, which goes to the results queue. */
  ghost predicate Put<R>(s: State<R>, t: State<R>, w: nat, o: Outcome<R>) {
    && w < |s.workers| && s.workers[w].Working? && s.workers[w].i < |s.fates|
    && t == s.(workers := s.workers[w := Polling], fates := s.fates[s.workers[w].i := Answered],
               results := s.results + [Answer(s.workers[w].i, o)],
               answers := s.answers + [Answer(s.workers[w].i, o)])
  }

  ghost predicate Kill<R>(s: State<R>, t: State<R>, w: nat) {
    && w < |s.workers| && s.workers[w].Working? && s.workers[w].i < |s.fates|
    && t == s.(workers := s.workers[w := Killed(s.workers[w].i)], fates := s.fates[s.workers[w].i := Lost])
  }

  /** The caller yields once for every value, after starting all workers. */
  ghost predicate Yield<R>(s: State<R>, t: State<R>) {
    && s.toStart == 0 && |s.yielded| < |s.fates| && s.results != []
    && t == s.(results := s.results[1..], yielded := s.yielded + [s.results[0]])
  }

  ghost predicate WorkerStep<R(!new)>(s: State<R>, t: State<R>, w: nat) {
    Take(s, t, w) || Quit(s, t, w) || Kill(s, t, w) || exists o: Outcome<R> :: Put(s, t, w, o)
  }

  ghost predicate Next<R(!new)>(s: State<R>, t: State<R>) {
    StartWorker(s, t) || Yield(s, t) || exists w :: WorkerStep(s, t, w)
  }

  ghost predicate Run<R(!new)>(n: nat, maxWorkers: nat, trace: seq<State<R>>) {
    && trace != [] && Init(n, maxWorkers, trace[0])
    && forall i :: 0 < i < |trace| ==> Next(trace[i - 1], trace[i])
  }

  // ------------------------------------------------------------------ invariant

  /** The values that answers are for. */
  ghost function Places<R>(answers: seq<Answer<R>>): (s: seq<nat>)
    ensures |s| == |answers| && forall k :: 0 <= k < |s| ==> s[k] == answers[k].i
  {
    seq(|answers|, k requires 0 <= k < |answers| => answers[k].i)
  }

  /** A worker and the value it holds know each other. */
  ghost predicate HandsOk(workers: seq<Worker>, fates: seq<Fate>) {
    && (forall w :: 0 <= w < |workers| && workers[w].Working? ==>
          workers[w].i < |fates| && fates[workers[w].i] == InHand(w))
    && (forall i :: 0 <= i < |fates| && fates[i].InHand? ==>
          fates[i].worker < |workers| && workers[fates[i].worker] == Working(i))
    && (forall i :: 0 <= i < |fates| && fates[i].Lost? ==> Killed(i) in workers)
    && (forall w :: 0 <= w < |workers| && workers[w].Killed? ==>
          workers[w].i < |fates| && fates[workers[w].i] == Lost)
  }

  /** No value is answered twice, and exactly the answered ones have an answer. */
  ghost predicate AnswersOk<R>(fates: seq<Fate>, answers: seq<Answer<R>>) {
    && Distinct(Places(answers))
    && forall i :: i in Places(answers) <==> 0 <= i < |fates| && fates[i].Answered?
  }

  ghost predicate Inv<R>(n: nat, maxWorkers: nat, s: State<R>) {
    && |s.fates| == n && s.next <= n
    && (forall i :: 0 <= i < n ==> (s.fates[i].Waiting? <==> s.next <= i))
    && |s.workers| + s.toStart == Min(n, maxWorkers)
    && (Finished in s.workers ==> s.next == n)
    && HandsOk(s.workers, s.fates) && AnswersOk(s.fates, s.answers)
    && s.begun == Upto(s.next)
    && s.answers == s.yielded + s.results
  }

  lemma StartKeeps<R>(n: nat, m: nat, s: State<R>, t: State<R>)
    requires Inv(n, m, s) && StartWorker(s, t)
    ensures Inv(n, m, t)
  {
  }

  lemma Others(ws: seq<Worker>, w: nat, x: Worker)
    requires w < |ws| && (ws[w] == Polling || ws[w].Working?)
    ensures forall i: nat :: Killed(i) in ws ==> Killed(i) in ws[w := x]
    ensures Finished in ws[w := x] ==> Finished in ws || x == Finished
  {
    forall i: nat | Killed(i) in ws ensures Killed(i) in ws[w := x] {
      var v :| 0 <= v < |ws| && ws[v] == Killed(i);
      assert ws[w := x][v] == Killed(i);
    }
  }

  lemma TakeKeeps<R>(n: nat, m: nat, s: State<R>, t: State<R>, w: nat)
    requires Inv(n, m, s) && Take(s, t, w)
    ensures Inv(n, m, t)
  {
    Others(s.workers, w, Working(s.next));
  }

  lemma QuitKeeps<R>(n: nat, m: nat, s: State<R>, t: State<R>, w: nat)
    requires Inv(n, m, s) && Quit(s, t, w)
    ensures Inv(n, m, t)
  {
    Others(s.workers, w, Finished);
  }

  lemma OneMoreAnswer<R>(fates: seq<Fate>, answers: seq<Answer<R>>, i: nat, o: Outcome<R>)
    requires AnswersOk(fates, answers) && i < |fates| && !fates[i].Answered?
    ensures AnswersOk(fates[i := Answered], answers + [Answer(i, o)])
  {
    assert Places(answers + [Answer(i, o)]) == Places(answers) + [i];
    assert i !in Places(answers);
  }

  lemma PutKeeps<R>(n: nat, m: nat, s: State<R>, t: State<R>, w: nat, o: Outcome<R>)
    requires Inv(n, m, s) && Put(s, t, w, o)
    ensures Inv(n, m, t)
  {
    Others(s.workers, w, Polling);
    OneMoreAnswer(s.fates, s.answers, s.workers[w].i, o);
    hide AnswersOk;
    assert t.answers == t.yielded + t.results;
  }

  lemma KillKeeps<R>(n: nat, m: nat, s: State<R>, t: State<R>, w: nat)
    requires Inv(n, m, s) && Kill(s, t, w)
    ensures Inv(n, m, t)
  {
    Others(s.workers, w, Killed(s.workers[w].i));
    assert t.workers[w] == Killed(s.workers[w].i);
  }

  lemma YieldKeeps<R>(n: nat, m: nat, s: State<R>, t: State<R>)
    requires Inv(n, m, s) && Yield(s, t)
    ensures Inv(n, m, t)
  {
  }

  lemma NextKeeps<R(!new)>(n: nat, m: nat, s: State<R>, t: State<R>)
    requires Inv(n, m, s) && Next(s, t)
    ensures Inv(n, m, t)
  {
    hide Inv;
    if StartWorker(s, t) {
      StartKeeps(n, m, s, t);
    } else if Yield(s, t) {
      YieldKeeps(n, m, s, t);
    } else {
      var w :| WorkerStep(s, t, w);
      if Take(s, t, w) {
        TakeKeeps(n, m, s, t, w);
      } else if Quit(s, t, w) {
        QuitKeeps(n, m, s, t, w);
      } else if Kill(s, t, w) {
        KillKeeps(n, m, s, t, w);
      } else {
        var o: Outcome<R> :| Put(s, t, w, o);
        PutKeeps(n, m, s, t, w, o);
      }
    }
  }

  lemma {:induction false} RunInv<R(!new)>(n: nat, m: nat, trace: seq<State<R>>, k: nat)
    requires Run(n, m, trace) && k < |trace|
    ensures Inv(n, m, trace[k])
  {
    if k > 0 {
      RunInv(n, m, trace, k - 1);
      NextKeeps(n, m, trace[k - 1], trace[k]);
    }
  }

  // ------------------------------------------------------------------- progress

  /** What one more step costs; it bounds the length of every run. */
  ghost function Work<R>(s: State<R>): int {
    3 * s.toStart + 5 * (|s.fates| - s.next) + WorkersWork(s.workers) + |s.results|
  }

  ghost function WorkersWork(ws: seq<Worker>): nat {
    if ws == [] then 0
    else WorkersWork(ws[..|ws| - 1]) +
         (match ws[|ws| - 1] case Polling => 1 case Working(_) => 3 case _ => 0)
  }

  lemma {:induction false} WorkChanges(ws: seq<Worker>, w: nat, x: Worker)
    requires w < |ws|
    ensures WorkersWork(ws[w := x]) == WorkersWork(ws) - WorkersWork([ws[w]]) + WorkersWork([x])
  {
    var last := |ws| - 1;
    assert WorkersWork([ws[w]][..0]) == 0 && WorkersWork([x][..0]) == 0;
    if w == last {
      assert ws[w := x][..last] == ws[..last];
    } else {
      assert ws[w := x][..last] == ws[..last][w := x];
      WorkChanges(ws[..last], w, x);
    }
  }

  lemma OneWorker(x: Worker)
    ensures WorkersWork([x]) == match x case Polling => 1 case Working(_) => 3 case _ => 0
  {
  }

  lemma WorkerStepEnds<R(!new)>(s: State<R>, t: State<R>, w: nat)
    requires WorkerStep(s, t, w)
    ensures Work(t) < Work(s)
  {
    OneWorker(s.workers[w]);
    OneWorker(t.workers[w]);
    WorkChanges(s.workers, w, t.workers[w]);
    hide WorkersWork;
  }

  /** Every step uses some work up. */
  lemma {:induction false} StepsEnd<R(!new)>(n: nat, m: nat, s: State<R>, t: State<R>)
    requires Inv(n, m, s) && Next(s, t)
    ensures 0 <= Work(t) < Work(s)
  {
    NextKeeps(n, m, s, t);
    hide HandsOk, AnswersOk;
    if StartWorker(s, t) {
      assert t.workers[..|t.workers| - 1] == s.workers;
    } else if Yield(s, t) {
    } else {
      var w: nat :| WorkerStep(s, t, w);
      WorkerStepEnds(s, t, w);
    }
  }

  lemma {:induction false} WorkUsed<R(!new)>(n: nat, m: nat, trace: seq<State<R>>, k: nat)
    requires m >= 1 && Run(n, m, trace) && k < |trace|
    ensures 0 <= Work(trace[k]) && k + Work(trace[k]) <= Work(trace[0])
  {
    hide Work;
    RunInv(n, m, trace, k);
    if k == 0 {
      WorkAtStart(n, m, trace[0]);
    } else {
      WorkUsed(n, m, trace, k - 1);
      RunInv(n, m, trace, k - 1);
      StepsEnd(n, m, trace[k - 1], trace[k]);
    }
  }

  lemma WorkAtStart<R>(n: nat, m: nat, s: State<R>)
    requires Init(n, m, s)
    ensures 0 <= Work(s) <= 8 * n
  {
  }

  /** Under every schedule the whole map takes at most eight steps for each value. */
  lemma {:induction false} RunsAreShort<R(!new)>(n: nat, m: nat, trace: seq<State<R>>)
    requires m >= 1 && Run(n, m, trace)
    ensures |trace| - 1 <= 8 * n
  {
    hide Work;
    WorkUsed(n, m, trace, |trace| - 1);
    WorkAtStart(n, m, trace[0]);
  }

  /** Nobody can move: the caller waits for a result, or has all of them. */
  ghost predicate Stuck<R>(s: State<R>) {
    && s.toStart == 0
    && (forall w :: 0 <= w < |s.workers| ==> s.workers[w].Finished? || s.workers[w].Killed?)
    && (s.results == [] || |s.yielded| == |s.fates|)
  }

  lemma WorkerCanMove<R(!new)>(n: nat, m: nat, s: State<R>, w: nat, o: Outcome<R>)
    requires Inv(n, m, s) && w < |s.workers| && (s.workers[w].Polling? || s.workers[w].Working?)
    ensures exists t :: Next(s, t)
  {
    if s.workers[w].Working? {
      var i := s.workers[w].i;
      var t := s.(workers := s.workers[w := Polling], fates := s.fates[i := Answered],
                  results := s.results + [Answer(i, o)], answers := s.answers + [Answer(i, o)]);
      assert Put(s, t, w, o) && WorkerStep(s, t, w) && Next(s, t);
    } else if s.next < n {
      var t := s.(next := s.next + 1, workers := s.workers[w := Working(s.next)],
                  fates := s.fates[s.next := InHand(w)], begun := s.begun + [s.next]);
      assert Take(s, t, w) && WorkerStep(s, t, w) && Next(s, t);
    } else {
      var t := s.(workers := s.workers[w := Finished]);
      assert Quit(s, t, w) && WorkerStep(s, t, w) && Next(s, t);
    }
  }

  lemma AnswersBound<R>(n: nat, m: nat, s: State<R>)
    requires Inv(n, m, s)
    ensures |s.answers| == |s.yielded| + |s.results| <= n
    ensures |s.answers| == n <==> forall i: nat :: i < n ==> s.fates[i].Answered?
  {
    DistinctBound(Places(s.answers), n);
  }

  lemma YieldCanMove<R(!new)>(n: nat, m: nat, s: State<R>)
    requires Inv(n, m, s) && s.toStart == 0 && s.results != [] && |s.yielded| != n
    ensures exists t :: Next(s, t)
  {
    AnswersBound(n, m, s);
    var t := s.(results := s.results[1..], yielded := s.yielded + [s.results[0]]);
    assert Yield(s, t) && Next(s, t);
  }

  /** In every state of every run somebody can move, unless all is over. */
  lemma {:induction false} NeverStuckEarly<R(!new)>(n: nat, m: nat, trace: seq<State<R>>, k: nat, o: Outcome<R>)
    requires m >= 1 && Run(n, m, trace) && k < |trace|
    ensures Stuck(trace[k]) || exists t :: Next(trace[k], t)
  {
    RunInv(n, m, trace, k);
    var s := trace[k];
    if s.toStart > 0 {
      var t := s.(toStart := s.toStart - 1, workers := s.workers + [Polling]);
      assert StartWorker(s, t) && Next(s, t);
    } else if w :| 0 <= w < |s.workers| && !s.workers[w].Finished? && !s.workers[w].Killed? {
      WorkerCanMove(n, m, s, w, o);
    } else if !Stuck(s) {
      YieldCanMove(n, m, s);
    }
  }

  // ------------------------------------------------------------------- outcomes

  /**
   In every state: at most min(n, max_workers) workers; func was called once on
   each value taken, in order, and on no other; no value is with two workers;
   every value has at most one answer, to a call that was made; and what the
   caller got, followed by the results queue, is those answers in the order in
   which the calls ended.
   */
  lemma {:induction false} MapSafe<R(!new)>(n: nat, m: nat, trace: seq<State<R>>, k: nat)
    requires m >= 1 && Run(n, m, trace) && k < |trace|
    ensures var s := trace[k];
            && |s.workers| <= Min(n, m)
            && s.begun == Upto(s.next) && s.next <= n
            && (forall v, w :: 0 <= v < w < |s.workers| && s.workers[v].Working? && s.workers[w].Working? ==>
                  s.workers[v].i != s.workers[w].i)
            && Distinct(Places(s.answers)) && (forall i :: i in Places(s.answers) ==> i in s.begun)
            && s.yielded + s.results == s.answers
  {
    RunInv(n, m, trace, k);
  }

  /** Two steps of a run never take the same value. */
  lemma {:induction false} TakenOnce<R(!new)>(n: nat, m: nat, trace: seq<State<R>>, j: nat, k: nat, v: nat, w: nat)
    requires Run(n, m, trace) && j < k < |trace| - 1
    requires Take(trace[j], trace[j + 1], v) && Take(trace[k], trace[k + 1], w)
    ensures trace[j].next < trace[k].next
  {
    NextGrows(n, m, trace, j + 1, k);
  }

  lemma {:induction false} NextGrows<R(!new)>(n: nat, m: nat, trace: seq<State<R>>, j: nat, k: nat)
    requires Run(n, m, trace) && j <= k < |trace|
    ensures trace[j].next <= trace[k].next
    decreases k
  {
    if j < k {
      NextGrows(n, m, trace, j, k - 1);
      assert Next(trace[k - 1], trace[k]);
    }
  }

  /**
   Once nobody can move, the caller has a result for every value exactly when
   no worker was killed; and then it got exactly the answers of the n calls, one
   for each value.
   */
  lemma {:induction false} AllYieldedIff<R(!new)>(n: nat, m: nat, trace: seq<State<R>>, k: nat)
    requires m >= 1 && Run(n, m, trace) && k < |trace| && Stuck(trace[k])
    ensures var s := trace[k];
            && (|s.yielded| == n <==> forall w :: 0 <= w < |s.workers| ==> !s.workers[w].Killed?)
            && (|s.yielded| == n ==> s.yielded == s.answers && multiset(Places(s.yielded)) == multiset(Upto(n)))
  {
    RunInv(n, m, trace, k);
    var s := trace[k];
    AnswersBound(n, m, s);
    if w :| 0 <= w < |s.workers| && s.workers[w].Killed? {
      assert !s.fates[s.workers[w].i].Answered?;
    } else {
      EverythingAnswered(n, m, s);
      assert s.yielded + [] == s.yielded;
      DistinctPermutes(Places(s.answers), n);
    }
  }

  lemma EverythingAnswered<R>(n: nat, m: nat, s: State<R>)
    requires m >= 1 && Inv(n, m, s) && Stuck(s) && forall w :: 0 <= w < |s.workers| ==> !s.workers[w].Killed?
    ensures |s.answers| == n && s.results == []
  {
    AnswersBound(n, m, s);
    if n > 0 {
      assert s.workers[0] == Finished;
      forall i: nat | i < n ensures s.fates[i].Answered? {
        assert !s.fates[i].Waiting? && !s.fates[i].Lost?;
      }
    }
  }

  ghost function Outcomes<R>(answers: seq<Answer<R>>): (r: seq<Outcome<R>>)
    ensures |r| == |answers| && forall k :: 0 <= k < |r| ==> r[k] == answers[k].outcome
  {
    seq(|answers|, k requires 0 <= k < |answers| => answers[k].outcome)
  }

  /**
   tmap yields the multiset of the outcomes: when nobody can move and nobody was
   killed, and the call on value i came to f(i), the caller got f(0), ..., f(n - 1)
   in some order, exceptions included.
   */
  lemma {:induction false} YieldsAllOutcomes<R(!new)>(n: nat, m: nat, trace: seq<State<R>>, k: nat,
                                                      f: nat -> Outcome<R>)
    requires m >= 1 && Run(n, m, trace) && k < |trace| && Stuck(trace[k])
    requires forall w :: 0 <= w < |trace[k].workers| ==> !trace[k].workers[w].Killed?
    requires forall a :: a in trace[k].answers ==> a.outcome == f(a.i)
    ensures multiset(Outcomes(trace[k].yielded)) == multiset(Image(Upto(n), f))
  {
    AllYieldedIff(n, m, trace, k);
    var got := trace[k].yielded;
    ImagePermutes(Places(got), Upto(n), f);
    assert Outcomes(got) == Image(Places(got), f) by {
      assert forall j :: 0 <= j < |got| ==> got[j] in trace[k].answers;
    }
  }

  /** Such an f always exists: no value has two answers. */
  lemma {:induction false} AnswersAgree<R(!new)>(n: nat, m: nat, trace: seq<State<R>>, k: nat,
                                                 a: Answer<R>, b: Answer<R>)
    requires m >= 1 && Run(n, m, trace) && k < |trace| && a in trace[k].answers && b in trace[k].answers && a.i == b.i
    ensures a == b
  {
    MapSafe(n, m, trace, k);
    var s := trace[k];
    var i :| 0 <= i < |s.answers| && s.answers[i] == a;
    var j :| 0 <= j < |s.answers| && s.answers[j] == b;
    assert Places(s.answers)[i] == Places(s.answers)[j];
  }
}

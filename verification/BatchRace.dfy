/**
 Completions of a batch that interleave (lib/yajsonrpc/__init__.py): requestDone
 takes no lock, so its steps, deleting the request, appending the response,
 collecting the reply and handing it to the client, may be separated by those
 of other completions.
 */
module BatchRace {
  import opened BatchContext
  import opened Collections
  import opened Options

  /** How far a completion has come. */
  datatype Stage =
    | Ready
    | Deleted
    | Appended
    | Collected(reply: Reply) // found no open call, about to send
    | Finished

  /** The context, the completions, and the order in which they appended. */
  datatype Race = Race(c: Context, stages: seq<Stage>, order: seq<nat>)

  function Started(c: Context, answers: seq<Response>): Race {
    Race(c, seq(|answers|, _ => Ready), [])
  }

  /** The next step of completion j; with atomic sends, collecting and sending are one step. */
  function Step(r: Race, answers: seq<Response>, atomic: bool, j: nat): Race {
    if j >= |r.stages| || j >= |answers| then r
    else match r.stages[j]
      case Ready => Race(Delete(r.c, answers[j].id), r.stages[j := Deleted], r.order)
      case Deleted => Race(AddResponse(r.c, answers[j]), r.stages[j := Appended], r.order + [j])
      case Appended =>
        if r.c.requests != {} then r.(stages := r.stages[j := Finished])
        else if atomic then r.(c := SendReply(r.c), stages := r.stages[j := Finished])
        else r.(stages := r.stages[j := Collected(Encode(r.c.responses))])
      case Collected(reply) => r.(c := r.c.(sent := r.c.sent + [reply]), stages := r.stages[j := Finished])
      case Finished => r
  }

  /** The completions named in the schedule move, one step each time. */
  function Steps(r: Race, answers: seq<Response>, atomic: bool, schedule: seq<nat>): Race {
    if schedule == [] then r
    else Step(Steps(r, answers, atomic, schedule[..|schedule| - 1]), answers, atomic, schedule[|schedule| - 1])
  }

  predicate Over(r: Race) { forall j :: 0 <= j < |r.stages| ==> r.stages[j] == Finished }

  lemma {:induction false} StepsAppend(r: Race, answers: seq<Response>, atomic: bool, a: seq<nat>, b: seq<nat>)
    ensures Steps(r, answers, atomic, a + b) == Steps(Steps(r, answers, atomic, a), answers, atomic, b)
  {
    if b == [] {
      assert a + b == a;
    } else {
      var n := |b| - 1;
      StepsAppend(r, answers, atomic, a, b[..n]);
      assert (a + b)[..|a + b| - 1] == a + b[..n];
    }
  }

  // ------------------------------------------------------------------ invariant

  function Pick(answers: seq<Response>, order: seq<nat>): seq<Response> {
    if order == [] then []
    else
      Pick(answers, order[..|order| - 1]) +
      if order[|order| - 1] < |answers| then [answers[order[|order| - 1]]] else []
  }

  predicate HasAppended(s: Stage) { s.Appended? || s.Collected? || s.Finished? }

  /** The responses are the errors and the appended answers, each once. */
  ghost predicate ResponsesOk(r: Race, errors: seq<Response>, answers: seq<Response>) {
    && r.c.responses == errors + Pick(answers, r.order)
    && Distinct(r.order)
    && forall j :: j in r.order <==> 0 <= j < |r.stages| && HasAppended(r.stages[j])
  }

  /** A call is open only while every completion of it is ready. */
  ghost predicate OpenOk(calls: set<Id>, r: Race, answers: seq<Response>) {
    forall id :: id in r.c.requests ==>
      && id in calls
      && forall j :: 0 <= j < |r.stages| && j < |answers| && r.stages[j] != Ready ==> answers[j].id != Some(id)
  }

  ghost predicate Inv(calls: set<Id>, errors: seq<Response>, answers: seq<Response>, r: Race) {
    |r.stages| == |answers| && ResponsesOk(r, errors, answers) && OpenOk(calls, r, answers)
  }

  lemma StepOpen(calls: set<Id>, r: Race, answers: seq<Response>, atomic: bool, j: nat)
    requires |r.stages| == |answers| && OpenOk(calls, r, answers)
    ensures OpenOk(calls, Step(r, answers, atomic, j), answers)
  {
  }

  lemma StepResponses(r: Race, errors: seq<Response>, answers: seq<Response>, atomic: bool, j: nat)
    requires |r.stages| == |answers| && ResponsesOk(r, errors, answers)
    ensures ResponsesOk(Step(r, answers, atomic, j), errors, answers)
  {
    if j < |r.stages| && r.stages[j] == Deleted {
      AppendResponse(r, errors, answers, j);
    }
  }

  lemma AppendResponse(r: Race, errors: seq<Response>, answers: seq<Response>, j: nat)
    requires |r.stages| == |answers| && ResponsesOk(r, errors, answers) && j < |r.stages| && r.stages[j] == Deleted
    ensures ResponsesOk(Race(AddResponse(r.c, answers[j]), r.stages[j := Appended], r.order + [j]), errors, answers)
  {
    var order := r.order + [j];
    assert order[..|r.order|] == r.order;
    assert errors + Pick(answers, order) == errors + Pick(answers, r.order) + [answers[j]];
    assert j !in r.order;
  }

  lemma {:induction false} StepsInv(calls: set<Id>, errors: seq<Response>, answers: seq<Response>, r: Race,
                                    atomic: bool, schedule: seq<nat>)
    requires Inv(calls, errors, answers, r)
    ensures Inv(calls, errors, answers, Steps(r, answers, atomic, schedule))
  {
    if schedule != [] {
      hide Step, ResponsesOk, OpenOk;
      var n := |schedule| - 1;
      var before := Steps(r, answers, atomic, schedule[..n]);
      StepsInv(calls, errors, answers, r, atomic, schedule[..n]);
      StepResponses(before, errors, answers, atomic, schedule[n]);
      StepOpen(calls, before, answers, atomic, schedule[n]);
      StepStages(before, answers, atomic, schedule[n]);
    }
  }

  lemma StepStages(r: Race, answers: seq<Response>, atomic: bool, j: nat)
    ensures |Step(r, answers, atomic, j).stages| == |r.stages|
    ensures r.c.sent <= Step(r, answers, atomic, j).c.sent
    ensures forall i :: 0 <= i < |r.stages| && i != j ==> Step(r, answers, atomic, j).stages[i] == r.stages[i]
  {
  }

  lemma {:induction false} SentGrows(r: Race, answers: seq<Response>, atomic: bool, schedule: seq<nat>)
    ensures r.c.sent <= Steps(r, answers, atomic, schedule).c.sent
  {
    if schedule != [] {
      hide Step;
      SentGrows(r, answers, atomic, schedule[..|schedule| - 1]);
      StepStages(Steps(r, answers, atomic, schedule[..|schedule| - 1]), answers, atomic, schedule[|schedule| - 1]);
    }
  }

  lemma StartInv(c: Context, answers: seq<Response>)
    ensures Inv(c.requests, c.responses, answers, Started(c, answers))
  {
    assert c.responses + [] == c.responses;
  }

  /** Once nobody is ready and every call has a completion, no call is open. */
  lemma NothingOpen(calls: set<Id>, errors: seq<Response>, answers: seq<Response>, r: Race)
    requires Inv(calls, errors, answers, r) && Covered(calls, answers)
    requires forall j :: 0 <= j < |r.stages| ==> r.stages[j] != Ready
    ensures r.c.requests == {}
  {
    forall id | id in calls ensures id !in r.c.requests {
      var j :| 0 <= j < |answers| && answers[j].id == Some(id);
      assert r.stages[j] != Ready;
    }
  }

  // ------------------------------------------------------- everything is answered

  /** The reply is still to be sent, or has been. */
  predicate Under(r: Race, reply: Reply) {
    reply in r.c.sent || Collected(reply) in r.stages
  }

  predicate Waited(s: Stage) { s.Collected? || s.Finished? }

  /** Whoever collects last collects everything. */
  ghost predicate SomeComplete(r: Race) {
    r.stages != [] && (forall j :: 0 <= j < |r.stages| ==> Waited(r.stages[j])) ==> Under(r, Encode(r.c.responses))
  }

  lemma StepComplete(calls: set<Id>, errors: seq<Response>, answers: seq<Response>, r: Race, atomic: bool, j: nat)
    requires Inv(calls, errors, answers, r) && Covered(calls, answers) && SomeComplete(r)
    ensures SomeComplete(Step(r, answers, atomic, j))
  {
    var t := Step(r, answers, atomic, j);
    if t.stages != [] && (forall i :: 0 <= i < |t.stages| ==> Waited(t.stages[i])) && j < |r.stages| {
      StepStages(r, answers, atomic, j);
      assert Waited(t.stages[j]);
      if r.stages[j].Appended? {
        NothingOpen(calls, errors, answers, r);
        assert atomic ==> t.c.sent[|t.c.sent| - 1] == Encode(t.c.responses);
        assert !atomic ==> t.stages[j] == Collected(Encode(t.c.responses));
      } else {
        StillUnder(r, answers, atomic, j);
      }
    }
  }

  lemma StillUnder(r: Race, answers: seq<Response>, atomic: bool, j: nat)
    requires j < |r.stages| == |answers| && Waited(r.stages[j]) && Under(r, Encode(r.c.responses))
    ensures Under(Step(r, answers, atomic, j), Encode(r.c.responses))
  {
    var reply, t := Encode(r.c.responses), Step(r, answers, atomic, j);
    if r.stages[j] == Collected(reply) {
      assert t.c.sent[|r.c.sent|] == reply;
    } else if reply !in r.c.sent {
      var i :| 0 <= i < |r.stages| && r.stages[i] == Collected(reply);
      assert t.stages[i] == Collected(reply);
    }
  }

  lemma {:induction false} StepsComplete(calls: set<Id>, errors: seq<Response>, answers: seq<Response>, r: Race,
                                         atomic: bool, schedule: seq<nat>)
    requires Inv(calls, errors, answers, r) && Covered(calls, answers) && SomeComplete(r)
    ensures SomeComplete(Steps(r, answers, atomic, schedule))
  {
    if schedule != [] {
      hide Step, Inv, SomeComplete;
      var n := |schedule| - 1;
      StepsComplete(calls, errors, answers, r, atomic, schedule[..n]);
      StepsInv(calls, errors, answers, r, atomic, schedule[..n]);
      StepComplete(calls, errors, answers, Steps(r, answers, atomic, schedule[..n]), atomic, schedule[n]);
    }
  }

  /** With atomic sends, whoever sends last sends everything. */
  ghost predicate LastComplete(r: Race) {
    r.stages != [] && Over(r) ==> r.c.sent != [] && r.c.sent[|r.c.sent| - 1] == Encode(r.c.responses)
  }

  lemma StepLast(calls: set<Id>, errors: seq<Response>, answers: seq<Response>, r: Race, j: nat)
    requires Inv(calls, errors, answers, r) && Covered(calls, answers) && LastComplete(r)
    requires forall i :: 0 <= i < |r.stages| ==> !r.stages[i].Collected?
    ensures LastComplete(Step(r, answers, true, j))
    ensures var t := Step(r, answers, true, j); forall i :: 0 <= i < |t.stages| ==> !t.stages[i].Collected?
  {
    var t := Step(r, answers, true, j);
    StepStages(r, answers, true, j);
    if t.stages != [] && Over(t) && j < |r.stages| {
      if r.stages[j].Appended? {
        NothingOpen(calls, errors, answers, r);
        assert t.c.sent == r.c.sent + [Encode(r.c.responses)];
      } else {
        assert t.stages[j] == Finished;
        assert t == r;
      }
    }
  }

  lemma {:induction false} StepsLast(calls: set<Id>, errors: seq<Response>, answers: seq<Response>, r: Race,
                                     schedule: seq<nat>)
    requires Inv(calls, errors, answers, r) && Covered(calls, answers) && LastComplete(r)
    requires forall i :: 0 <= i < |r.stages| ==> !r.stages[i].Collected?
    ensures LastComplete(Steps(r, answers, true, schedule))
    ensures var t := Steps(r, answers, true, schedule); forall i :: 0 <= i < |t.stages| ==> !t.stages[i].Collected?
  {
    if schedule != [] {
      hide Step, Inv, LastComplete;
      var n := |schedule| - 1;
      StepsLast(calls, errors, answers, r, schedule[..n]);
      StepsInv(calls, errors, answers, r, true, schedule[..n]);
      StepLast(calls, errors, answers, Steps(r, answers, true, schedule[..n]), schedule[n]);
    }
  }

  /** All answers, appended in any order, are all answers. */
  lemma {:induction false} PickAll(answers: seq<Response>, order: seq<nat>)
    requires Distinct(order) && |order| == |answers| && forall j :: j in order ==> j < |answers|
    ensures multiset(Pick(answers, order)) == multiset(answers)
  {
    if answers == [] {
      assert Pick(answers, order) == [];
    } else {
      var f := (j: nat) => if j < |answers| then answers[j] else answers[0];
      PickIsImage(answers, order, f);
      DistinctPermutes(order, |answers|);
      ImagePermutes(order, Upto(|answers|), f);
      assert Image(Upto(|answers|), f) == answers;
    }
  }

  lemma {:induction false} PickIsImage(answers: seq<Response>, order: seq<nat>, f: nat -> Response)
    requires forall j :: j in order ==> j < |answers| && f(j) == answers[j]
    ensures Pick(answers, order) == Image(order, f)
  {
    if order != [] {
      var n := |order| - 1;
      assert forall j :: j in order[..n] ==> j in order;
      assert order[n] in order;
      PickIsImage(answers, order[..n], f);
      assert Image(order, f) == Image(order[..n], f) + [f(order[n])];
    }
  }

  lemma OverResponses(calls: set<Id>, errors: seq<Response>, answers: seq<Response>, r: Race)
    requires Inv(calls, errors, answers, r) && Over(r)
    ensures multiset(r.c.responses) == multiset(errors) + multiset(answers)
  {
    assert forall j :: j in r.order ==> j < |answers|;
    forall x: nat | x < |answers| ensures x in r.order {
      assert HasAppended(r.stages[x]);
    }
    DistinctBound(r.order, |answers|);
    PickAll(answers, r.order);
  }

  // -------------------------------------------------------------------- theorems

  /** The run of all completions of a message under a schedule. */
  function Raced(m: Message, answers: seq<Response>, atomic: bool, schedule: seq<nat>): Race {
    Steps(Started(Parsed(m), answers), answers, atomic, schedule)
  }

  /** The reply holds one response per malformed item and one per completion. */
  ghost predicate Complete(m: Message, answers: seq<Response>, reply: Reply) {
    exists rs :: reply == Encode(rs) && multiset(rs) == multiset(Repeat(Errors(ItemsOf(m)))) + multiset(answers)
  }

  lemma RaceStart(m: Message, k: nat, answers: seq<Response>)
    requires Calls(ItemsOf(m)) != [] && AnyOrder(Calls(ItemsOf(m)), k, answers)
    ensures Parsed(m).sent == [] && Parsed(m).requests == Elements(Calls(ItemsOf(m)))
    ensures Parsed(m).responses == Repeat(Errors(ItemsOf(m)))
    ensures Covered(Parsed(m).requests, answers) && answers != []
    ensures Inv(Parsed(m).requests, Parsed(m).responses, answers, Started(Parsed(m), answers))
  {
    ParsedWithCalls(m);
    AllCovered(Calls(ItemsOf(m)), k, answers);
    SameLength(Calls(ItemsOf(m)), k, answers);
    StartInv(Parsed(m), answers);
  }

  /**
   In every interleaving of the completions of a message with a call, some message
   holds every response once.  If collecting and sending are not separated, the
   last message does.
   */
  lemma {:induction false} RaceAnswersAll(m: Message, k: nat, answers: seq<Response>, atomic: bool, schedule: seq<nat>)
    requires Calls(ItemsOf(m)) != [] && AnyOrder(Calls(ItemsOf(m)), k, answers)
    requires Over(Raced(m, answers, atomic, schedule))
    ensures var sent := Raced(m, answers, atomic, schedule).c.sent;
            && (exists i :: 0 <= i < |sent| && Complete(m, answers, sent[i]))
            && (atomic ==> sent != [] && Complete(m, answers, sent[|sent| - 1]))
  {
    RaceInv(m, k, answers, atomic, schedule);
    hide Inv, Steps, Parsed, Complete;
    var end := Raced(m, answers, atomic, schedule);
    OverIsComplete(m, answers, end);
    assert Under(end, Encode(end.c.responses));
  }

  lemma RaceInv(m: Message, k: nat, answers: seq<Response>, atomic: bool, schedule: seq<nat>)
    requires Calls(ItemsOf(m)) != [] && AnyOrder(Calls(ItemsOf(m)), k, answers)
    ensures var end := Raced(m, answers, atomic, schedule);
            && answers != [] && Inv(Parsed(m).requests, Repeat(Errors(ItemsOf(m))), answers, end)
            && SomeComplete(end) && (atomic ==> LastComplete(end))
  {
    RaceStart(m, k, answers);
    var c := Parsed(m);
    var start := Started(c, answers);
    assert SomeComplete(start) && LastComplete(start);
    hide Inv, Covered, Steps, Parsed, SomeComplete, LastComplete;
    StepsInv(c.requests, c.responses, answers, start, atomic, schedule);
    StepsComplete(c.requests, c.responses, answers, start, atomic, schedule);
    if atomic {
      StepsLast(c.requests, c.responses, answers, start, schedule);
    }
  }

  lemma OverIsComplete(m: Message, answers: seq<Response>, r: Race)
    requires Inv(Parsed(m).requests, Repeat(Errors(ItemsOf(m))), answers, r) && Over(r)
    ensures Complete(m, answers, Encode(r.c.responses))
  {
    OverResponses(Parsed(m).requests, Repeat(Errors(ItemsOf(m))), answers, r);
  }

  // ------------------------------------------------------------- schedules exist

  function Rank(s: Stage): nat {
    match s case Ready => 4 case Deleted => 3 case Appended => 2 case Collected(_) => 1 case Finished => 0
  }

  function Ranks(stages: seq<Stage>): nat {
    if stages == [] then 0 else Ranks(stages[..|stages| - 1]) + Rank(stages[|stages| - 1])
  }

  lemma {:induction false} RanksChange(stages: seq<Stage>, j: nat, s: Stage)
    requires j < |stages|
    ensures Ranks(stages[j := s]) == Ranks(stages) - Rank(stages[j]) + Rank(s)
  {
    var n := |stages| - 1;
    if j == n {
      assert stages[j := s][..n] == stages[..n];
    } else {
      assert stages[j := s][..n] == stages[..n][j := s];
      RanksChange(stages[..n], j, s);
    }
  }

  lemma StepLowersRank(r: Race, answers: seq<Response>, atomic: bool, j: nat)
    requires j < |r.stages| == |answers| && r.stages[j] != Finished
    ensures Ranks(Step(r, answers, atomic, j).stages) < Ranks(r.stages)
  {
    var t := Step(r, answers, atomic, j);
    RanksChange(r.stages, j, t.stages[j]);
    assert t.stages == r.stages[j := t.stages[j]];
  }

  /** Everybody but the held ones can run to the end. */
  lemma {:induction false} Finishing(r: Race, answers: seq<Response>, atomic: bool, held: set<nat>)
    returns (schedule: seq<nat>)
    requires |r.stages| == |answers|
    ensures var t := Steps(r, answers, atomic, schedule);
            |t.stages| == |answers| &&
            forall j :: 0 <= j < |t.stages| ==> t.stages[j] == if j in held then r.stages[j] else Finished
    decreases Ranks(r.stages)
  {
    if j: nat :| j < |r.stages| && j !in held && r.stages[j] != Finished {
      hide Ranks;
      StepLowersRank(r, answers, atomic, j);
      StepStages(r, answers, atomic, j);
      var t := Step(r, answers, atomic, j);
      var rest := Finishing(t, answers, atomic, held);
      schedule := [j] + rest;
      StepsAppend(r, answers, atomic, [j], rest);
      OneStep(r, answers, atomic, j);
    } else {
      schedule := [];
    }
  }

  lemma OneStep(r: Race, answers: seq<Response>, atomic: bool, j: nat)
    ensures Steps(r, answers, atomic, [j]) == Step(r, answers, atomic, j)
  {
    assert [j][..0] == [];
  }

  lemma DeleteStep(r: Race, answers: seq<Response>, atomic: bool, j: nat)
    requires j < |r.stages| == |answers| && r.stages[j] == Ready
    ensures var t := Step(r, answers, atomic, j);
            && t.c.sent == r.c.sent && t.c.responses == r.c.responses && t.stages == r.stages[j := Deleted]
  {
  }

  predicate FirstDeleted(stages: seq<Stage>, n: nat) {
    forall j :: 0 <= j < |stages| ==> stages[j] == if j < n then Deleted else Ready
  }

  /** One step of each of the first n completions. */
  function OneEach(n: nat): seq<nat> {
    if n == 0 then [] else OneEach(n - 1) + [n - 1]
  }

  /** All completions delete before anybody appends. */
  lemma {:induction false} AllDelete(c: Context, answers: seq<Response>, atomic: bool, n: nat)
    requires n <= |answers|
    ensures var t := Steps(Started(c, answers), answers, atomic, OneEach(n));
            && t.c.sent == c.sent && t.c.responses == c.responses
            && |t.stages| == |answers| && FirstDeleted(t.stages, n)
  {
    if n > 0 {
      var r := Steps(Started(c, answers), answers, atomic, OneEach(n - 1));
      AllDelete(c, answers, atomic, n - 1);
      assert FirstDeleted(r.stages[n - 1 := Deleted], n);
      DeleteStep(r, answers, atomic, n - 1);
      hide Step, Steps, Started, FirstDeleted;
      StepsAppend(Started(c, answers), answers, atomic, OneEach(n - 1), [n - 1]);
      OneStep(r, answers, atomic, n - 1);
    }
  }

  // ---------------------------------------------------------- counting messages

  function Unfinished(stages: seq<Stage>): nat {
    if stages == [] then 0
    else Unfinished(stages[..|stages| - 1]) + if stages[|stages| - 1] == Finished then 0 else 1
  }

  lemma {:induction false} UnfinishedChange(stages: seq<Stage>, j: nat, s: Stage)
    requires j < |stages|
    ensures Unfinished(stages[j := s]) ==
            Unfinished(stages) - (if stages[j] == Finished then 0 else 1) + (if s == Finished then 0 else 1)
  {
    var n := |stages| - 1;
    if j == n {
      assert stages[j := s][..n] == stages[..n];
    } else {
      assert stages[j := s][..n] == stages[..n][j := s];
      UnfinishedChange(stages[..n], j, s);
    }
  }

  lemma {:induction false} UnfinishedIs(stages: seq<Stage>)
    ensures (forall j :: 0 <= j < |stages| ==> stages[j] == Finished) ==> Unfinished(stages) == 0
    ensures (forall j :: 0 <= j < |stages| ==> stages[j] != Finished) ==> Unfinished(stages) == |stages|
  {
    if stages != [] {
      UnfinishedIs(stages[..|stages| - 1]);
    }
  }

  /** While no call is open, every completion that ends has sent a message. */
  lemma StepCounts(r: Race, answers: seq<Response>, atomic: bool, j: nat)
    requires r.c.requests == {} && |r.stages| == |answers|
    ensures var t := Step(r, answers, atomic, j);
            t.c.requests == {} && |t.c.sent| + Unfinished(t.stages) == |r.c.sent| + Unfinished(r.stages)
  {
    var t := Step(r, answers, atomic, j);
    if j < |r.stages| {
      UnfinishedChange(r.stages, j, t.stages[j]);
      hide Unfinished;
      assert t.stages == r.stages[j := t.stages[j]];
    }
  }

  lemma {:induction false} StepsCount(r: Race, answers: seq<Response>, atomic: bool, schedule: seq<nat>)
    requires r.c.requests == {} && |r.stages| == |answers|
    ensures var t := Steps(r, answers, atomic, schedule);
            && t.c.requests == {} && |t.stages| == |answers|
            && |t.c.sent| + Unfinished(t.stages) == |r.c.sent| + Unfinished(r.stages)
  {
    if schedule != [] {
      hide Step, Unfinished;
      var n := |schedule| - 1;
      StepsCount(r, answers, atomic, schedule[..n]);
      StepCounts(Steps(r, answers, atomic, schedule[..n]), answers, atomic, schedule[n]);
      StepStages(Steps(r, answers, atomic, schedule[..n]), answers, atomic, schedule[n]);
    }
  }

  /** What the first message holds if the first completion does not wait for the others. */
  function Partial(m: Message, answers: seq<Response>): Reply
    requires answers != []
  {
    Encode(Repeat(Errors(ItemsOf(m))) + [answers[0]])
  }

  lemma DeletedState(m: Message, k: nat, answers: seq<Response>, atomic: bool)
    requires Calls(ItemsOf(m)) != [] && AnyOrder(Calls(ItemsOf(m)), k, answers)
    ensures answers != []
    ensures var t := Raced(m, answers, atomic, OneEach(|answers|));
            && |t.stages| == |answers| && t.c.requests == {} && t.c.sent == []
            && t.c.responses == Repeat(Errors(ItemsOf(m)))
            && forall j :: 0 <= j < |answers| ==> t.stages[j] == Deleted
  {
    RaceStart(m, k, answers);
    var c, n := Parsed(m), |answers|;
    hide Steps, Inv, Covered, Started, Parsed;
    AllDelete(c, answers, atomic, n);
    StepsInv(c.requests, c.responses, answers, Started(c, answers), atomic, OneEach(n));
    NothingOpen(c.requests, c.responses, answers, Raced(m, answers, atomic, OneEach(n)));
  }

  /** All delete, then the first appends and collects, or sends. */
  function Opening(n: nat): seq<nat> { OneEach(n) + [0, 0] }

  lemma TwoSteps(r: Race, answers: seq<Response>, atomic: bool, j: nat)
    ensures Steps(r, answers, atomic, [j, j]) == Step(Step(r, answers, atomic, j), answers, atomic, j)
  {
    assert [j, j][..1] == [j];
    OneStep(r, answers, atomic, j);
  }

  lemma OpeningState(m: Message, k: nat, answers: seq<Response>, atomic: bool)
    requires Calls(ItemsOf(m)) != [] && AnyOrder(Calls(ItemsOf(m)), k, answers)
    ensures answers != []
    ensures var t := Raced(m, answers, atomic, Opening(|answers|));
            && |t.stages| == |answers| && t.c.requests == {}
            && (forall j :: 1 <= j < |answers| ==> t.stages[j] == Deleted)
            && t.c.sent == (if atomic then [Partial(m, answers)] else [])
            && t.stages[0] == (if atomic then Finished else Collected(Partial(m, answers)))
  {
    DeletedState(m, k, answers, atomic);
    var start := Started(Parsed(m), answers);
    var r := Raced(m, answers, atomic, OneEach(|answers|));
    hide Steps, Started, Parsed, Calls, ItemsOf, AnyOrder;
    StepsAppend(start, answers, atomic, OneEach(|answers|), [0, 0]);
    TwoSteps(r, answers, atomic, 0);
  }

  /**
   With two answers or more, some interleaving sends a message for every answer,
   and the first message holds the errors and one answer only.
   */
  lemma {:induction false} RaceSendsMany(m: Message, k: nat, answers: seq<Response>, atomic: bool)
    returns (schedule: seq<nat>)
    requires Calls(ItemsOf(m)) != [] && AnyOrder(Calls(ItemsOf(m)), k, answers)
    ensures answers != [] && Over(Raced(m, answers, atomic, schedule))
    ensures |Raced(m, answers, atomic, schedule).c.sent| == |answers|
    ensures Raced(m, answers, atomic, schedule).c.sent[0] == Partial(m, answers)
  {
    OpeningState(m, k, answers, atomic);
    var start := Started(Parsed(m), answers);
    var opening := Opening(|answers|) + [0];
    StepsAppend(start, answers, atomic, Opening(|answers|), [0]);
    OneStep(Raced(m, answers, atomic, Opening(|answers|)), answers, atomic, 0);
    var t := Raced(m, answers, atomic, opening);
    assert t.c.sent == [Partial(m, answers)];
    hide Steps, Opening, Started, Parsed, Calls, ItemsOf, AnyOrder, Partial;
    var rest := Finishing(t, answers, atomic, {});
    schedule := opening + rest;
    StepsAppend(start, answers, atomic, opening, rest);
    StepsCount(t, answers, atomic, rest);
    SentGrows(t, answers, atomic, rest);
    var end := Steps(t, answers, atomic, rest);
    UnfinishedIs(end.stages);
    OneFinished(t.stages);
  }

  lemma OneFinished(stages: seq<Stage>)
    requires stages != [] && stages[0] == Finished
    requires forall j :: 1 <= j < |stages| ==> stages[j] != Finished
    ensures Unfinished(stages) == |stages| - 1
  {
    var all := stages[0 := Ready];
    UnfinishedIs(all);
    UnfinishedChange(all, 0, Finished);
    assert all[0 := Finished] == stages;
  }

  /** A single completion of the only call sends one message under every schedule. */
  lemma {:induction false} SoleCompletion(m: Message, answers: seq<Response>, atomic: bool, schedule: seq<nat>)
    requires |Calls(ItemsOf(m))| == 1 && AnyOrder(Calls(ItemsOf(m)), 0, answers)
    ensures var t := Raced(m, answers, atomic, schedule);
            |t.stages| == 1 && |t.c.sent| == if t.stages[0] == Finished then 1 else 0
  {
    RaceStart(m, 0, answers);
    SameLength(Calls(ItemsOf(m)), 0, answers);
    if schedule != [] {
      var n := |schedule| - 1;
      SoleCompletion(m, answers, atomic, schedule[..n]);
      var c, before := Parsed(m), Raced(m, answers, atomic, schedule[..n]);
      hide Parsed, Inv, Covered;
      StepsInv(c.requests, c.responses, answers, Started(c, answers), atomic, schedule[..n]);
      if before.stages[0] != Ready {
        NothingOpen(c.requests, c.responses, answers, before);
      }
      SoleStep(before, answers, atomic, schedule[n]);
    }
  }

  lemma SoleStep(r: Race, answers: seq<Response>, atomic: bool, j: nat)
    requires |r.stages| == |answers| == 1 && (r.stages[0] != Ready ==> r.c.requests == {})
    requires |r.c.sent| == if r.stages[0] == Finished then 1 else 0
    ensures var t := Step(r, answers, atomic, j);
            |t.stages| == 1 && |t.c.sent| == if t.stages[0] == Finished then 1 else 0
  {
  }

  /**
   Exactly when is one message sent, however the completions interleave?  If and
   only if the message is empty or unparsable, or has one call and no answered
   notification.  Making the sends atomic does not help.
   */
  lemma {:induction false} RaceOneReplyIff(m: Message, k: nat, answers: seq<Response>, atomic: bool)
    requires k <= Notifications(ItemsOf(m)) && AnyOrder(Calls(ItemsOf(m)), k, answers)
    ensures (forall schedule :: Over(Raced(m, answers, atomic, schedule)) ==>
               |Raced(m, answers, atomic, schedule).c.sent| == 1) <==>
            (ItemsOf(m) == [] || (|Calls(ItemsOf(m))| == 1 && k == 0))
  {
    var calls := Calls(ItemsOf(m));
    SameLength(calls, k, answers);
    if ItemsOf(m) == [] {
      forall schedule ensures |Raced(m, answers, atomic, schedule).c.sent| == 1 {
        NothingToRun(Started(Parsed(m), answers), answers, atomic, schedule);
      }
    } else if calls == [] {
      NoCallsSendTwice(m);
      var start := Started(Parsed(m), answers);
      var schedule := Finishing(start, answers, atomic, {});
      SentGrows(start, answers, atomic, schedule);
      assert Over(Raced(m, answers, atomic, schedule));
    } else if |calls| == 1 && k == 0 {
      forall schedule | Over(Raced(m, answers, atomic, schedule))
        ensures |Raced(m, answers, atomic, schedule).c.sent| == 1
      {
        SoleCompletion(m, answers, atomic, schedule);
      }
    } else {
      var schedule := RaceSendsMany(m, k, answers, atomic);
      assert Over(Raced(m, answers, atomic, schedule));
    }
  }

  lemma {:induction false} NothingToRun(r: Race, answers: seq<Response>, atomic: bool, schedule: seq<nat>)
    requires r.stages == []
    ensures Steps(r, answers, atomic, schedule) == r
  {
    if schedule != [] {
      NothingToRun(r, answers, atomic, schedule[..|schedule| - 1]);
    }
  }

  // ------------------------------------------------------- the last message

  /** Under this schedule, if it runs everything to the end, the last message is complete. */
  ghost predicate EndsComplete(m: Message, answers: seq<Response>, schedule: seq<nat>) {
    var end := Raced(m, answers, false, schedule);
    Over(end) ==> end.c.sent != [] && Complete(m, answers, end.c.sent[|end.c.sent| - 1])
  }

  /**
   When sending can be separated from collecting, the last message is complete in
   every interleaving if and only if there is a single answer.
   */
  lemma {:induction false} LastCompleteIff(m: Message, k: nat, answers: seq<Response>)
    requires Calls(ItemsOf(m)) != [] && AnyOrder(Calls(ItemsOf(m)), k, answers)
    ensures (forall schedule :: EndsComplete(m, answers, schedule)) <==> |answers| == 1
  {
    hide AnyOrder, Calls, ItemsOf;
    if |answers| == 1 {
      forall schedule ensures EndsComplete(m, answers, schedule) {
        hide Raced, Complete;
        if Over(Raced(m, answers, false, schedule)) {
          OnlyMessageComplete(m, k, answers, schedule);
        }
      }
    } else {
      hide Raced, Complete;
      var schedule := StaleLast(m, k, answers);
      PartialIsIncomplete(m, answers);
      assert !EndsComplete(m, answers, schedule);
    }
  }

  lemma OnlyMessageComplete(m: Message, k: nat, answers: seq<Response>, schedule: seq<nat>)
    requires Calls(ItemsOf(m)) != [] && AnyOrder(Calls(ItemsOf(m)), k, answers) && |answers| == 1
    requires Over(Raced(m, answers, false, schedule))
    ensures var sent := Raced(m, answers, false, schedule).c.sent;
            sent != [] && Complete(m, answers, sent[|sent| - 1])
  {
    SameLength(Calls(ItemsOf(m)), k, answers);
    SoleCompletion(m, answers, false, schedule);
    RaceAnswersAll(m, k, answers, false, schedule);
  }

  /** Everybody else runs to the end before the first completion sends what it collected. */
  lemma StaleLast(m: Message, k: nat, answers: seq<Response>) returns (schedule: seq<nat>)
    requires Calls(ItemsOf(m)) != [] && AnyOrder(Calls(ItemsOf(m)), k, answers)
    ensures answers != [] && Over(Raced(m, answers, false, schedule))
    ensures var sent := Raced(m, answers, false, schedule).c.sent;
            sent != [] && sent[|sent| - 1] == Partial(m, answers)
  {
    OpeningState(m, k, answers, false);
    var start, opening := Started(Parsed(m), answers), Opening(|answers|);
    var t := Raced(m, answers, false, opening);
    var rest := Finishing(t, answers, false, {0});
    var r := Steps(t, answers, false, rest);
    schedule := opening + rest + [0];
    StepsAppend(start, answers, false, opening, rest);
    StepsAppend(start, answers, false, opening + rest, [0]);
    OneStep(r, answers, false, 0);
  }

  lemma PartialIsIncomplete(m: Message, answers: seq<Response>)
    requires |answers| >= 2
    ensures !Complete(m, answers, Partial(m, answers))
  {
    var errors := Repeat(Errors(ItemsOf(m)));
    forall rs | multiset(rs) == multiset(errors) + multiset(answers) ensures Encode(rs) != Partial(m, answers) {
      assert |multiset(rs)| == |rs| && |multiset(errors)| == |errors| && |multiset(answers)| == |answers|;
      assert |rs| != |errors + [answers[0]]|;
    }
  }
}

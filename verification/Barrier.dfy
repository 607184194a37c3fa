/**
 The barrier (lib/vdsm/common/concurrent.py, class Barrier).  Every call of
 wait() is a visit.  Between two waits on the condition a visit holds the lock,
 so the steps are: arrive, and wake up in one of the two waits, because of a
 notification, a timeout or nothing at all.
 */
module Barrier {
  import opened Collections

  type Visit = nat

  datatype Phase = FILLING | DRAINING

  datatype Status =
    | Lobby(notified: bool)   // waiting for the barrier to fill again
    | Inside(notified: bool)  // counted, waiting for the last thread
    | Returned(round: nat)    // wait() returned normally
    | TimedOut                // wait() raised Timeout

  /**
   The fields of the barrier, the visits, and for every round the visits that
   were inside when it was complete.
   */
  datatype State = State(waiting: nat, phase: Phase, visits: map<Visit, Status>, rounds: seq<set<Visit>>)

  const Fresh := State(0, FILLING, map[], [])

  // --------------------------------------------------------------------- steps

  /** notify_all() on all threads asleep on the condition. */
  function NotifyAll(visits: map<Visit, Status>): map<Visit, Status> {
    map v | v in visits ::
      match visits[v]
      case Lobby(_) => Lobby(true)
      case Inside(_) => Inside(true)
      case other => other
  }

  ghost function Insiders(visits: map<Visit, Status>): set<Visit> {
    set v | v in visits && visits[v].Inside?
  }

  /** The finally clause: leave, and let the barrier fill again if it is empty. */
  function Leave(s: State, v: Visit, how: Status): State
    requires s.waiting > 0
  {
    var t := s.(waiting := s.waiting - 1, visits := s.visits[v := how]);
    if t.waiting == 0 then t.(phase := FILLING, visits := NotifyAll(t.visits)) else t
  }

  /** Enter a filling barrier; the last one in starts the draining and leaves. */
  ghost function Enter(count: nat, s: State, v: Visit): State {
    if s.waiting + 1 == count then
      var full := s.(waiting := s.waiting + 1, phase := DRAINING,
                     visits := NotifyAll(s.visits[v := Inside(true)]),
                     rounds := s.rounds + [Insiders(s.visits) + {v}]);
      Leave(full, v, Returned(|s.rounds|))
    else s.(waiting := s.waiting + 1, visits := s.visits[v := Inside(false)])
  }

  /** A new call of wait(). */
  ghost predicate Arrive(count: nat, s: State, t: State, v: Visit, expired: bool) {
    && v !in s.visits
    && t == if s.phase == FILLING then Enter(count, s, v)
            else s.(visits := s.visits[v := if expired then TimedOut else Lobby(false)])
  }

  /** A wake-up in the first wait. */
  ghost predicate WakeInLobby(count: nat, s: State, t: State, v: Visit, expired: bool) {
    && v in s.visits && s.visits[v].Lobby?
    && t == if s.phase == FILLING then Enter(count, s, v)
            else s.(visits := s.visits[v := if expired then TimedOut else Lobby(false)])
  }

  /** A wake-up in the second wait. */
  ghost predicate WakeInside(s: State, t: State, v: Visit, expired: bool) {
    && v in s.visits && s.visits[v].Inside? && s.waiting > 0
    && t == if s.phase == DRAINING then Leave(s, v, Returned(if s.rounds == [] then 0 else |s.rounds| - 1))
            else if expired then Leave(s, v, TimedOut)
            else s.(visits := s.visits[v := Inside(false)])
  }

  ghost predicate Next(count: nat, s: State, t: State) {
    exists v: Visit, expired: bool ::
      Arrive(count, s, t, v, expired) || WakeInLobby(count, s, t, v, expired) || WakeInside(s, t, v, expired)
  }

  ghost predicate Run(count: nat, trace: seq<State>) {
    && trace != [] && trace[0] == Fresh
    && forall i :: 0 < i < |trace| ==> Next(count, trace[i - 1], trace[i])
  }

  // ----------------------------------------------------------------- invariants

  /** All members of round r came out of wait() normally, in that round. */
  ghost predicate AllOut(visits: map<Visit, Status>, round: set<Visit>, r: nat) {
    forall v :: v in round ==> v in visits && visits[v] == Returned(r)
  }

  /** The members of the draining round are out, or inside and notified. */
  ghost predicate ComingOut(visits: map<Visit, Status>, round: set<Visit>, r: nat) {
    forall v :: v in round ==> v in visits && (visits[v] == Returned(r) || visits[v] == Inside(true))
  }

  ghost predicate RoundsOk(count: nat, phase: Phase, visits: map<Visit, Status>, rounds: seq<set<Visit>>) {
    && (forall r :: 0 <= r < |rounds| ==> |rounds[r]| == count)
    && (forall r :: 0 <= r < |rounds| - (if phase == DRAINING then 1 else 0) ==> AllOut(visits, rounds[r], r))
    && (phase == DRAINING ==> rounds != [] && ComingOut(visits, rounds[|rounds| - 1], |rounds| - 1))
    && (forall v :: v in visits && visits[v].Returned? ==>
          visits[v].round < |rounds| && v in rounds[visits[v].round])
  }

  ghost predicate PhaseOk(count: nat, waiting: nat, phase: Phase, visits: map<Visit, Status>, rounds: seq<set<Visit>>) {
    && waiting == |Insiders(visits)|
    && (phase == FILLING ==> waiting < count && forall v :: v in visits && visits[v].Lobby? ==> visits[v].notified)
    && (phase == DRAINING ==> waiting > 0 && rounds != [] && Insiders(visits) <= rounds[|rounds| - 1])
  }

  ghost predicate Inv(count: nat, s: State) {
    RoundsOk(count, s.phase, s.visits, s.rounds) && PhaseOk(count, s.waiting, s.phase, s.visits, s.rounds)
  }

  // ---------------------------------------------------------------- preservation

  lemma NotifyKeepsInsiders(visits: map<Visit, Status>)
    ensures Insiders(NotifyAll(visits)) == Insiders(visits)
  {
  }

  /** The last insider of a draining round leaves the barrier filling and empty. */
  lemma LeaveDraining(count: nat, s: State, v: Visit)
    requires count >= 1 && Inv(count, s) && s.phase == DRAINING && v in s.visits && s.visits[v].Inside?
    ensures Inv(count, Leave(s, v, Returned(|s.rounds| - 1)))
  {
    var last := |s.rounds| - 1;
    var visits := s.visits[v := Returned(last)];
    assert Insiders(visits) == Insiders(s.visits) - {v};
    assert v in Insiders(s.visits);
    NotifyKeepsInsiders(visits);
    if s.waiting == 1 {
      assert Insiders(visits) == {};
      forall w | w in s.rounds[last] ensures visits[w] == Returned(last) {
        assert w !in Insiders(visits);
      }
    }
  }

  lemma LeaveFilling(count: nat, s: State, v: Visit)
    requires count >= 1 && Inv(count, s) && s.phase == FILLING && v in s.visits && s.visits[v].Inside? && s.waiting > 0
    ensures Inv(count, Leave(s, v, TimedOut))
  {
    var visits := s.visits[v := TimedOut];
    assert Insiders(visits) == Insiders(s.visits) - {v};
    assert v in Insiders(s.visits);
    NotifyKeepsInsiders(visits);
  }

  /** The visit that completes the round. */
  lemma FullKeeps(count: nat, s: State, v: Visit)
    requires count >= 1 && Inv(count, s) && s.phase == FILLING && s.waiting + 1 == count
    requires v in s.visits ==> s.visits[v].Lobby?
    ensures Inv(count, State(s.waiting + 1, DRAINING, NotifyAll(s.visits[v := Inside(true)]),
                             s.rounds + [Insiders(s.visits) + {v}]))
  {
    var visits := s.visits[v := Inside(true)];
    assert Insiders(visits) == Insiders(s.visits) + {v};
    assert v !in Insiders(s.visits);
    NotifyKeepsInsiders(visits);
  }

  lemma EnterKeeps(count: nat, s: State, v: Visit)
    requires count >= 1 && Inv(count, s) && s.phase == FILLING
    requires v in s.visits ==> s.visits[v].Lobby?
    ensures Inv(count, Enter(count, s, v))
  {
    if s.waiting + 1 == count {
      hide RoundsOk, PhaseOk;
      FullKeeps(count, s, v);
      var full := State(s.waiting + 1, DRAINING, NotifyAll(s.visits[v := Inside(true)]),
                        s.rounds + [Insiders(s.visits) + {v}]);
      LeaveDraining(count, full, v);
    } else {
      PartialKeeps(count, s, v);
    }
  }

  lemma PartialKeeps(count: nat, s: State, v: Visit)
    requires Inv(count, s) && s.phase == FILLING && s.waiting + 1 != count
    requires v in s.visits ==> s.visits[v].Lobby?
    ensures Inv(count, s.(waiting := s.waiting + 1, visits := s.visits[v := Inside(false)]))
  {
    assert Insiders(s.visits[v := Inside(false)]) == Insiders(s.visits) + {v};
    assert v !in Insiders(s.visits);
  }

  lemma PassKeeps(count: nat, s: State, v: Visit, how: Status)
    requires Inv(count, s)
    requires if v in s.visits && s.visits[v].Inside? then s.phase == FILLING && how.Inside?
             else s.phase == DRAINING && (how.TimedOut? || how.Lobby?) && (v in s.visits ==> s.visits[v].Lobby?)
    ensures Inv(count, s.(visits := s.visits[v := how]))
  {
    assert Insiders(s.visits[v := how]) == Insiders(s.visits);
  }

  lemma NextKeeps(count: nat, s: State, t: State)
    requires count >= 1 && Inv(count, s) && Next(count, s, t)
    ensures Inv(count, t)
  {
    var v: Visit, expired: bool :|
      Arrive(count, s, t, v, expired) || WakeInLobby(count, s, t, v, expired) || WakeInside(s, t, v, expired);
    if WakeInside(s, t, v, expired) {
      if s.phase == DRAINING {
        LeaveDraining(count, s, v);
      } else if expired {
        LeaveFilling(count, s, v);
      } else {
        PassKeeps(count, s, v, Inside(false));
      }
    } else if s.phase == FILLING {
      EnterKeeps(count, s, v);
    } else {
      PassKeeps(count, s, v, if expired then TimedOut else Lobby(false));
    }
  }

  lemma {:induction false} RunInv(count: nat, trace: seq<State>, i: nat)
    requires count >= 1 && Run(count, trace) && i < |trace|
    ensures Inv(count, trace[i])
  {
    if i == 0 {
      assert Insiders(map[]) == {};
    } else {
      RunInv(count, trace, i - 1);
      NextKeeps(count, trace[i - 1], trace[i]);
    }
  }

  // -------------------------------------------------------------------- theorems

  /** A normal return belongs to a round in which count visits were inside together. */
  lemma {:induction false} ReturnsInFullRound(count: nat, trace: seq<State>, i: nat, v: Visit)
    requires count >= 1 && Run(count, trace) && i < |trace|
    requires v in trace[i].visits && trace[i].visits[v].Returned?
    ensures var s := trace[i]; var r := s.visits[v].round;
            r < |s.rounds| && v in s.rounds[r] && |s.rounds[r]| == count
  {
    RunInv(count, trace, i);
  }

  /** No member of a round ever times out; it is out, or inside, notified, in a draining barrier. */
  lemma {:induction false} RoundReturnsNormally(count: nat, trace: seq<State>, i: nat, r: nat, v: Visit)
    requires count >= 1 && Run(count, trace) && i < |trace|
    requires r < |trace[i].rounds| && v in trace[i].rounds[r]
    ensures var s := trace[i];
            && v in s.visits
            && (s.visits[v] == Returned(r) ||
                (s.visits[v] == Inside(true) && s.phase == DRAINING && r == |s.rounds| - 1))
  {
    RunInv(count, trace, i);
    var s := trace[i];
    if s.phase == DRAINING && r == |s.rounds| - 1 {
      assert ComingOut(s.visits, s.rounds[r], r);
    } else {
      assert AllOut(s.visits, s.rounds[r], r);
    }
  }

  /**
   Nobody gets in before the last of the round has left: in a draining barrier
   only members of that round are inside; when a new round completes, or the
   barrier fills, every member of every earlier round is out.
   */
  lemma {:induction false} RoundsDoNotOverlap(count: nat, trace: seq<State>, i: nat)
    requires count >= 1 && Run(count, trace) && i < |trace|
    ensures var s := trace[i];
            && (s.phase == DRAINING ==> s.rounds != [] && Insiders(s.visits) <= s.rounds[|s.rounds| - 1])
            && (s.phase == FILLING ==> forall r :: 0 <= r < |s.rounds| ==> AllOut(s.visits, s.rounds[r], r))
            && forall r :: 0 <= r < |s.rounds| - 1 ==> AllOut(s.visits, s.rounds[r], r)
  {
    RunInv(count, trace, i);
  }

  /** No wake-up is lost: whoever could go on has been notified. */
  lemma {:induction false} NobodyForgotten(count: nat, trace: seq<State>, i: nat, v: Visit)
    requires count >= 1 && Run(count, trace) && i < |trace| && v in trace[i].visits
    ensures var s := trace[i];
            && (s.phase == FILLING && s.visits[v].Lobby? ==> s.visits[v].notified)
            && (s.phase == DRAINING && s.visits[v].Inside? ==> s.visits[v].notified)
  {
    RunInv(count, trace, i);
    var s := trace[i];
    if s.phase == DRAINING && s.visits[v].Inside? {
      assert v in Insiders(s.visits);
      assert ComingOut(s.visits, s.rounds[|s.rounds| - 1], |s.rounds| - 1);
    }
  }

  /** The counter is the number of visits inside, and never more than count. */
  lemma {:induction false} WaitingCountsInsiders(count: nat, trace: seq<State>, i: nat)
    requires count >= 1 && Run(count, trace) && i < |trace|
    ensures trace[i].waiting == |Insiders(trace[i].visits)| && trace[i].waiting <= count
  {
    RunInv(count, trace, i);
    var s := trace[i];
    if s.phase == DRAINING {
      SubsetCard(Insiders(s.visits), s.rounds[|s.rounds| - 1]);
    }
  }

  /**
   Which calls time out: a call that is over timed out if and only if no round
   was completed while it was inside.
   */
  lemma {:induction false} TimedOutIff(count: nat, trace: seq<State>, i: nat, v: Visit)
    requires count >= 1 && Run(count, trace) && i < |trace| && v in trace[i].visits
    requires trace[i].visits[v].Returned? || trace[i].visits[v].TimedOut?
    ensures trace[i].visits[v].TimedOut? <==> forall r :: 0 <= r < |trace[i].rounds| ==> v !in trace[i].rounds[r]
  {
    RunInv(count, trace, i);
    forall r | 0 <= r < |trace[i].rounds| && v in trace[i].rounds[r] ensures trace[i].visits[v].Returned? {
      RoundReturnsNormally(count, trace, i, r, v);
    }
  }

  /**
   When a timeout does spread: if no more than count calls were made and one of
   them timed out, none has returned normally.
   */
  lemma {:induction false} TimeoutSpreads(count: nat, trace: seq<State>, i: nat, v: Visit, w: Visit)
    requires count >= 1 && Run(count, trace) && i < |trace| && |trace[i].visits| <= count
    requires v in trace[i].visits && trace[i].visits[v].TimedOut? && w in trace[i].visits
    ensures !trace[i].visits[w].Returned?
  {
    RunInv(count, trace, i);
    var s := trace[i];
    if s.visits[w].Returned? {
      var round := s.rounds[s.visits[w].round];
      forall x | x in round ensures x in s.visits.Keys - {v} {
        RoundReturnsNormally(count, trace, i, s.visits[w].round, x);
      }
      SubsetCard(round, s.visits.Keys - {v});
    }
  }

  // With one call more it need not: two visits wait, the first times out, and
  // newcomers complete the round of the second.

  const Two := State(2, FILLING, map[0 := Inside(false), 1 := Inside(false)], [])

  function LeftBehind(j: nat): (visits: map<Visit, Status>)
    ensures visits.Keys == Elements(Upto(j + 1))
    ensures forall v :: v in visits ==> visits[v] == if v == 0 then TimedOut else Inside(false)
  {
    if j == 0 then map[0 := TimedOut] else LeftBehind(j - 1)[j := Inside(false)]
  }

  /** The first has timed out and visits 1 to j are inside. */
  function Waiting(j: nat): State { State(j, FILLING, LeftBehind(j), []) }

  /** The last newcomer has completed the round and returned. */
  ghost function Completed(count: nat): State
    requires count >= 2
  {
    Enter(count, Waiting(count - 1), count)
  }

  lemma FirstSteps(count: nat)
    requires count >= 3
    ensures Run(count, [Fresh, State(1, FILLING, map[0 := Inside(false)], []), Two, Waiting(1)])
  {
    var one := State(1, FILLING, map[0 := Inside(false)], []);
    assert Arrive(count, Fresh, one, 0, false);
    assert Arrive(count, one, Two, 1, false);
    assert LeftBehind(1) == Two.visits[0 := TimedOut];
    assert WakeInside(Two, Waiting(1), 0, true);
  }

  lemma {:induction false} Newcomers(count: nat, j: nat) returns (trace: seq<State>)
    requires count >= 3 && 1 <= j < count
    ensures Run(count, trace) && |trace| == j + 3 && trace[2] == Two && trace[j + 2] == Waiting(j)
  {
    if j == 1 {
      FirstSteps(count);
      trace := [Fresh, State(1, FILLING, map[0 := Inside(false)], []), Two, Waiting(1)];
    } else {
      var before := Newcomers(count, j - 1);
      assert LeftBehind(j) == LeftBehind(j - 1)[j := Inside(false)];
      assert Arrive(count, Waiting(j - 1), Waiting(j), j, false);
      trace := before + [Waiting(j)];
      Extended(count, before, Waiting(j));
    }
  }

  lemma Extended(count: nat, trace: seq<State>, next: State)
    requires Run(count, trace) && Next(count, trace[|trace| - 1], next)
    ensures Run(count, trace + [next])
  {
    hide Next;
    var more := trace + [next];
    forall i | 0 < i < |more| ensures Next(count, more[i - 1], more[i]) {
      if i < |trace| {
        assert Next(count, trace[i - 1], trace[i]);
      }
    }
  }

  lemma CompletedState(count: nat)
    requires count >= 3
    ensures var s := Completed(count);
            && s.phase == DRAINING && s.waiting == count - 1 && |s.rounds| == 1
            && s.visits.Keys == Elements(Upto(count + 1))
            && s.visits[0] == TimedOut && s.visits[1] == Inside(true) && s.visits[count] == Returned(0)
  {
  }

  lemma LastSteps(count: nat) returns (last: State)
    requires count >= 3
    ensures Next(count, Waiting(count - 1), Completed(count)) && Next(count, Completed(count), last)
    ensures |last.visits| == count + 1
    ensures 0 in last.visits && last.visits[0] == TimedOut && 1 in last.visits && last.visits[1] == Returned(0)
  {
    var full := Completed(count);
    assert Arrive(count, Waiting(count - 1), full, count, false);
    CompletedState(count);
    hide Enter, LeftBehind, Completed;
    last := full.(waiting := count - 2, visits := full.visits[1 := Returned(0)]);
    assert WakeInside(full, last, 1, false);
    SameKeys(full.visits, 1, Returned(0));
    DistinctCard(Upto(count + 1));
  }

  lemma SameKeys(visits: map<Visit, Status>, v: Visit, how: Status)
    requires v in visits
    ensures |visits[v := how]| == |visits.Keys|
  {
    assert visits[v := how].Keys == visits.Keys;
  }

  /**
   The bound is needed, whatever the count: with count + 1 calls, of two threads
   waiting together one can time out and the other return normally.
   */
  lemma {:induction false} TimeoutDoesNotSpread(count: nat)
    requires count >= 3
    ensures exists trace: seq<State> ::
              && Run(count, trace) && |trace| == count + 4
              && trace[2] == Two
              && |trace[count + 3].visits| == count + 1
              && 0 in trace[count + 3].visits && trace[count + 3].visits[0] == TimedOut
              && 1 in trace[count + 3].visits && trace[count + 3].visits[1] == Returned(0)
  {
    hide Next, Run, Waiting, Completed;
    var trace := Newcomers(count, count - 1);
    var last := LastSteps(count);
    Extended(count, trace, Completed(count));
    Extended(count, trace + [Completed(count)], last);
    var all := trace + [Completed(count)] + [last];
    assert Run(count, all) && all[count + 3] == last;
  }

  /** One call timed out and another returned normally. */
  ghost predicate Mixed(s: State, v: Visit, w: Visit) {
    v in s.visits && w in s.visits && s.visits[v].TimedOut? && s.visits[w].Returned?
  }

  /** While there are at most n calls, a timeout means that nobody has returned normally. */
  ghost predicate SpreadsUpTo(trace: seq<State>, n: nat) {
    forall i, v, w :: 0 <= i < |trace| && |trace[i].visits| <= n ==> !Mixed(trace[i], v, w)
  }

  /** Exactly when a timeout spreads in every run: when there are no calls beyond those the barrier counts. */
  lemma {:induction false} TimeoutSpreadsIff(count: nat, n: nat)
    requires count >= 3
    ensures (forall trace :: Run(count, trace) ==> SpreadsUpTo(trace, n)) <==> n <= count
  {
    hide Run;
    if n <= count {
      forall trace: seq<State>, i: nat, v: Visit, w: Visit
        | Run(count, trace) && i < |trace| && |trace[i].visits| <= n && v in trace[i].visits && w in trace[i].visits &&
          trace[i].visits[v].TimedOut?
        ensures !trace[i].visits[w].Returned?
      {
        TimeoutSpreads(count, trace, i, v, w);
      }
    } else {
      TimeoutDoesNotSpread(count);
      var trace: seq<State> :| Run(count, trace) && |trace| == count + 4 && |trace[count + 3].visits| == count + 1 &&
        0 in trace[count + 3].visits && trace[count + 3].visits[0] == TimedOut &&
        1 in trace[count + 3].visits && trace[count + 3].visits[1] == Returned(0);
      assert Mixed(trace[count + 3], 0, 1);
    }
  }
}

/**
 Assembling the reply to a JSON-RPC message (lib/yajsonrpc/__init__.py): the
 context of a message counts its calls, collects their responses as they finish
 in any order, and sends.
 */
module BatchContext {
  import opened Collections
  import opened Options

  type Id = nat

  /** One element of a batch: a request, a notification when the id is absent, or neither. */
  datatype Item = Request(id: Option<Id>) | Malformed

  datatype Message = Unparsable | Single(item: Item) | Batch(items: seq<Item>)

  /** A response; errors about the message itself carry no id. */
  datatype Response = Response(id: Option<Id>, payload: nat)

  const ErrorResponse := Response(None, 0)

  /** A lone response is sent bare, several as a list. */
  datatype Reply = Bare(r: Response) | List(rs: seq<Response>)

  function Encode(responses: seq<Response>): Reply {
    if |responses| == 1 then Bare(responses[0]) else List(responses)
  }

  /** The fields of the context, and the messages given to the client. */
  datatype Context = Context(requests: set<Id>, counter: nat, responses: seq<Response>, sent: seq<Reply>)

  const Fresh := Context({}, 0, [], [])

  // --------------------------------------------------------------- operations

  function SendReply(c: Context): Context {
    if c.requests != {} then c else c.(sent := c.sent + [Encode(c.responses)])
  }

  function AddResponse(c: Context, r: Response): Context {
    c.(responses := c.responses + [r])
  }

  /** del self._requests[response.id], if it is there. */
  function Delete(c: Context, id: Option<Id>): Context {
    if id.Some? then c.(requests := c.requests - {id.value}) else c
  }

  function RequestDone(c: Context, r: Response): Context {
    SendReply(AddResponse(Delete(c, r.id), r))
  }

  function Calls(items: seq<Item>): seq<Id> {
    if items == [] then []
    else if items[0].Request? && items[0].id.Some? then [items[0].id.value] + Calls(items[1..])
    else Calls(items[1..])
  }

  function Errors(items: seq<Item>): nat {
    if items == [] then 0 else (if items[0].Malformed? then 1 else 0) + Errors(items[1..])
  }

  /** setRequests on the well-formed items. */
  function SetRequests(c: Context, calls: seq<Id>): Context {
    SendReply(c.(counter := c.counter + |calls|, requests := c.requests + Elements(calls)))
  }

  function Repeat(n: nat): seq<Response> { seq(n, _ => ErrorResponse) }

  function ItemsOf(m: Message): seq<Item> {
    match m
    case Unparsable => []
    case Single(item) => [item]
    case Batch(items) => items
  }

  /** _parseMessage up to the point where the requests are run. */
  function Parsed(m: Message): Context {
    var items := ItemsOf(m);
    if items == [] then SendReply(AddResponse(Fresh, ErrorResponse))
    else
      var c := SetRequests(Fresh.(responses := Repeat(Errors(items))), Calls(items));
      if c.counter == 0 then SendReply(c) else c
  }

  /** The requests finish one after the other. */
  function Served(c: Context, done: seq<Response>): Context {
    if done == [] then c else RequestDone(Served(c, done[..|done| - 1]), done[|done| - 1])
  }

  // -------------------------------------------------------------- counting

  function IdsOf(done: seq<Response>): seq<Option<Id>> {
    seq(|done|, i requires 0 <= i < |done| => done[i].id)
  }

  ghost predicate Covered(calls: set<Id>, done: seq<Response>) {
    forall id :: id in calls ==> Done(done, id)
  }

  /** How many completions find every call answered. */
  ghost function SendingCompletions(calls: set<Id>, done: seq<Response>): nat {
    if done == [] then 0
    else SendingCompletions(calls, done[..|done| - 1]) + if Covered(calls, done) then 1 else 0
  }

  /** Some completion is of this call. */
  ghost predicate Done(done: seq<Response>, id: Id) {
    exists i :: 0 <= i < |done| && done[i].id == Some(id)
  }

  lemma DoneLast(done: seq<Response>, id: Id)
    requires done != []
    ensures Done(done, id) <==> Done(done[..|done| - 1], id) || done[|done| - 1].id == Some(id)
  {
    var n := |done| - 1;
    if i :| 0 <= i < |done| && done[i].id == Some(id) {
      assert i < n ==> done[..n][i].id == Some(id);
    }
    if i :| 0 <= i < n && done[..n][i].id == Some(id) {
      assert done[i].id == Some(id);
    }
  }

  lemma {:induction false} ServedRequests(c: Context, done: seq<Response>, id: Id)
    ensures id in Served(c, done).requests <==> id in c.requests && !Done(done, id)
  {
    if done != [] {
      ServedRequests(c, done[..|done| - 1], id);
      DoneLast(done, id);
    }
  }

  lemma {:induction false} ServedState(c: Context, done: seq<Response>)
    ensures Served(c, done).responses == c.responses + done
    ensures Served(c, done).requests == set id | id in c.requests && !Done(done, id)
    ensures |Served(c, done).sent| == |c.sent| + SendingCompletions(c.requests, done)
    ensures Served(c, done).requests == {} <==> Covered(c.requests, done)
  {
    forall id: Id ensures id in Served(c, done).requests <==> id in c.requests && !Done(done, id) {
      ServedRequests(c, done, id);
    }
    hide Done;
    if done == [] {
      assert c.responses + done == c.responses;
    } else {
      var n := |done| - 1;
      ServedState(c, done[..n]);
      assert c.responses + done == c.responses + done[..n] + [done[n]];
    }
  }

  // ------------------------------------------------------------ exactly one reply

  function Notifications(items: seq<Item>): nat {
    if items == [] then 0
    else (if items[0].Request? && items[0].id.None? then 1 else 0) + Notifications(items[1..])
  }

  /**
   The ids of the responses to a message: one per call, and none for the k
   notifications that are answered (all but those of an unknown method).
   */
  function Answers(calls: seq<Id>, k: nat): seq<Option<Id>> {
    seq(|calls|, i requires 0 <= i < |calls| => Some(calls[i])) + seq(k, _ => None)
  }

  /** done is the answers of the message, finished in some order. */
  ghost predicate AnyOrder(calls: seq<Id>, k: nat, done: seq<Response>) {
    multiset(IdsOf(done)) == multiset(Answers(calls, k))
  }

  lemma SameLength(calls: seq<Id>, k: nat, done: seq<Response>)
    requires AnyOrder(calls, k, done)
    ensures |done| == |calls| + k
  {
    assert |multiset(IdsOf(done))| == |IdsOf(done)|;
    assert |multiset(Answers(calls, k))| == |Answers(calls, k)|;
  }

  lemma AllCovered(calls: seq<Id>, k: nat, done: seq<Response>)
    requires AnyOrder(calls, k, done)
    ensures Covered(Elements(calls), done)
  {
    forall id | id in Elements(calls) ensures exists i :: 0 <= i < |done| && done[i].id == Some(id) {
      var j :| 0 <= j < |calls| && calls[j] == id;
      assert Answers(calls, k)[j] == Some(id);
      assert Some(id) in multiset(IdsOf(done));
      assert Some(id) in IdsOf(done);
    }
  }

  lemma TwiceCounted(s: seq<Option<Id>>, i: nat, j: nat)
    requires i < j < |s| && s[i] == s[j]
    ensures multiset(s)[s[i]] >= 2
  {
    assert s == s[..j] + s[j..];
    assert s[..j][i] in multiset(s[..j]);
    assert s[j..][0] in multiset(s[j..]);
  }

  /** Distinct calls are answered by distinct completions. */
  lemma DistinctCompletions(calls: seq<Id>, done: seq<Response>, i: nat, j: nat)
    requires Distinct(calls) && AnyOrder(calls, 0, done) && i < j < |done|
    ensures done[i].id != done[j].id
  {
    if done[i].id == done[j].id {
      TwiceCounted(IdsOf(done), i, j);
      DistinctCounts(Answers(calls, 0), done[i].id);
    }
  }

  /** Until the last completion some call is open. */
  lemma NotCoveredEarly(calls: seq<Id>, done: seq<Response>, n: nat)
    requires Distinct(calls) && AnyOrder(calls, 0, done) && n < |done|
    ensures !Covered(Elements(calls), done[..n])
  {
    assert IdsOf(done)[n] in multiset(IdsOf(done));
    assert IdsOf(done)[n] in Answers(calls, 0);
    var id := done[n].id.value;
    assert id in Elements(calls);
    forall i | 0 <= i < n ensures done[..n][i].id != Some(id) {
      DistinctCompletions(calls, done, i, n);
    }
  }

  lemma {:induction false} NoneSentEarly(calls: seq<Id>, done: seq<Response>, n: nat)
    requires Distinct(calls) && AnyOrder(calls, 0, done) && n < |done|
    ensures SendingCompletions(Elements(calls), done[..n]) == 0
  {
    if n > 0 {
      NoneSentEarly(calls, done, n - 1);
      NotCoveredEarly(calls, done, n);
      assert done[..n][..n - 1] == done[..n - 1];
    }
  }

  lemma ParsedWithCalls(m: Message)
    requires Calls(ItemsOf(m)) != []
    ensures ItemsOf(m) != []
    ensures var items := ItemsOf(m);
            Parsed(m) == Context(Elements(Calls(items)), |Calls(items)|, Repeat(Errors(items)), [])
  {
    var calls := Calls(ItemsOf(m));
    assert calls[0] in Elements(calls);
    assert {} + Elements(calls) == Elements(calls);
  }

  /**
   A message with at least one call, all with distinct ids, and no answered
   notification: whatever the order of completion, nothing is sent before the
   last completion, and then one reply with a response per malformed item and
   one per call.
   */
  lemma {:induction false} OneReply(m: Message, done: seq<Response>)
    requires var calls := Calls(ItemsOf(m)); calls != [] && Distinct(calls) && AnyOrder(calls, 0, done)
    ensures forall n :: 0 <= n < |done| ==> Served(Parsed(m), done[..n]).sent == []
    ensures Served(Parsed(m), done).sent == [Encode(Repeat(Errors(ItemsOf(m))) + done)]
  {
    var calls := Calls(ItemsOf(m));
    ParsedWithCalls(m);
    SameLength(calls, 0, done);
    forall n | 0 <= n < |done| ensures Served(Parsed(m), done[..n]).sent == [] {
      NoneSentEarly(calls, done, n);
      ServedState(Parsed(m), done[..n]);
    }
    AllCovered(calls, 0, done);
    ServedState(Parsed(m), done);
    assert Served(Parsed(m), done[..|done| - 1]).sent == [];
  }

  // ----------------------------------------------------- and only in those cases

  /** Some completion order with the given ids. */
  function WithIds(ids: seq<Option<Id>>): (done: seq<Response>)
    ensures IdsOf(done) == ids
  {
    seq(|ids|, i requires 0 <= i < |ids| => Response(ids[i], 0))
  }

  /** If the calls are covered one completion early, there is a second message. */
  lemma EarlyCoverSendsTwice(m: Message, done: seq<Response>)
    requires var calls := Elements(Calls(ItemsOf(m)));
             calls != {} && done != [] && Covered(calls, done[..|done| - 1])
    ensures |Served(Parsed(m), done).sent| >= 2
  {
    var calls := Calls(ItemsOf(m));
    ParsedWithCalls(m);
    var n := |done| - 1;
    ServedState(Parsed(m), done);
    assert done[..n] != [] by {
      var id :| id in Elements(calls);
      var i :| 0 <= i < |done[..n]| && done[..n][i].id == Some(id);
    }
    forall id | id in Elements(calls) ensures exists i :: 0 <= i < |done| && done[i].id == Some(id) {
      var i :| 0 <= i < |done[..n]| && done[..n][i].id == Some(id);
      assert done[i].id == Some(id);
    }
    assert SendingCompletions(Elements(calls), done[..n]) >= 1;
  }

  lemma NotificationLast(m: Message, k: nat) returns (done: seq<Response>)
    requires Calls(ItemsOf(m)) != [] && k > 0
    ensures AnyOrder(Calls(ItemsOf(m)), k, done) && |Served(Parsed(m), done).sent| >= 2
  {
    var calls := Calls(ItemsOf(m));
    done := WithIds(Answers(calls, k));
    var n := |done| - 1;
    assert calls[0] in Elements(calls);
    forall id | id in Elements(calls) ensures exists i :: 0 <= i < |done[..n]| && done[..n][i].id == Some(id) {
      var i :| 0 <= i < |calls| && calls[i] == id;
      assert IdsOf(done)[i] == Some(id);
      assert done[..n][i].id == Some(id);
    }
    EarlyCoverSendsTwice(m, done);
  }

  /** Moving the p-th element to the end leaves the other copy of a duplicate in front of it. */
  function MovedLast(s: seq<Option<Id>>, p: nat): seq<Option<Id>>
    requires p < |s|
  {
    Without(s, p) + [s[p]]
  }

  lemma MovedLastKeeps(s: seq<Option<Id>>, p: nat)
    requires p < |s|
    ensures multiset(MovedLast(s, p)) == multiset(s)
  {
    WithoutCounts(s, p);
  }

  lemma MovedLastCovers(s: seq<Option<Id>>, p: nat, q: nat, i: nat)
    requires p < q < |s| && s[p] == s[q] && i < |s|
    ensures exists j :: 0 <= j < |s| - 1 && MovedLast(s, p)[j] == s[i]
  {
    var j := if i == p then q - 1 else if i < p then i else i - 1;
    assert MovedLast(s, p)[j] == s[i];
  }

  lemma DuplicateLast(m: Message, p: nat, q: nat) returns (done: seq<Response>)
    requires p < q < |Calls(ItemsOf(m))| && Calls(ItemsOf(m))[p] == Calls(ItemsOf(m))[q]
    ensures AnyOrder(Calls(ItemsOf(m)), 0, done) && |Served(Parsed(m), done).sent| >= 2
  {
    hide Calls, ItemsOf, Served, Parsed, MovedLast;
    var calls := Calls(ItemsOf(m));
    var answers := Answers(calls, 0);
    MovedLastKeeps(answers, p);
    done := WithIds(MovedLast(answers, p));
    SameLength(calls, 0, done);
    var n := |done| - 1;
    assert calls[0] in Elements(calls);
    forall id | id in Elements(calls) ensures exists i :: 0 <= i < |done[..n]| && done[..n][i].id == Some(id) {
      var i :| 0 <= i < |calls| && calls[i] == id;
      MovedLastCovers(answers, p, q, i);
      var j :| 0 <= j < |answers| - 1 && MovedLast(answers, p)[j] == answers[i];
      assert IdsOf(done)[j] == Some(id);
      assert done[..n][j].id == Some(id);
    }
    EarlyCoverSendsTwice(m, done);
  }

  /** A message without any call is answered twice before anything is served. */
  lemma NoCallsSendTwice(m: Message)
    requires ItemsOf(m) != [] && Calls(ItemsOf(m)) == []
    ensures |Parsed(m).sent| == 2
  {
  }

  /**
   Exactly when is one reply sent, whatever the order of completion?  If and
   only if the message is empty or unparsable, or it has a call, the ids of the
   calls are distinct, and no notification is answered.
   */
  lemma {:induction false} OneReplyIff(m: Message, k: nat)
    requires k <= Notifications(ItemsOf(m))
    ensures var items := ItemsOf(m); var calls := Calls(items);
            (forall done :: AnyOrder(calls, k, done) ==> |Served(Parsed(m), done).sent| == 1) <==>
            (items == [] || (calls != [] && Distinct(calls) && k == 0))
  {
    var calls := Calls(ItemsOf(m));
    if ItemsOf(m) == [] {
      forall done | AnyOrder(calls, k, done) ensures |Served(Parsed(m), done).sent| == 1 {
        SameLength(calls, k, done);
      }
    } else if calls != [] && Distinct(calls) && k == 0 {
      forall done | AnyOrder(calls, k, done) ensures |Served(Parsed(m), done).sent| == 1 {
        OneReply(m, done);
      }
    } else {
      var bad := SomeBadOrder(m, k);
      assert AnyOrder(calls, k, bad);
    }
  }

  lemma SomeBadOrder(m: Message, k: nat) returns (done: seq<Response>)
    requires ItemsOf(m) != []
    requires var calls := Calls(ItemsOf(m)); !(calls != [] && Distinct(calls) && k == 0)
    ensures AnyOrder(Calls(ItemsOf(m)), k, done) && |Served(Parsed(m), done).sent| != 1
  {
    var calls := Calls(ItemsOf(m));
    if calls == [] {
      NoCallsSendTwice(m);
      done := WithIds(Answers(calls, k));
      ServedState(Parsed(m), done);
    } else if k > 0 {
      done := NotificationLast(m, k);
    } else {
      var p, q :| 0 <= p < q < |calls| && calls[p] == calls[q];
      done := DuplicateLast(m, p, q);
    }
  }

  // --------------------------------------------------------- the context object

  class RequestContext {
    var requests: set<Id>
    var counter: nat
    var responses: seq<Response>
    var sent: seq<Reply>

    ghost function View(): Context
      reads this
    {
      Context(requests, counter, responses, sent)
    }

    constructor ()
      ensures View() == Fresh
    {
      requests, counter, responses, sent := {}, 0, [], [];
    }

    method Send()
      modifies this`sent
      ensures View() == SendReply(old(View()))
    {
      if requests != {} {
        return;
      }
      if |responses| == 1 {
        sent := sent + [Bare(responses[0])];
      } else {
        sent := sent + [List(responses)];
      }
    }

    method Add(r: Response)
      modifies this`responses
      ensures View() == AddResponse(old(View()), r)
    {
      responses := responses + [r];
    }

    method Set(reqs: seq<Item>)
      requires forall i :: 0 <= i < |reqs| ==> reqs[i].Request?
      modifies this
      ensures View() == SetRequests(old(View()), Calls(reqs))
    {
      for i := 0 to |reqs|
        invariant responses == old(responses) && sent == old(sent)
        invariant counter == old(counter) + |Calls(reqs[..i])|
        invariant requests == old(requests) + Elements(Calls(reqs[..i]))
      {
        CallsAppend(reqs[..i], reqs[i]);
        assert reqs[..i + 1] == reqs[..i] + [reqs[i]];
        if reqs[i].id.Some? {
          counter := counter + 1;
          requests := requests + {reqs[i].id.value};
        }
      }
      assert reqs[..|reqs|] == reqs;
      Send();
    }

    method Done(r: Response)
      modifies this
      ensures View() == RequestDone(old(View()), r)
    {
      if r.id.Some? {
        requests := requests - {r.id.value};
      }
      Add(r);
      Send();
    }

    /** The loop of _parseMessage: errors for the malformed items, the rest is collected. */
    method Sort(items: seq<Item>) returns (reqs: seq<Item>)
      requires responses == []
      modifies this`responses
      ensures responses == Repeat(Errors(items))
      ensures Calls(reqs) == Calls(items) && forall j :: 0 <= j < |reqs| ==> reqs[j].Request?
    {
      reqs := [];
      EmptyHasNone();
      hide Calls, Errors;
      for i := 0 to |items|
        invariant forall j :: 0 <= j < |reqs| ==> reqs[j].Request?
        invariant Calls(reqs) == Calls(items[..i])
        invariant responses == Repeat(Errors(items[..i]))
      {
        CallsAppend(items[..i], items[i]);
        CallsAppend(reqs, items[i]);
        ErrorsAppend(items[..i], items[i]);
        assert items[..i + 1] == items[..i] + [items[i]];
        if items[i].Request? {
          reqs := reqs + [items[i]];
        } else {
          Add(ErrorResponse);
        }
      }
      assert items[..|items|] == items;
    }

    /** _parseMessage on a fresh context, up to running the requests. */
    method Parse(m: Message) returns (reqs: seq<Item>)
      requires View() == Fresh
      modifies this
      ensures View() == Parsed(m)
      ensures Calls(reqs) == Calls(ItemsOf(m))
    {
      var items := ItemsOf(m);
      if items == [] {
        Add(ErrorResponse);
        Send();
        return [];
      }
      hide Calls, Errors, Repeat;
      reqs := Sort(items);
      Set(reqs);
      if counter == 0 {
        Send();
      }
    }
  }

  lemma EmptyHasNone()
    ensures Calls([]) == [] && Errors([]) == 0
  {
  }

  lemma {:induction false} CallsAppend(items: seq<Item>, last: Item)
    ensures Calls(items + [last]) ==
            if last.Request? && last.id.Some? then Calls(items) + [last.id.value] else Calls(items)
  {
    if items == [] {
      assert [last][1..] == [];
    } else {
      assert (items + [last])[1..] == items[1..] + [last];
      CallsAppend(items[1..], last);
    }
  }

  lemma {:induction false} ErrorsAppend(items: seq<Item>, last: Item)
    ensures Errors(items + [last]) == Errors(items) + if last.Malformed? then 1 else 0
  {
    if items == [] {
      assert [last][1..] == [];
    } else {
      assert (items + [last])[1..] == items[1..] + [last];
      ErrorsAppend(items[1..], last);
    }
  }
}

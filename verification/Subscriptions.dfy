/**
 The subscription index of the STOMP server (lib/yajsonrpc/stompserver.py): one
 map from destinations to lists of subscriptions, shared by all connections, and
 one dictionary of subscription ids per connection.
 */
module Subscriptions {
  import opened Collections
  import opened Options

  type Conn = nat

  /** A Subscription object; serial stands for its identity. */
  datatype Sub = Sub(conn: Conn, id: string, destination: string, serial: nat)

  type Dests = map<string, seq<Sub>>
  type Ids = map<Conn, map<string, Sub>>

  /** _sub_dests, the _sub_ids of every connection, and the objects made so far. */
  datatype Index = Index(dests: Dests, ids: Ids, created: nat)

  const Fresh := Index(map[], map[], 0)

  // --------------------------------------------------------------- operations

  function IdsOf(ids: Ids, conn: Conn): map<string, Sub> {
    if conn in ids then ids[conn] else map[]
  }

  function ListOf(dests: Dests, d: string): seq<Sub> {
    if d in dests then dests[d] else []
  }

  datatype Reply = Accepted | MissingHeader | IdExists | NoSuchId

  predicate Given(header: Option<string>) { header.Some? && header.value != "" }

  /** SUBSCRIBE; an absent or empty header counts as missing. */
  function Subscribed(ix: Index, conn: Conn, destination: Option<string>, id: Option<string>): (Index, Reply) {
    if !Given(destination) || !Given(id) then (ix, MissingHeader)
    else if id.value in IdsOf(ix.ids, conn) then (ix, IdExists)
    else
      var sub := Sub(conn, id.value, destination.value, ix.created);
      (Index(ix.dests[sub.destination := ListOf(ix.dests, sub.destination) + [sub]],
             ix.ids[conn := IdsOf(ix.ids, conn)[sub.id := sub]], ix.created + 1), Accepted)
  }

  function Keep(subs: seq<Sub>, gone: set<Sub>): seq<Sub> {
    if subs == [] then []
    else if subs[0] in gone then Keep(subs[1..], gone)
    else [subs[0]] + Keep(subs[1..], gone)
  }

  /** The index without some subscriptions; a list that loses its last one goes. */
  function Dropped(dests: Dests, gone: set<Sub>): Dests {
    map d | d in dests && (dests[d] == [] || Keep(dests[d], gone) != []) :: Keep(dests[d], gone)
  }

  /** UNSUBSCRIBE */
  function Unsubscribed(ix: Index, conn: Conn, id: Option<string>): (Index, Reply) {
    if !Given(id) then (ix, MissingHeader)
    else if id.value !in IdsOf(ix.ids, conn) then (ix, NoSuchId)
    else
      var sub := IdsOf(ix.ids, conn)[id.value];
      (ix.(dests := Dropped(ix.dests, {sub}), ids := ix.ids[conn := IdsOf(ix.ids, conn) - {id.value}]), Accepted)
  }

  function Owned(ids: Ids, conn: Conn): set<Sub> {
    set id | id in IdsOf(ids, conn) :: IdsOf(ids, conn)[id]
  }

  /** remove_subscriptions, called when the connection closes. */
  function Closed(ix: Index, conn: Conn): Index {
    ix.(dests := Dropped(ix.dests, Owned(ix.ids, conn)), ids := ix.ids[conn := map[]])
  }

  /** Replying to a destination looks it up, which makes an empty list for a new one. */
  function LookedUp(ix: Index, d: string): Index {
    ix.(dests := ix.dests[d := ListOf(ix.dests, d)])
  }

  datatype Op =
    | Subscribe(conn: Conn, destination: Option<string>, subId: Option<string>)
    | Unsubscribe(conn: Conn, subId: Option<string>)
    | Close(conn: Conn)
    | Send(to: string)

  function Apply(ix: Index, op: Op): Index {
    match op
    case Subscribe(conn, destination, id) => Subscribed(ix, conn, destination, id).0
    case Unsubscribe(conn, id) => Unsubscribed(ix, conn, id).0
    case Close(conn) => Closed(ix, conn)
    case Send(to) => LookedUp(ix, to)
  }

  function ApplyAll(ops: seq<Op>): Index {
    if ops == [] then Fresh else Apply(ApplyAll(ops[..|ops| - 1]), ops[|ops| - 1])
  }

  // ----------------------------------------------------------------- invariant

  /** The plain set of subscriptions held by some connection. */
  ghost predicate Live(ids: Ids, x: Sub) {
    x.conn in ids && x.id in ids[x.conn] && ids[x.conn][x.id] == x
  }

  ghost predicate IdsOk(ids: Ids, created: nat) {
    forall c, i :: c in ids && i in ids[c] ==>
      ids[c][i].conn == c && ids[c][i].id == i && ids[c][i].serial < created
  }

  /** Every list holds, once each, exactly the members of live with that destination. */
  ghost predicate Indexed(dests: Dests, live: iset<Sub>) {
    && (forall d :: d in dests ==> Distinct(dests[d]))
    && (forall d, x :: d in dests && x in dests[d] ==> x in live && x.destination == d)
    && (forall x :: x in live ==> x.destination in dests && x in dests[x.destination])
  }

  ghost function LiveSet(ids: Ids): iset<Sub> {
    iset x: Sub | Live(ids, x)
  }

  ghost function Surviving(live: iset<Sub>, gone: set<Sub>): iset<Sub> {
    iset x | x in live && x !in gone
  }

  ghost predicate Inv(ix: Index) {
    IdsOk(ix.ids, ix.created) && Indexed(ix.dests, LiveSet(ix.ids))
  }

  // ------------------------------------------------------------- keeping a list

  lemma {:induction false} KeepMembers(subs: seq<Sub>, gone: set<Sub>)
    ensures forall x :: x in Keep(subs, gone) <==> x in subs && x !in gone
  {
    if subs != [] {
      KeepMembers(subs[1..], gone);
      assert subs == [subs[0]] + subs[1..];
    }
  }

  lemma {:induction false} KeepDistinct(subs: seq<Sub>, gone: set<Sub>)
    requires Distinct(subs)
    ensures Distinct(Keep(subs, gone))
  {
    if subs != [] {
      KeepDistinct(subs[1..], gone);
      KeepMembers(subs[1..], gone);
      assert subs[0] !in subs[1..];
    }
  }

  lemma {:induction false} KeepKeep(subs: seq<Sub>, a: set<Sub>, b: set<Sub>)
    ensures Keep(Keep(subs, a), b) == Keep(subs, a + b)
  {
    if subs != [] {
      KeepKeep(subs[1..], a, b);
      if subs[0] !in a {
        assert Keep(subs, a)[1..] == Keep(subs[1..], a);
      }
    }
  }

  lemma {:induction false} KeepAll(subs: seq<Sub>, gone: set<Sub>)
    requires forall x :: x in subs ==> x !in gone
    ensures Keep(subs, gone) == subs
  {
    if subs != [] {
      assert subs[0] in subs;
      assert forall x :: x in subs[1..] ==> x in subs;
      KeepAll(subs[1..], gone);
    }
  }

  /** Dropping subscriptions leaves an index of the rest. */
  lemma DroppedIndexed(dests: Dests, live: iset<Sub>, gone: set<Sub>)
    requires Indexed(dests, live)
    ensures Indexed(Dropped(dests, gone), Surviving(live, gone))
  {
    forall d | d in dests
      ensures Distinct(Keep(dests[d], gone))
      ensures forall x :: x in Keep(dests[d], gone) <==> x in dests[d] && x !in gone
    {
      KeepDistinct(dests[d], gone);
      KeepMembers(dests[d], gone);
    }
  }

  // ------------------------------------------------------------------- theorem

  lemma SubscribeKeeps(ix: Index, conn: Conn, destination: Option<string>, id: Option<string>)
    requires Inv(ix)
    ensures Inv(Subscribed(ix, conn, destination, id).0)
  {
    if Subscribed(ix, conn, destination, id).1 == Accepted {
      var sub := Sub(conn, id.value, destination.value, ix.created);
      AddedIds(ix.ids, ix.created, sub);
      AddedIndexed(ix.dests, LiveSet(ix.ids), sub);
    }
  }

  lemma AddedIds(ids: Ids, created: nat, sub: Sub)
    requires IdsOk(ids, created) && sub.id !in IdsOf(ids, sub.conn) && sub.serial == created
    ensures IdsOk(ids[sub.conn := IdsOf(ids, sub.conn)[sub.id := sub]], created + 1)
    ensures sub !in LiveSet(ids)
    ensures LiveSet(ids[sub.conn := IdsOf(ids, sub.conn)[sub.id := sub]]) == LiveSet(ids) + iset{sub}
  {
  }

  lemma AddedIndexed(dests: Dests, live: iset<Sub>, sub: Sub)
    requires Indexed(dests, live) && sub !in live
    ensures Indexed(dests[sub.destination := ListOf(dests, sub.destination) + [sub]], live + iset{sub})
  {
  }

  lemma RemovedIds(ids: Ids, created: nat, conn: Conn, id: string)
    requires IdsOk(ids, created) && conn in ids && id in ids[conn]
    ensures IdsOk(ids[conn := ids[conn] - {id}], created)
    ensures LiveSet(ids[conn := ids[conn] - {id}]) == Surviving(LiveSet(ids), {ids[conn][id]})
  {
  }

  lemma ClosedIds(ids: Ids, created: nat, conn: Conn)
    requires IdsOk(ids, created)
    ensures IdsOk(ids[conn := map[]], created)
    ensures LiveSet(ids[conn := map[]]) == Surviving(LiveSet(ids), Owned(ids, conn))
  {
  }

  lemma UnsubscribeKeeps(ix: Index, conn: Conn, id: Option<string>)
    requires Inv(ix)
    ensures Inv(Unsubscribed(ix, conn, id).0)
  {
    hide Indexed, IdsOk, LiveSet, Dropped, Surviving;
    if Unsubscribed(ix, conn, id).1 == Accepted {
      var sub := ix.ids[conn][id.value];
      DroppedIndexed(ix.dests, LiveSet(ix.ids), {sub});
      RemovedIds(ix.ids, ix.created, conn, id.value);
    }
  }

  lemma CloseKeeps(ix: Index, conn: Conn)
    requires Inv(ix)
    ensures Inv(Closed(ix, conn))
  {
    hide Indexed, IdsOk, LiveSet, Dropped, Surviving;
    DroppedIndexed(ix.dests, LiveSet(ix.ids), Owned(ix.ids, conn));
    ClosedIds(ix.ids, ix.created, conn);
  }

  lemma LookUpKeeps(ix: Index, d: string)
    requires Inv(ix)
    ensures Inv(LookedUp(ix, d))
  {
  }

  /**
   After any interleaving of commands and closings of any number of connections,
   the list of each destination holds, once each, exactly the live subscriptions
   to it.
   */
  lemma {:induction false} IndexAgrees(ops: seq<Op>)
    ensures Inv(ApplyAll(ops))
    ensures forall d, x :: (x in ListOf(ApplyAll(ops).dests, d) <==> Live(ApplyAll(ops).ids, x) && x.destination == d)
    ensures forall d :: Distinct(ListOf(ApplyAll(ops).dests, d))
  {
    if ops != [] {
      var before := ApplyAll(ops[..|ops| - 1]);
      IndexAgrees(ops[..|ops| - 1]);
      match ops[|ops| - 1]
      case Subscribe(conn, destination, id) => SubscribeKeeps(before, conn, destination, id);
      case Unsubscribe(conn, id) => UnsubscribeKeeps(before, conn, id);
      case Close(conn) => CloseKeeps(before, conn);
      case Send(to) => LookUpKeeps(before, to);
    }
    assert Inv(ApplyAll(ops));
    var ix := ApplyAll(ops);
    assert forall x :: x in LiveSet(ix.ids) <==> Live(ix.ids, x);
  }

  // ------------------------------------------------------------ find_subscribers

  /** The destination p, or a descendant of it: p is followed in d by a dot. */
  predicate Covers(p: string, d: string) {
    p == d || (|p| < |d| && d[..|p|] == p && d[|p|] == '.')
  }

  function Dot(d: string): (i: nat)
    ensures i <= |d|
    ensures i < |d| ==> d[i] == '.'
    ensures forall j :: 0 <= j < i ==> d[j] != '.'
  {
    if d == "" || d[0] == '.' then 0 else 1 + Dot(d[1..])
  }

  /** d.split(".") */
  function Split(d: string): (parts: seq<string>)
    ensures parts != []
    decreases |d|
  {
    var i := Dot(d);
    if i == |d| then [d] else [d[..i]] + Split(d[i + 1..])
  }

  /** The candidate built from the first k + 1 segments. */
  function Candidate(d: string, k: nat): string
    requires k < |Split(d)|
  {
    Join(Split(d)[..k + 1], ".")
  }

  /** The length of that candidate: where a dot, or the end of d, follows it. */
  function Cut(d: string, k: nat): (n: nat)
    requires k < |Split(d)|
    ensures n <= |d| && (n < |d| ==> d[n] == '.')
    decreases |d|
  {
    if k == 0 then Dot(d) else Dot(d) + 1 + Cut(d[Dot(d) + 1..], k - 1)
  }

  lemma Segments(d: string)
    ensures Dot(d) == |d| ==> Split(d) == [d]
    ensures Dot(d) < |d| ==> Split(d) == [d[..Dot(d)]] + Split(d[Dot(d) + 1..])
  {
    hide Dot;
  }

  lemma CutStep(d: string, k: nat)
    requires k < |Split(d)|
    ensures k == 0 ==> Cut(d, k) == Dot(d)
    ensures k > 0 ==> Dot(d) < |d| && k - 1 < |Split(d[Dot(d) + 1..])| &&
                      Cut(d, k) == Dot(d) + 1 + Cut(d[Dot(d) + 1..], k - 1)
  {
  }

  lemma {:induction false} CandidateIsCut(d: string, k: nat)
    requires k < |Split(d)|
    ensures Candidate(d, k) == d[..Cut(d, k)]
    decreases |d|
  {
    hide Split, Cut, Dot;
    Segments(d);
    CutStep(d, k);
    var i := Dot(d);
    if k == 0 {
      assert Split(d)[..1] == [Split(d)[0]];
      assert d[..|d|] == d;
    } else {
      var rest := d[i + 1..];
      CandidateIsCut(rest, k - 1);
      assert Split(d)[..k + 1] == [d[..i]] + Split(rest)[..k];
      hide Join;
      JoinStep(d[..i], Split(rest)[..k], ".");
      CutSplit(d, i, Cut(rest, k - 1));
    }
  }

  lemma CutSplit(d: string, i: nat, n: nat)
    requires i < |d| && d[i] == '.' && i + 1 + n <= |d|
    ensures d[..i] + "." + d[i + 1..][..n] == d[..i + 1 + n]
  {
  }

  lemma {:induction false} CutGrows(d: string, j: nat, k: nat)
    requires j < k < |Split(d)|
    ensures Cut(d, j) < Cut(d, k)
    decreases |d|
  {
    hide Split, Cut, Dot;
    CutStep(d, j);
    CutStep(d, k);
    if j > 0 {
      CutGrows(d[Dot(d) + 1..], j - 1, k - 1);
    }
  }

  /** Every dot, and the end of d, is the cut of some candidate. */
  lemma {:induction false} CutHits(d: string, n: nat) returns (k: nat)
    requires n <= |d| && (n < |d| ==> d[n] == '.')
    ensures k < |Split(d)| && Cut(d, k) == n
    decreases |d|
  {
    hide Split, Cut, Dot;
    var i := Dot(d);
    if n <= i {
      k := 0;
    } else {
      Segments(d);
      k := CutHits(d[i + 1..], n - i - 1);
      k := k + 1;
    }
    CutStep(d, k);
  }

  lemma CandidatesDiffer(d: string, j: nat, k: nat)
    requires j < k < |Split(d)|
    ensures Candidate(d, j) != Candidate(d, k)
  {
    CandidateIsCut(d, j);
    CandidateIsCut(d, k);
    CutGrows(d, j, k);
    hide Cut, Split;
    assert |d[..Cut(d, j)]| != |d[..Cut(d, k)]|;
  }

  /** The candidates are exactly what covers d. */
  lemma CandidateCovers(d: string, k: nat)
    requires k < |Split(d)|
    ensures Covers(Candidate(d, k), d)
  {
    CandidateIsCut(d, k);
    assert d[..|d|] == d;
  }

  lemma CoverIsCandidate(d: string, p: string) returns (k: nat)
    requires Covers(p, d)
    ensures k < |Split(d)| && Candidate(d, k) == p
  {
    k := CutHits(d, |p|);
    CandidateIsCut(d, k);
    assert d[..|d|] == d;
  }

  /** The subscriptions collected for the first k candidates. */
  function Found(dests: Dests, d: string, k: nat): seq<Sub>
    requires k <= |Split(d)|
  {
    if k == 0 then [] else Found(dests, d, k - 1) + ListOf(dests, Candidate(d, k - 1))
  }

  lemma {:induction false} FoundSoFar(dests: Dests, live: iset<Sub>, d: string, k: nat)
    requires Indexed(dests, live) && k <= |Split(d)|
    ensures Distinct(Found(dests, d, k))
    ensures forall x :: x in Found(dests, d, k) ==>
              x in live && exists j :: 0 <= j < k && x.destination == Candidate(d, j)
    ensures forall x, j :: x in live && 0 <= j < k && x.destination == Candidate(d, j) ==> x in Found(dests, d, k)
  {
    hide Candidate, Split;
    if k > 0 {
      FoundSoFar(dests, live, d, k - 1);
      var last := Candidate(d, k - 1);
      forall x | x in Found(dests, d, k - 1) ensures x.destination != last {
        var j :| 0 <= j < k - 1 && x.destination == Candidate(d, j);
        CandidatesDiffer(d, j, k - 1);
      }
      DisjointAppend(Found(dests, d, k - 1), ListOf(dests, last));
    }
  }

  lemma DisjointAppend(a: seq<Sub>, b: seq<Sub>)
    requires Distinct(a) && Distinct(b) && forall x :: x in a ==> x !in b
    ensures Distinct(a + b)
  {
    forall i, j | 0 <= i < j < |a + b| ensures (a + b)[i] != (a + b)[j] {
      if i < |a| <= j {
        assert a[i] in a && b[j - |a|] in b;
      }
    }
  }

  /**
   find_subscribers(d) returns, once each, exactly the live subscriptions whose
   destination is d or an ancestor of d.
   */
  lemma {:induction false} FoundExactly(dests: Dests, live: iset<Sub>, d: string)
    requires Indexed(dests, live)
    ensures Distinct(Found(dests, d, |Split(d)|))
    ensures forall x :: x in Found(dests, d, |Split(d)|) <==> x in live && Covers(x.destination, d)
  {
    hide Candidate, Split, Indexed;
    var n := |Split(d)|;
    FoundSoFar(dests, live, d, n);
    forall x ensures x in Found(dests, d, n) <==> x in live && Covers(x.destination, d) {
      if x in Found(dests, d, n) {
        var j :| 0 <= j < n && x.destination == Candidate(d, j);
        CandidateCovers(d, j);
      } else if x in live && Covers(x.destination, d) {
        var j := CoverIsCandidate(d, x.destination);
        assert false;
      }
    }
  }
}

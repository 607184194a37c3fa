/**
 The methods of the STOMP server that maintain and search the subscription
 index, as they update the shared map and the dictionaries in place.
 */
module SubscriptionServer {
  import opened Collections
  import opened Options
  import opened Subscriptions

  /** sub is in the list of its destination, once, and in no other list. */
  ghost predicate Listed(dests: Dests, sub: Sub) {
    && sub.destination in dests && sub in dests[sub.destination] && Distinct(dests[sub.destination])
    && forall d :: d in dests && d != sub.destination ==> sub !in dests[d]
  }

  /** subs.remove(sub): the first occurrence goes. */
  function RemoveFirst(subs: seq<Sub>, sub: Sub): seq<Sub> {
    if subs == [] then [] else if subs[0] == sub then subs[1..] else [subs[0]] + RemoveFirst(subs[1..], sub)
  }

  lemma {:induction false} RemoveFirstKeeps(subs: seq<Sub>, sub: Sub)
    requires Distinct(subs)
    ensures RemoveFirst(subs, sub) == Keep(subs, {sub})
  {
    if subs != [] {
      if subs[0] == sub {
        assert forall x :: x in subs[1..] ==> x !in {sub};
        KeepAll(subs[1..], {sub});
      } else {
        RemoveFirstKeeps(subs[1..], sub);
      }
    }
  }

  /** What is left when sub goes. */
  lemma {:induction false} DroppedOne(dests: Dests, sub: Sub)
    requires Listed(dests, sub)
    ensures |dests[sub.destination]| == 1 ==> Dropped(dests, {sub}) == dests - {sub.destination}
    ensures |dests[sub.destination]| != 1 ==>
              Dropped(dests, {sub}) == dests[sub.destination := RemoveFirst(dests[sub.destination], sub)]
  {
    var d, subs := sub.destination, dests[sub.destination];
    RemoveFirstKeeps(subs, sub);
    KeepMembers(subs, {sub});
    forall e | e in dests && e != d ensures Keep(dests[e], {sub}) == dests[e] {
      KeepAll(dests[e], {sub});
    }
    if |subs| == 1 {
      assert subs == [sub];
    } else {
      SomebodyLeft(subs, sub);
    }
  }

  lemma SomebodyLeft(subs: seq<Sub>, sub: Sub)
    requires Distinct(subs) && sub in subs && |subs| != 1
    ensures Keep(subs, {sub}) != []
  {
  }

  /** Dropping one after the other is dropping both. */
  lemma DroppedTwice(dests: Dests, a: set<Sub>, b: set<Sub>)
    ensures Dropped(Dropped(dests, a), b) == Dropped(dests, a + b)
  {
    forall d | d in dests ensures Keep(Keep(dests[d], a), b) == Keep(dests[d], a + b) {
      KeepKeep(dests[d], a, b);
    }
  }

  lemma StillListed(dests: Dests, live: iset<Sub>, gone: set<Sub>, sub: Sub)
    requires Indexed(dests, live) && sub in live && sub !in gone
    ensures Listed(Dropped(dests, gone), sub)
  {
    DroppedIndexed(dests, live, gone);
    assert sub in Surviving(live, gone);
  }

  lemma OwnedAreLive(ids: Ids, created: nat, conn: Conn)
    requires IdsOk(ids, created)
    ensures forall x :: x in Owned(ids, conn) ==> x in LiveSet(ids)
  {
  }

  lemma InvIndexed(ix: Index)
    requires Inv(ix)
    ensures Indexed(ix.dests, LiveSet(ix.ids))
  {
  }

  lemma OneMoreGone(all: set<Sub>, todo: set<Sub>, sub: Sub)
    requires todo <= all && sub in todo
    ensures all - (todo - {sub}) == (all - todo) + {sub}
  {
  }

  class Adapters {
    var dests: Dests
    var ids: Ids
    var created: nat

    ghost function View(): Index
      reads this
    {
      Index(dests, ids, created)
    }

    constructor ()
      ensures View() == Fresh && Inv(View())
    {
      dests, ids, created := map[], map[], 0;
      new;
      IndexAgrees([]);
    }

    /** _cmd_subscribe */
    method Subscribe(conn: Conn, destination: Option<string>, id: Option<string>) returns (reply: Reply)
      requires Inv(View())
      modifies this
      ensures (View(), reply) == Subscribed(old(View()), conn, destination, id)
      ensures Inv(View())
    {
      SubscribeKeeps(View(), conn, destination, id);
      if !Given(destination) || !Given(id) {
        return MissingHeader;
      }
      var mine := IdsOf(ids, conn);
      if id.value in mine {
        return IdExists;
      }
      var sub := Sub(conn, id.value, destination.value, created);
      created := created + 1;
      dests := dests[sub.destination := ListOf(dests, sub.destination) + [sub]];
      ids := ids[conn := mine[sub.id := sub]];
      return Accepted;
    }

    /** _remove_subscription */
    method RemoveSubscription(sub: Sub)
      requires Listed(dests, sub)
      modifies this`dests
      ensures dests == Dropped(old(dests), {sub})
    {
      DroppedOne(dests, sub);
      var subs := dests[sub.destination];
      if |subs| == 1 {
        dests := dests - {sub.destination};
      } else if sub in subs {
        dests := dests[sub.destination := RemoveFirst(subs, sub)];
      }
    }

    /** _cmd_unsubscribe */
    method Unsubscribe(conn: Conn, id: Option<string>) returns (reply: Reply)
      requires Inv(View())
      modifies this
      ensures (View(), reply) == Unsubscribed(old(View()), conn, id)
      ensures Inv(View())
    {
      UnsubscribeKeeps(View(), conn, id);
      if !Given(id) {
        return MissingHeader;
      }
      var mine := IdsOf(ids, conn);
      if id.value !in mine {
        return NoSuchId;
      }
      var sub := mine[id.value];
      assert Live(ids, sub) && sub in LiveSet(ids);
      assert Listed(dests, sub);
      ids := ids[conn := mine - {id.value}];
      RemoveSubscription(sub);
      return Accepted;
    }

    /** remove_subscriptions: a loop over the values of the dictionary. */
    method RemoveSubscriptions(conn: Conn)
      requires Inv(View())
      modifies this
      ensures View() == Closed(old(View()), conn)
      ensures Inv(View())
    {
      CloseKeeps(View(), conn);
      OwnedAreLive(ids, created, conn);
      hide Inv, Indexed, Dropped, Owned, LiveSet, Listed;
      ghost var before, live, all := dests, LiveSet(ids), Owned(ids, conn);
      assert Indexed(before, live) by {
        InvIndexed(View());
      }
      var todo := Owned(ids, conn);
      DroppedNothing(dests);
      assert all - todo == {};
      while todo != {}
        invariant ids == old(ids) && created == old(created)
        invariant todo <= all
        invariant dests == Dropped(before, all - todo)
        decreases todo
      {
        var sub :| sub in todo;
        StillListed(before, live, all - todo, sub);
        DroppedTwice(before, all - todo, {sub});
        RemoveSubscription(sub);
        OneMoreGone(all, todo, sub);
        todo := todo - {sub};
      }
      assert all - {} == all;
      ids := ids[conn := map[]];
    }

    /** find_subscribers: a loop over the prefixes made of whole segments. */
    method FindSubscribers(destination: string) returns (subs: seq<Sub>)
      requires Inv(View())
      ensures Distinct(subs)
      ensures forall x :: x in subs <==> Live(ids, x) && Covers(x.destination, destination)
    {
      var segments := Split(destination);
      subs := [];
      for parts := 0 to |segments|
        invariant subs == Found(dests, destination, parts)
      {
        var candidate := Join(segments[..parts + 1], ".");
        if candidate in dests {
          subs := subs + dests[candidate];
        }
      }
      FoundExactly(dests, LiveSet(ids), destination);
    }
  }

  lemma DroppedNothing(dests: Dests)
    ensures Dropped(dests, {}) == dests
  {
    forall d | d in dests ensures Keep(dests[d], {}) == dests[d] {
      KeepAll(dests[d], {});
    }
  }
}

/**
 One direction of a STOMP connection from end to end: the outbox of the server
 adapter (lib/yajsonrpc/stompserver.py), the writer that survives partial sends
 (lib/yajsonrpc/stomp.py, AsyncDispatcher.handle_write), the bytes in flight and
 the parser of the peer.
 */
module StompLink {
  import opened Bytes
  import opened Options
  import opened StompCodec
  import opened StompFrame
  import opened StompParser
  import opened StompDelivery

  // ---------------------------------------------------------------- the writer

  /** "SEND", the only command the writer tries to queue again. */
  const SEND: bytes := [83, 69, 78, 68]

  /** The outbox, the encoded head of it, and all bytes handed to the socket. */
  datatype Sender = Sender(outbox: seq<Item>, outbuf: Option<bytes>, sent: bytes, closed: bool)

  /** A partly written head stays in the outbox until its last byte is out. */
  predicate WellFormed(s: Sender) {
    s.outbuf.Some? ==> s.outbox != [] && s.outbuf.value != []
  }

  function Drained(s: Sender): bool { s.outbox == [] && s.outbuf.None? }

  /** The bytes that are queued and not yet handed to the socket. */
  function Unsent(s: Sender): bytes
    requires WellFormed(s)
  {
    if s.outbuf.None? then EncodeAll(s.outbox) else s.outbuf.value + EncodeAll(s.outbox[1..])
  }

  /** Encoding the head also stamps its content-length header. */
  function Load(s: Sender): Sender
    requires WellFormed(s) && !Drained(s)
  {
    if s.outbuf.Some? then s
    else
      var head := s.outbox[0];
      s.(outbuf := Some(EncodeItem(head)),
         outbox := s.outbox[0 := if head.Heartbeat? then head else Message(Stamped(head.frame))])
  }

  /**
   A send that accepts nothing is retried later, except that the writer looks
   at the command of the head: a heartbeat has none and the server adapter
   cannot queue a SEND again.  Either exception closes the connection.
   */
  predicate RefusalCloses(head: Item) {
    head.Heartbeat? || head.frame.command == SEND
  }

  /** How many bytes the socket takes; sends beyond the list would block. */
  function Accepted(accepts: seq<nat>, data: bytes): nat {
    if accepts == [] then 0 else if accepts[0] < |data| then accepts[0] else |data|
  }

  /** AsyncDispatcher.handle_write, given what each send accepts. */
  function Written(s: Sender, accepts: seq<nat>): Sender
    requires WellFormed(s)
    decreases |s.outbox|
  {
    if s.closed || Drained(s) then s
    else
      var t := Load(s);
      var data := t.outbuf.value;
      var n := Accepted(accepts, data);
      if n == 0 then t.(closed := RefusalCloses(t.outbox[0]))
      else if n < |data| then t.(outbuf := Some(data[n..]), sent := t.sent + data[..n])
      else Written(Sender(t.outbox[1..], None, t.sent + data, false), accepts[1..])
  }

  lemma EncodedNotEmpty(item: Item)
    ensures EncodeItem(item) != []
  {
  }

  lemma LoadKeeps(s: Sender)
    requires WellFormed(s) && !Drained(s)
    ensures WellFormed(Load(s)) && Unsent(Load(s)) == Unsent(s)
  {
  }

  /**
   Conservation: whatever the socket accepts, the bytes sent followed by the
   bytes waiting stay the same stream.  A call that leaves the connection open
   either drains the outbox or stops inside one frame.
   */
  lemma {:induction false} WrittenConserves(s: Sender, accepts: seq<nat>)
    requires WellFormed(s)
    ensures WellFormed(Written(s, accepts))
    ensures Written(s, accepts).sent + Unsent(Written(s, accepts)) == s.sent + Unsent(s)
    ensures s.sent <= Written(s, accepts).sent
    ensures var t := Written(s, accepts); t.closed || Drained(t) || t.outbuf.Some?
    decreases |s.outbox|
  {
    if !(s.closed || Drained(s)) {
      LoadKeeps(s);
      var t := Load(s);
      var data, rest := t.outbuf.value, EncodeAll(t.outbox[1..]);
      var n := Accepted(accepts, data);
      if n == |data| {
        var next := Sender(t.outbox[1..], None, t.sent + data, false);
        WrittenConserves(next, accepts[1..]);
        Assoc(t.sent, data, rest);
      } else if n > 0 {
        SplitStream(t.sent, data, rest, n);
      }
    }
  }

  lemma SplitStream(sent: bytes, data: bytes, rest: bytes, n: nat)
    requires n <= |data|
    ensures sent + data[..n] + (data[n..] + rest) == sent + (data + rest)
  {
  }

  /** The dispatcher object of the server side: outbox and write buffer. */
  class Dispatcher {
    var outbox: seq<Item>
    var outbuf: Option<bytes>
    var sent: bytes
    var closed: bool

    ghost function View(): Sender
      reads this
    {
      Sender(outbox, outbuf, sent, closed)
    }

    constructor ()
      ensures View() == Sender([], None, [], false)
    {
      outbox, outbuf, sent, closed := [], None, [], false;
    }

    method QueueFrame(item: Item)
      modifies this`outbox
      ensures outbox == old(outbox) + [item]
    {
      outbox := outbox + [item];
    }

    /** The loop of handle_write; accepts lists the results of the send calls. */
    method HandleWrite(accepts: seq<nat>)
      requires WellFormed(View())
      modifies this
      ensures WellFormed(View()) && View() == Written(old(View()), accepts)
    {
      var i := 0;
      while !closed
        invariant i <= |accepts|
        invariant WellFormed(View())
        invariant Written(View(), accepts[i..]) == Written(old(View()), accepts)
        decreases !closed, |outbox|
      {
        if outbuf.None? {
          if outbox == [] {
            return;
          }
          EncodedNotEmpty(outbox[0]);
          LoadHead();
        }
        var data := outbuf.value;
        var n := Accepted(accepts[i..], data);
        if n == 0 {
          closed := RefusalCloses(outbox[0]);
          return;
        }
        if n < |data| {
          sent := sent + data[..n];
          outbuf := Some(data[n..]);
          return;
        }
        sent := sent + data;
        outbuf := None;
        outbox := outbox[1..];
        assert accepts[i..][1..] == accepts[i + 1..];
        i := i + 1;
      }
    }

    /** peek_message() and encode(). */
    method LoadHead()
      requires outbox != [] && outbuf.None?
      modifies this`outbox, this`outbuf
      ensures View() == Load(old(View()))
    {
      match outbox[0]
      case Heartbeat =>
        outbuf := Some([LF]);
        assert outbox[0 := outbox[0]] == outbox;
      case Message(f) =>
        var frame, wire := EncodeFrame(f);
        outbuf := Some(wire);
        outbox := outbox[0 := Message(frame)];
    }
  }

  // ------------------------------------------------------------ the whole link

  /** Everything queued so far, the writer, and the peer that has read a prefix. */
  datatype Link = Link(
    queued: seq<Item>, sender: Sender, read: nat, peer: Verdict, handled: seq<Frame>)

  const Fresh := Link([], Sender([], None, [], false), 0, Fed(Initial), [])

  datatype Action =
    | QueueItem(item: Item)          // queue_frame
    | HandleWrite(accepts: seq<nat>) // the socket is writable
    | HandleRead(count: nat)         // recv and parse
    | HandleFrame                    // pop_frame

  /** An action that is not possible leaves the link alone. */
  function Apply(l: Link, a: Action): Link
    requires WellFormed(l.sender)
  {
    match a
    case QueueItem(item) =>
      l.(queued := l.queued + [item], sender := l.sender.(outbox := l.sender.outbox + [item]))
    case HandleWrite(accepts) => l.(sender := Written(l.sender, accepts))
    case HandleRead(count) =>
      if l.peer.Fed? && l.read + count <= |l.sender.sent| then
        l.(peer := Feed(l.peer.state, l.sender.sent[l.read..l.read + count]), read := l.read + count)
      else l
    case HandleFrame =>
      var s := l.peer.state;
      if l.peer.Fed? && s.frames != [] then
        l.(peer := Fed(s.(frames := s.frames[1..])), handled := l.handled + [s.frames[0]])
      else l
  }

  /** The peer is where parsing the bytes read so far in one piece would put it. */
  ghost predicate InStep(start: State, read: bytes, peer: Verdict, handled: seq<Frame>) {
    peer.Fed? && Feed(start, read) == Fed(Behind(peer.state, handled))
  }

  ghost predicate AllSendable(items: seq<Item>) {
    forall i :: 0 <= i < |items| ==> Sendable(items[i])
  }

  ghost predicate StreamInv(queued: seq<Item>, s: Sender) {
    WellFormed(s) && s.sent + Unsent(s) == EncodeAll(queued)
  }

  ghost predicate Inv(l: Link) {
    && AllSendable(l.queued)
    && StreamInv(l.queued, l.sender)
    && l.read <= |l.sender.sent|
    && InStep(Initial, l.sender.sent[..l.read], l.peer, l.handled)
  }

  lemma QueueKeepsStream(s: Sender, queued: seq<Item>, item: Item)
    requires WellFormed(s) && s.sent + Unsent(s) == EncodeAll(queued)
    ensures var t := s.(outbox := s.outbox + [item]);
            WellFormed(t) && t.sent + Unsent(t) == EncodeAll(queued + [item])
  {
    var t := s.(outbox := s.outbox + [item]);
    assert Unsent(t) == Unsent(s) + EncodeItem(item) by {
      UnsentGrows(s, item);
    }
    EncodeAllAppend(queued, item);
    Assoc(s.sent, Unsent(s), EncodeItem(item));
  }

  lemma UnsentGrows(s: Sender, item: Item)
    requires WellFormed(s)
    ensures Unsent(s.(outbox := s.outbox + [item])) == Unsent(s) + EncodeItem(item)
  {
    if s.outbuf.None? {
      EncodeAllAppend(s.outbox, item);
    } else {
      assert (s.outbox + [item])[1..] == s.outbox[1..] + [item];
      EncodeAllAppend(s.outbox[1..], item);
      Assoc(s.outbuf.value, EncodeAll(s.outbox[1..]), EncodeItem(item));
    }
  }

  /** A sendable stream, read whole, leaves a clean parser. */
  lemma WholeStream(items: seq<Item>)
    requires AllSendable(items)
    ensures Feed(Initial, EncodeAll(items)) == Fed(State(InCommand, [], Expected(items)))
  {
    StreamParsed(items, [], []);
    NothingAdded(EncodeAll(items), Expected(items));
  }

  lemma NothingAdded(stream: bytes, frames: seq<Frame>)
    ensures stream + [] == stream && [] + frames == frames
    ensures Append(Initial, stream) == State(InCommand, stream, [])
    ensures Run(State(InCommand, [], frames)) == Fed(State(InCommand, [], frames))
  {
  }

  /** No prefix of a sendable stream breaks the parser. */
  lemma PrefixOfStream(start: State, items: seq<Item>, prefix: bytes, clean: State)
    requires Feed(start, EncodeAll(items)) == Fed(clean)
    requires prefix <= EncodeAll(items)
    ensures Feed(start, prefix).Fed?
    ensures Feed(start, prefix).state.frames <= clean.frames
  {
    var rest := EncodeAll(items)[|prefix|..];
    assert prefix + rest == EncodeAll(items);
    PrefixFed(start, prefix, rest);
  }

  lemma ReadKeepsStep(start: State, sent: bytes, read: nat, count: nat, peer: Verdict, handled: seq<Frame>)
    requires read + count <= |sent|
    requires InStep(start, sent[..read], peer, handled)
    requires Feed(start, sent[..read + count]).Fed?
    ensures InStep(start, sent[..read + count], Feed(peer.state, sent[read..read + count]), handled)
  {
    assert sent[..read] + sent[read..read + count] == sent[..read + count];
    FeedOn(start, sent[..read], sent[read..read + count], peer.state, handled);
  }

  lemma SentPrefixParses(queued: seq<Item>, s: Sender, read: nat)
    requires AllSendable(queued) && StreamInv(queued, s) && read <= |s.sent|
    ensures Feed(Initial, s.sent[..read]).Fed?
    ensures Feed(Initial, s.sent[..read]).state.frames <= Expected(queued)
  {
    WholeStream(queued);
    assert s.sent[..read] <= EncodeAll(queued);
    PrefixOfStream(Initial, queued, s.sent[..read], State(InCommand, [], Expected(queued)));
  }

  lemma ReadKeepsInv(l: Link, count: nat)
    requires Inv(l)
    ensures Inv(Apply(l, HandleRead(count)))
  {
    hide Run, EncodeAll, Unsent, Expected;
    if l.read + count <= |l.sender.sent| {
      var fed := Feed(l.peer.state, l.sender.sent[l.read..l.read + count]);
      assert InStep(Initial, l.sender.sent[..l.read + count], fed, l.handled) by {
        SentPrefixParses(l.queued, l.sender, l.read + count);
        ReadKeepsStep(Initial, l.sender.sent, l.read, count, l.peer, l.handled);
      }
      PeerMoved(l, fed, l.read + count);
    }
  }

  lemma PeerMoved(l: Link, fed: Verdict, read: nat)
    requires Inv(l) && read <= |l.sender.sent|
    requires InStep(Initial, l.sender.sent[..read], fed, l.handled)
    ensures Inv(l.(peer := fed, read := read))
  {
  }

  lemma TakeKeepsStep(start: State, read: bytes, s: State, handled: seq<Frame>)
    requires InStep(start, read, Fed(s), handled) && s.frames != []
    ensures InStep(start, read, Fed(s.(frames := s.frames[1..])), handled + [s.frames[0]])
  {
  }

  lemma HandleFrameKeepsInv(l: Link)
    requires Inv(l)
    ensures Inv(Apply(l, HandleFrame))
  {
    if l.peer.state.frames != [] {
      TakeKeepsStep(Initial, l.sender.sent[..l.read], l.peer.state, l.handled);
    }
  }

  lemma WriteKeepsInv(l: Link, accepts: seq<nat>)
    requires Inv(l)
    ensures Inv(Apply(l, HandleWrite(accepts)))
  {
    WrittenConserves(l.sender, accepts);
    assert Written(l.sender, accepts).sent[..l.read] == l.sender.sent[..l.read];
  }

  lemma QueueKeepsInv(l: Link, item: Item)
    requires Inv(l) && Sendable(item)
    ensures Inv(Apply(l, QueueItem(item)))
  {
    QueueKeepsStream(l.sender, l.queued, item);
  }

  lemma ApplyKeepsInv(l: Link, a: Action)
    requires Inv(l)
    requires a.QueueItem? ==> Sendable(a.item)
    ensures Inv(Apply(l, a))
  {
    match a
    case QueueItem(item) => QueueKeepsInv(l, item);
    case HandleWrite(accepts) => WriteKeepsInv(l, accepts);
    case HandleRead(count) => ReadKeepsInv(l, count);
    case HandleFrame => HandleFrameKeepsInv(l);
  }

  /** States reached by any interleaving of queueing, sending, reading and handling. */
  ghost predicate Reaches(actions: seq<Action>, l: Link)
    decreases |actions|
  {
    if actions == [] then l == Fresh
    else
      var last := actions[|actions| - 1];
      exists before: Link ::
        && Reaches(actions[..|actions| - 1], before)
        && WellFormed(before.sender)
        && l == Apply(before, last)
  }

  lemma {:induction false} ReachableInv(actions: seq<Action>, l: Link)
    requires Reaches(actions, l)
    requires forall i :: 0 <= i < |actions| && actions[i].QueueItem? ==> Sendable(actions[i].item)
    ensures Inv(l)
    decreases |actions|
  {
    if actions == [] {
      assert Append(Initial, []) == Initial;
      assert Behind(Initial, []) == Initial;
    } else {
      var n := |actions| - 1;
      var before: Link :| Reaches(actions[..n], before) && WellFormed(before.sender) && l == Apply(before, actions[n]);
      ReachableInv(actions[..n], before);
      ApplyKeepsInv(before, actions[n]);
    }
  }

  /**
   End to end: after any run, the peer never raised, and the frames it handled
   or holds are a prefix of the queued ones (heartbeats dropped, content-length
   added, a missing body read as empty).  Once the outbox has drained and all
   bytes are read, they are exactly those, and the parser is clean.
   */
  lemma {:induction false} EndToEnd(actions: seq<Action>, l: Link)
    requires Reaches(actions, l)
    requires forall i :: 0 <= i < |actions| && actions[i].QueueItem? ==> Sendable(actions[i].item)
    ensures l.peer.Fed?
    ensures l.handled + l.peer.state.frames <= Expected(l.queued)
    ensures Drained(l.sender) && l.read == |l.sender.sent| ==>
              && l.handled + l.peer.state.frames == Expected(l.queued)
              && l.peer.state.mode == InCommand && l.peer.state.buffer == []
  {
    ReachableInv(actions, l);
    SentPrefixParses(l.queued, l.sender, l.read);
    if Drained(l.sender) && l.read == |l.sender.sent| {
      assert l.sender.sent[..l.read] == EncodeAll(l.queued);
      WholeStream(l.queued);
    }
  }
}

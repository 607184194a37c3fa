/**
 The incremental STOMP parser (lib/yajsonrpc/stomp.py, class Parser): the
 state machine as a step function, the object that runs it, and the theorem
 that the way a stream is cut into reads does not matter.
 */
module StompParser {
  import opened Bytes
  import opened Collections
  import opened Options
  import opened StompCodec
  import opened StompFrame

  // ------------------------------------------------------- the state machine

  /** The parsing state together with the frame under construction. */
  datatype Mode =
    | InCommand
    | InHeaders(frame: Frame)
    | InBody(frame: Frame, contentLength: int)

  datatype State = State(mode: Mode, buffer: bytes, frames: seq<Frame>)

  const Initial := State(InCommand, [], [])

  /** One call of the state callback: False, True, or an exception. */
  datatype Outcome = Blocked | Advanced(next: State) | Raised(at: State)

  /** Position of the first terminator, or the length when there is none. */
  function Find(buffer: bytes, terminator: byte): (i: nat)
    ensures i <= |buffer|
    ensures i < |buffer| ==> buffer[i] == terminator
    ensures forall j :: 0 <= j < i ==> buffer[j] != terminator
  {
    if buffer == [] || buffer[0] == terminator then 0 else 1 + Find(buffer[1..], terminator)
  }

  function StripCR(line: bytes): bytes {
    if line != [] && line[|line| - 1] == CR then line[..|line| - 1] else line
  }

  /** The transition on a complete line in the command state. */
  function OnCommand(line: bytes): Option<Mode> {
    if StripCR(line) == [] then Some(InCommand)
    else
      match DecodeValue(StripCR(line))
      case None => None
      case Some(command) => Some(InHeaders(Frame(command, [], None)))
  }

  /** The value int(headers.get("content-length", -1)); None is a ValueError. */
  function ContentLength(h: Headers): Option<int> {
    if Lookup(h, CONTENT_LENGTH).None? then Some(-1) else ParseInt(Lookup(h, CONTENT_LENGTH).value)
  }

  /** The transition on a complete line in the header state. */
  function OnHeader(frame: Frame, line: bytes): Option<Mode> {
    var header := StripCR(line);
    if header == [] then
      match ContentLength(frame.headers)
      case None => None
      case Some(n) => Some(InBody(frame, n))
    else OnHeaderText(frame, header)
  }

  /** A header line is split at its first colon; the first value of a key stays. */
  function OnHeaderText(frame: Frame, header: bytes): Option<Mode> {
    var colon := Find(header, COLON);
    if colon == |header| then None
    else
      match (DecodeValue(header[..colon]), DecodeValue(header[colon + 1..]))
      case (Some(key), Some(value)) =>
        Some(InHeaders(frame.(headers := SetDefault(frame.headers, key, value))))
      case _ => None
  }

  /** The first line of the buffer is consumed even when it is rejected. */
  function OnLine(s: State, mode: Option<Mode>, rest: bytes): Outcome {
    match mode
    case None => Raised(s.(buffer := rest))
    case Some(m) => Advanced(State(m, rest, s.frames))
  }

  function Step(s: State): Outcome {
    match s.mode
    case InCommand =>
      var i := Find(s.buffer, LF);
      if i == |s.buffer| then Blocked
      else OnLine(s, OnCommand(s.buffer[..i]), s.buffer[i + 1..])
    case InHeaders(frame) =>
      var i := Find(s.buffer, LF);
      if i == |s.buffer| then Blocked
      else OnLine(s, OnHeader(frame, s.buffer[..i]), s.buffer[i + 1..])
    case InBody(frame, n) =>
      if n < 0 then
        var i := Find(s.buffer, NUL);
        if i == |s.buffer| then Blocked
        else Advanced(Push(frame, s.buffer[..i], s.buffer[i + 1..], s.frames))
      else if |s.buffer| < n + 1 then Blocked
      else if s.buffer[n] != NUL then Raised(s)
      else Advanced(Push(frame, s.buffer[..n], s.buffer[n + 1..], s.frames))
  }

  function Push(frame: Frame, body: bytes, rest: bytes, frames: seq<Frame>): State {
    State(InCommand, rest, frames + [frame.(body := Some(body))])
  }

  /** Parser.parse ends with a state that waits for data, or with an exception. */
  datatype Verdict = Fed(state: State) | Broken(state: State)

  /** The loop of Parser.parse; every turn shortens the buffer. */
  function Run(s: State): Verdict
    decreases |s.buffer|
  {
    match Step(s)
    case Blocked => Fed(s)
    case Raised(at) => Broken(at)
    case Advanced(next) => Run(next)
  }

  /** What makes the loop terminate. */
  lemma StepShrinks(s: State)
    ensures Step(s).Advanced? ==> |Step(s).next.buffer| < |s.buffer|
    ensures Step(s).Advanced? ==> Run(s) == Run(Step(s).next)
  {
  }

  function Append(s: State, data: bytes): State { s.(buffer := s.buffer + data) }

  /** One call of Parser.parse. */
  function Feed(s: State, data: bytes): Verdict { Run(Append(s, data)) }

  // ------------------------------------------------------ chunk independence

  lemma {:induction false} FindAppend(buffer: bytes, more: bytes, terminator: byte)
    requires Find(buffer, terminator) < |buffer|
    ensures Find(buffer + more, terminator) == Find(buffer, terminator)
  {
    if buffer[0] != terminator {
      assert (buffer + more)[1..] == buffer[1..] + more;
      FindAppend(buffer[1..], more, terminator);
    }
  }

  /** More data never changes a step that could already be taken. */
  lemma {:induction false} StepAppend(s: State, data: bytes)
    ensures Step(s).Advanced? ==> Step(Append(s, data)) == Advanced(Append(Step(s).next, data))
    ensures Step(s).Raised? ==> Step(Append(s, data)) == Raised(Append(Step(s).at, data))
  {
    hide Find, OnCommand, OnHeader;
    if s.mode.InBody? {
      BodyStepAppend(s, data);
    } else {
      LineAppend(s.buffer, data, LF);
    }
  }

  lemma BodyStepAppend(s: State, data: bytes)
    requires s.mode.InBody?
    ensures Step(s).Advanced? ==> Step(Append(s, data)) == Advanced(Append(Step(s).next, data))
    ensures Step(s).Raised? ==> Step(Append(s, data)) == Raised(Append(Step(s).at, data))
  {
    if s.mode.contentLength < 0 {
      LineAppend(s.buffer, data, NUL);
    } else {
      PrefixAppend(s.buffer, data, s.mode.contentLength);
    }
  }

  lemma PrefixAppend(buffer: bytes, more: bytes, n: nat)
    ensures n < |buffer| ==>
              && (buffer + more)[n] == buffer[n]
              && (buffer + more)[..n] == buffer[..n]
              && (buffer + more)[n + 1..] == buffer[n + 1..] + more
  {
  }

  lemma LineAppend(buffer: bytes, more: bytes, terminator: byte)
    ensures var i := Find(buffer, terminator);
            i < |buffer| ==>
              && Find(buffer + more, terminator) == i
              && (buffer + more)[..i] == buffer[..i]
              && (buffer + more)[i + 1..] == buffer[i + 1..] + more
  {
    if Find(buffer, terminator) < |buffer| {
      FindAppend(buffer, more, terminator);
    }
  }

  /** Parsing in two calls is parsing in one. */
  lemma {:induction false} RunAppend(s: State, data: bytes)
    ensures Run(s).Fed? ==> Run(Append(s, data)) == Feed(Run(s).state, data)
    ensures Run(s).Broken? ==> Run(Append(s, data)) == Broken(Append(Run(s).state, data))
    decreases |s.buffer|
  {
    StepAppend(s, data);
    if Step(s).Advanced? {
      RunAppend(Step(s).next, data);
    }
  }

  /** A sequence of parse calls; after an exception the rest stays unread. */
  datatype Reading = Reading(verdict: Verdict, unread: seq<bytes>)

  function FeedAll(s: State, chunks: seq<bytes>): Reading
    decreases |chunks|
  {
    if chunks == [] then Reading(Fed(s), [])
    else
      match Feed(s, chunks[0])
      case Fed(next) => FeedAll(next, chunks[1..])
      case Broken(at) => Reading(Broken(at), chunks[1..])
  }

  /** Between two calls the parser waits for data. */
  predicate Waiting(s: State) { Step(s).Blocked? }

  lemma {:induction false} RunEndsWaiting(s: State)
    ensures Run(s).Fed? ==> Waiting(Run(s).state)
    decreases |s.buffer|
  {
    if Step(s).Advanced? {
      RunEndsWaiting(Step(s).next);
    }
  }

  lemma AppendAppend(s: State, a: bytes, b: bytes)
    ensures Append(Append(s, a), b) == Append(s, a + b)
  {
  }

  lemma FeedTwice(s: State, a: bytes, b: bytes)
    ensures Feed(s, a).Fed? ==> Feed(s, a + b) == Feed(Feed(s, a).state, b)
    ensures Feed(s, a).Broken? ==> Feed(s, a + b) == Broken(Append(Feed(s, a).state, b))
  {
    AppendAppend(s, a, b);
    RunAppend(Append(s, a), b);
  }

  /**
   Chunk independence: any split of a stream gives the frames, the state and
   the leftover buffer of the whole stream fed at once.  A stream that raises
   does so under every split, at the same step, and the buffer left behind by
   the whole stream is the one left behind by the split plus the unread chunks.
   */
  lemma {:induction false} ChunkIndependence(s: State, chunks: seq<bytes>)
    requires Waiting(s)
    ensures var split, whole := FeedAll(s, chunks), Feed(s, Flatten(chunks));
            match split.verdict
            case Fed(state) => whole == Fed(state) && split.unread == []
            case Broken(at) => whole == Broken(Append(at, Flatten(split.unread)))
    decreases |chunks|
  {
    if chunks == [] {
      assert Append(s, []) == s;
    } else {
      var head, tail := chunks[0], chunks[1..];
      FeedTwice(s, head, Flatten(tail));
      if Feed(s, head).Fed? {
        RunEndsWaiting(Append(s, head));
        ChunkIndependence(Feed(s, head).state, tail);
      }
    }
  }

  // ------------------------------------------- frames already parsed are inert

  function Behind(s: State, earlier: seq<Frame>): State { s.(frames := earlier + s.frames) }

  function BehindVerdict(v: Verdict, earlier: seq<Frame>): Verdict {
    match v
    case Fed(s) => Fed(Behind(s, earlier))
    case Broken(s) => Broken(Behind(s, earlier))
  }

  /** The queue of finished frames never influences parsing. */
  lemma {:induction false} RunBehind(s: State, earlier: seq<Frame>)
    ensures Run(Behind(s, earlier)) == BehindVerdict(Run(s), earlier)
    decreases |s.buffer|
  {
    match Step(s)
    case Blocked =>
    case Raised(at) =>
    case Advanced(next) =>
      StepBehind(s, earlier);
      RunBehind(next, earlier);
  }

  lemma StepBehind(s: State, earlier: seq<Frame>)
    requires Step(s).Advanced?
    ensures Step(Behind(s, earlier)) == Advanced(Behind(Step(s).next, earlier))
  {
  }

  lemma FeedBehind(s: State, earlier: seq<Frame>, data: bytes)
    ensures Feed(Behind(s, earlier), data) == BehindVerdict(Feed(s, data), earlier)
  {
    RunBehind(Append(s, data), earlier);
  }

  /** Parsing only ever adds frames at the end of the queue. */
  lemma {:induction false} RunKeepsFrames(s: State)
    ensures s.frames <= Run(s).state.frames
    decreases |s.buffer|
  {
    if Step(s).Advanced? {
      RunKeepsFrames(Step(s).next);
    }
  }

  /** A prefix of a stream that parses also parses, to a prefix of its frames. */
  lemma {:induction false} PrefixFed(s: State, a: bytes, b: bytes)
    requires Feed(s, a + b).Fed?
    ensures Feed(s, a).Fed? && Feed(s, a).state.frames <= Feed(s, a + b).state.frames
  {
    FeedTwice(s, a, b);
    RunKeepsFrames(Append(Feed(s, a).state, b));
  }

  /** Reading on while earlier frames have already been taken off the queue. */
  lemma FeedOn(s: State, a: bytes, b: bytes, now: State, taken: seq<Frame>)
    requires Feed(s, a) == Fed(Behind(now, taken))
    ensures Feed(s, a + b) == BehindVerdict(Feed(now, b), taken)
  {
    FeedTwice(s, a, b);
    FeedBehind(now, taken, b);
  }

  // ---------------------------------------------------------- the parser object

  datatype Phase = STATE_CMD | STATE_HEADER | STATE_BODY

  /** What the state callback reports to the loop of parse. */
  datatype Reply = Wait | Again | Error

  class Parser {
    var phase: Phase
    var buffer: bytes
    var tmpFrame: Option<Frame>
    var contentLength: int
    var frames: seq<Frame>

    ghost predicate Valid()
      reads this
    {
      && (phase == STATE_CMD <==> tmpFrame.None?)
      && (phase != STATE_BODY ==> contentLength == -1)
    }

    ghost function View(): State
      requires Valid()
      reads this
    {
      match phase
      case STATE_CMD => State(InCommand, buffer, frames)
      case STATE_HEADER => State(InHeaders(tmpFrame.value), buffer, frames)
      case STATE_BODY => State(InBody(tmpFrame.value, contentLength), buffer, frames)
    }

    constructor ()
      ensures Valid() && View() == Initial
    {
      phase, buffer, tmpFrame, contentLength, frames := STATE_CMD, [], None, -1, [];
    }

    ghost predicate Answers(reply: Reply, outcome: Outcome)
      reads this
    {
      && Valid()
      && match outcome
         case Blocked => reply == Wait
         case Advanced(next) => reply == Again && View() == next
         case Raised(at) => reply == Error && View() == at
    }

    /** buffer.partition(term): None when the terminator is missing. */
    method HandleTerminator(term: byte) returns (line: Option<bytes>)
      modifies this`buffer
      ensures var i := Find(old(buffer), term);
              if i == |old(buffer)| then line == None && buffer == old(buffer)
              else line == Some(old(buffer)[..i]) && buffer == old(buffer)[i + 1..]
    {
      var i := Find(buffer, term);
      if i == |buffer| {
        return None;
      }
      line := Some(buffer[..i]);
      buffer := buffer[i + 1..];
    }

    method ParseCommand() returns (reply: Reply)
      requires Valid() && phase == STATE_CMD
      modifies this
      ensures Answers(reply, Step(old(View()))) && (reply == Wait ==> View() == old(View()))
    {
      var line := HandleTerminator(LF);
      if line.None? {
        return Wait;
      }
      var cmd := StripCR(line.value);
      if cmd == [] {
        return Again;
      }
      var decoded := DecodeValue(cmd);
      if decoded.None? {
        return Error;
      }
      tmpFrame := Some(Frame(decoded.value, [], None));
      phase := STATE_HEADER;
      return Again;
    }

    method ParseHeader() returns (reply: Reply)
      requires Valid() && phase == STATE_HEADER
      modifies this
      ensures Answers(reply, Step(old(View()))) && (reply == Wait ==> View() == old(View()))
    {
      var line := HandleTerminator(LF);
      if line.None? {
        return Wait;
      }
      var header := StripCR(line.value);
      var frame := tmpFrame.value;
      if header == [] {
        var n := ContentLength(frame.headers);
        if n.None? {
          return Error;
        }
        contentLength := n.value;
        phase := STATE_BODY;
        return Again;
      }
      var ok := StoreHeader(header);
      return if ok then Again else Error;
    }

    /** Split a header line at its first colon and keep the first value of a key. */
    method StoreHeader(header: bytes) returns (ok: bool)
      requires Valid() && phase == STATE_HEADER
      modifies this`tmpFrame
      ensures tmpFrame.Some?
      ensures match OnHeaderText(old(tmpFrame).value, header)
              case None => !ok && tmpFrame == old(tmpFrame)
              case Some(mode) => ok && mode == InHeaders(tmpFrame.value)
    {
      var frame := tmpFrame.value;
      var colon := Find(header, COLON);
      if colon == |header| {
        return false;
      }
      var key, value := DecodeValue(header[..colon]), DecodeValue(header[colon + 1..]);
      if key.None? || value.None? {
        return false;
      }
      tmpFrame := Some(frame.(headers := SetDefault(frame.headers, key.value, value.value)));
      return true;
    }

    method PushFrame(body: bytes)
      requires Valid() && phase == STATE_BODY
      modifies this
      ensures Valid() && View() == Push(old(tmpFrame.value), body, old(buffer), old(frames))
    {
      frames := frames + [tmpFrame.value.(body := Some(body))];
      phase, tmpFrame, contentLength := STATE_CMD, None, -1;
    }

    method ParseBody() returns (reply: Reply)
      requires Valid() && phase == STATE_BODY
      modifies this
      ensures Answers(reply, Step(old(View()))) && (reply == Wait ==> View() == old(View()))
    {
      if contentLength >= 0 {
        if |buffer| < contentLength + 1 {
          return Wait;
        }
        if buffer[contentLength] != NUL {
          return Error;
        }
        var body := buffer[..contentLength];
        buffer := buffer[contentLength + 1..];
        PushFrame(body);
        return Again;
      }
      var body := HandleTerminator(NUL);
      if body.None? {
        return Wait;
      }
      PushFrame(body.value);
      return Again;
    }

    /** One call of the callback of the current state. */
    method StateCallback() returns (reply: Reply)
      requires Valid()
      modifies this
      ensures Answers(reply, Step(old(View()))) && (reply == Wait ==> View() == old(View()))
    {
      match phase
      case STATE_CMD => reply := ParseCommand();
      case STATE_HEADER => reply := ParseHeader();
      case STATE_BODY => reply := ParseBody();
    }

    /** parse(data): run the state callback until it asks for more data. */
    method Parse(data: bytes) returns (ok: bool)
      requires Valid()
      modifies this
      ensures Valid()
      ensures Feed(old(View()), data) == if ok then Fed(View()) else Broken(View())
    {
      buffer := buffer + data;
      var reply := Again;
      while reply == Again
        invariant Valid()
        invariant reply == Again ==> Run(View()) == Feed(old(View()), data)
        invariant reply == Wait ==> Fed(View()) == Feed(old(View()), data)
        invariant reply == Error ==> Broken(View()) == Feed(old(View()), data)
        decreases reply == Again, |buffer|
      {
        StepShrinks(View());
        reply := StateCallback();
      }
      ok := reply == Wait;
    }

    /** pop_frame(): None when no frame is finished. */
    method PopFrame() returns (frame: Option<Frame>)
      requires Valid()
      modifies this`frames
      ensures Valid()
      ensures if old(frames) == [] then frame == None && frames == []
              else frame == Some(old(frames)[0]) && frames == old(frames)[1..]
    {
      if frames == [] {
        return None;
      }
      frame := Some(frames[0]);
      frames := frames[1..];
    }
  }
}

/**
 The printer and the parser of STOMP frames together: which frames survive the
 wire, and what a stream of frames and heartbeats is read as.
 */
module StompDelivery {
  import opened Bytes
  import opened Options
  import opened StompCodec
  import opened StompFrame
  import opened StompParser

  /**
   The condition under which a frame arrives: a command, and, when there is no
   body, no content-length header that announces one.
   */
  predicate Deliverable(f: Frame) {
    && f.command != []
    && (f.body.None? && Lookup(f.headers, CONTENT_LENGTH).Some? ==>
          var n := ParseInt(Lookup(f.headers, CONTENT_LENGTH).value);
          n.Some? && n.value <= 0)
  }

  // ----------------------------------------------------------- single lines

  lemma FindAt(line: bytes, terminator: byte, rest: bytes)
    requires terminator !in line
    ensures Find(line + [terminator] + rest, terminator) == |line|
    ensures (line + [terminator] + rest)[..|line|] == line
    ensures (line + [terminator] + rest)[|line| + 1..] == rest
  {
    var buffer, i := line + [terminator] + rest, Find(line + [terminator] + rest, terminator);
    assert buffer[|line|] == terminator;
    assert forall j :: 0 <= j < |line| ==> buffer[j] == line[j];
  }

  lemma CommandLine(command: bytes, rest: bytes, frames: seq<Frame>)
    requires command != []
    ensures Run(State(InCommand, EncodeValue(command) + [LF] + rest, frames))
         == Run(State(InHeaders(Frame(command, [], None)), rest, frames))
  {
    EncodedIsDelimiterFree(command);
    FindAt(EncodeValue(command), LF, rest);
    DecodeEncode(command);
  }

  lemma BlankLine(rest: bytes, frames: seq<Frame>)
    ensures Run(State(InCommand, [LF] + rest, frames)) == Run(State(InCommand, rest, frames))
  {
  }

  lemma HeaderLineShape(h: (bytes, bytes))
    ensures var line := EncodeValue(h.0) + [COLON] + EncodeValue(h.1);
            && LF !in line && StripCR(line) == line && line != []
            && Find(line, COLON) == |EncodeValue(h.0)|
            && line[..|EncodeValue(h.0)|] == EncodeValue(h.0)
            && line[|EncodeValue(h.0)| + 1..] == EncodeValue(h.1)
  {
    EncodedIsDelimiterFree(h.0);
    EncodedIsDelimiterFree(h.1);
    FindAt(EncodeValue(h.0), COLON, EncodeValue(h.1));
    var line := EncodeValue(h.0) + [COLON] + EncodeValue(h.1);
    assert line[|line| - 1] == COLON || line[|line| - 1] in EncodeValue(h.1);
  }

  lemma HeaderLine(frame: Frame, h: (bytes, bytes), rest: bytes, frames: seq<Frame>)
    ensures Run(State(InHeaders(frame), EncodeHeader(h) + rest, frames))
         == Run(State(InHeaders(frame.(headers := SetDefault(frame.headers, h.0, h.1))), rest, frames))
  {
    var line := EncodeValue(h.0) + [COLON] + EncodeValue(h.1);
    HeaderLineShape(h);
    HeaderDecoded(frame, h);
    LineStep(frame, line, rest, frames);
  }

  lemma LineStep(frame: Frame, line: bytes, rest: bytes, frames: seq<Frame>)
    requires LF !in line && OnHeader(frame, line).Some?
    ensures Run(State(InHeaders(frame), line + [LF] + rest, frames))
         == Run(State(OnHeader(frame, line).value, rest, frames))
  {
    FindAt(line, LF, rest);
  }

  lemma HeaderDecoded(frame: Frame, h: (bytes, bytes))
    ensures OnHeader(frame, EncodeValue(h.0) + [COLON] + EncodeValue(h.1))
         == Some(InHeaders(frame.(headers := SetDefault(frame.headers, h.0, h.1))))
  {
    HeaderLineShape(h);
    DecodeEncode(h.0);
    DecodeEncode(h.1);
  }

  lemma NextHeader(h: seq<(bytes, bytes)>, todo: seq<(bytes, bytes)>)
    requires todo != [] && DistinctKeys(h + todo)
    ensures DistinctKeys(h) && DistinctKeys(h + [todo[0]])
    ensures SetDefault(h, todo[0].0, todo[0].1) == h + [todo[0]]
    ensures h + todo == h + [todo[0]] + todo[1..]
  {
    var all := h + todo;
    assert all == h + [todo[0]] + todo[1..];
    assert forall i :: 0 <= i < |h| ==> all[i] == h[i];
    assert all[|h|] == todo[0];
    assert forall i :: 0 <= i < |h + [todo[0]]| ==> all[i] == (h + [todo[0]])[i];
  }

  lemma {:induction false} HeaderLines(frame: Frame, todo: seq<(bytes, bytes)>, rest: bytes, frames: seq<Frame>)
    requires DistinctKeys(frame.headers + todo)
    ensures Run(State(InHeaders(frame), EncodeHeaders(todo) + rest, frames))
         == Run(State(InHeaders(frame.(headers := frame.headers + todo)), rest, frames))
    decreases |todo|
  {
    if todo == [] {
      assert EncodeHeaders(todo) + rest == rest;
      assert frame.headers + [] == frame.headers;
    } else {
      var h := todo[0];
      Assoc(EncodeHeader(h), EncodeHeaders(todo[1..]), rest);
      HeaderLine(frame, h, EncodeHeaders(todo[1..]) + rest, frames);
      NextHeader(frame.headers, todo);
      HeaderLines(frame.(headers := frame.headers + [h]), todo[1..], rest, frames);
    }
  }

  lemma HeaderEnd(frame: Frame, rest: bytes, frames: seq<Frame>)
    ensures var n := ContentLength(frame.headers);
            Run(State(InHeaders(frame), [LF] + rest, frames))
            == if n.None? then Broken(State(InHeaders(frame), rest, frames))
               else Run(State(InBody(frame, n.value), rest, frames))
  {
  }

  lemma BodyEnd(frame: Frame, n: int, body: bytes, rest: bytes, frames: seq<Frame>)
    requires n == |body| || (n < 0 && body == [])
    ensures Run(State(InBody(frame, n), body + [NUL] + rest, frames))
         == Run(State(InCommand, rest, frames + [frame.(body := Some(body))]))
  {
    var s := State(InBody(frame, n), body + [NUL] + rest, frames);
    if n < 0 {
      FindAt([], NUL, rest);
    } else {
      assert s.buffer[n] == NUL && s.buffer[..n] == body && s.buffer[n + 1..] == rest;
    }
  }

  // ------------------------------------------------------------- whole frames

  /** The bytes of a frame after its headers. */
  function Tail(f: Frame, rest: bytes): bytes {
    BodyBytes(f) + [NUL] + rest
  }

  lemma EncodeSplit(f: Frame, rest: bytes)
    ensures Encode(f) + rest
         == EncodeValue(f.command) + [LF] + (EncodeHeaders(Stamped(f).headers) + ([LF] + Tail(f, rest)))
  {
    hide EncodeValue, EncodeHeaders, Stamped, BodyBytes;
    Regroup(EncodeValue(f.command) + [LF], EncodeHeaders(Stamped(f).headers), BodyBytes(f), rest);
  }

  lemma Regroup(a: bytes, b: bytes, c: bytes, rest: bytes)
    ensures a + b + [LF] + c + [NUL] + rest == a + (b + ([LF] + (c + [NUL] + rest)))
  {
    Assoc4(a + b + [LF], c, [NUL], rest);
    Assoc(a + b, [LF], c + [NUL] + rest);
    Assoc(a, b, [LF] + (c + [NUL] + rest));
  }

  /** The parser reaches the body of any frame that has a command. */
  lemma HeadParsed(f: Frame, rest: bytes, frames: seq<Frame>)
    requires f.command != []
    ensures Run(State(InCommand, Encode(f) + rest, frames))
         == Run(State(InHeaders(Stamped(f).(body := None)), [LF] + Tail(f, rest), frames))
  {
    var h, tail := Stamped(f).headers, [LF] + Tail(f, rest);
    EncodeSplit(f, rest);
    CommandLine(f.command, EncodeHeaders(h) + tail, frames);
    assert [] + h == h;
    HeaderLines(Frame(f.command, [], None), h, tail, frames);
  }

  /** A deliverable frame is read back, whatever follows it. */
  lemma {:induction false} FrameParsed(f: Frame, rest: bytes, frames: seq<Frame>)
    requires Deliverable(f)
    ensures Run(State(InCommand, Encode(f) + rest, frames))
         == Run(State(InCommand, rest, frames + [Received(f)]))
  {
    var g := Stamped(f).(body := None);
    HeadParsed(f, rest, frames);
    HeaderEnd(g, Tail(f, rest), frames);
    if f.body.Some? {
      ParseIntDecimal(|f.body.value|);
    }
    BodyEnd(g, ContentLength(g.headers).value, BodyBytes(f), rest, frames);
  }

  /** A content-length that announces a missing body blocks or breaks the parser. */
  lemma BadLengthLost(f: Frame)
    requires f.command != [] && !Deliverable(f)
    ensures Run(State(InCommand, Encode(f) + [], [])) != Fed(State(InCommand, [], [Received(f)]))
  {
    HeadParsed(f, [], []);
    assert Tail(f, []) == [NUL];
    BodyMissing(f);
  }

  lemma BodyMissing(g: Frame)
    requires ContentLength(g.headers).Some? ==> ContentLength(g.headers).value > 0
    ensures var v := Run(State(InHeaders(g), [LF] + [NUL], []));
            v.Broken? || !v.state.mode.InCommand?
  {
  }

  /** Without a command the first header is taken for one, and rejected. */
  lemma NoCommandLost(f: Frame)
    requires f.command == []
    ensures Run(State(InCommand, Encode(f) + [], [])) != Fed(State(InCommand, [], [Received(f)]))
  {
    var h := Stamped(f).headers;
    EncodeSplit(f, []);
    var tail := [LF] + Tail(f, []);
    var after := EncodeHeaders(h) + tail;
    assert EncodeValue(f.command) + [LF] + after == [LF] + after;
    BlankLine(after, []);
    if h == [] {
      NoHeadersNoBody(f);
      assert after == [LF] + [NUL];
      BlankLine([NUL], []);
    } else {
      HeaderAsCommand(h, tail);
    }
  }

  lemma NoHeadersNoBody(f: Frame)
    requires Stamped(f).headers == []
    ensures Tail(f, []) == [NUL]
  {
  }

  lemma HeaderAsCommand(h: seq<(bytes, bytes)>, tail: bytes)
    requires h != []
    ensures Run(State(InCommand, EncodeHeaders(h) + tail, [])).Broken?
  {
    var line := EncodeValue(h[0].0) + [COLON] + EncodeValue(h[0].1);
    var rest := EncodeHeaders(h[1..]) + tail;
    HeaderLineShape(h[0]);
    assert EncodeHeaders(h) + tail == line + [LF] + rest by {
      Assoc(line + [LF], EncodeHeaders(h[1..]), tail);
    }
    FindAt(line, LF, rest);
    assert line[|EncodeValue(h[0].0)|] == COLON;
  }

  lemma NothingLeft(frames: seq<Frame>)
    ensures [] + frames == frames
    ensures Run(State(InCommand, [], frames)) == Fed(State(InCommand, [], frames))
  {
  }

  /** Exactly the deliverable frames arrive. */
  lemma {:induction false} DeliveredIff(f: Frame)
    ensures Feed(Initial, Encode(f)) == Fed(State(InCommand, [], [Received(f)])) <==> Deliverable(f)
  {
    hide Run, Encode, Received, Deliverable;
    assert Append(Initial, Encode(f)) == State(InCommand, Encode(f) + [], []) by {
      assert [] + Encode(f) == Encode(f) + [];
    }
    if Deliverable(f) {
      FrameParsed(f, [], []);
      NothingLeft([Received(f)]);
    } else if f.command == [] {
      NoCommandLost(f);
    } else {
      BadLengthLost(f);
    }
  }

  // ------------------------------------------------------------------ streams

  /** What a connection sends: heartbeats and frames. */
  datatype Item = Heartbeat | Message(frame: Frame)

  function EncodeItem(item: Item): bytes {
    match item
    case Heartbeat => [LF]
    case Message(f) => Encode(f)
  }

  function EncodeAll(items: seq<Item>): bytes {
    if items == [] then [] else EncodeItem(items[0]) + EncodeAll(items[1..])
  }

  /** Heartbeats are dropped. */
  function ExpectedItem(item: Item): seq<Frame> {
    if item.Heartbeat? then [] else [Received(item.frame)]
  }

  /** The frames a receiver is to see. */
  function Expected(items: seq<Item>): seq<Frame> {
    if items == [] then [] else ExpectedItem(items[0]) + Expected(items[1..])
  }

  predicate Sendable(item: Item) {
    item.Message? ==> Deliverable(item.frame)
  }

  lemma ItemParsed(item: Item, rest: bytes, frames: seq<Frame>)
    requires Sendable(item)
    ensures Run(State(InCommand, EncodeItem(item) + rest, frames))
         == Run(State(InCommand, rest, frames + ExpectedItem(item)))
  {
    match item
    case Heartbeat =>
      BlankLine(rest, frames);
      assert frames + [] == frames;
    case Message(f) => FrameParsed(f, rest, frames);
  }

  /** A stream of sendable items is read as exactly the expected frames. */
  lemma {:induction false} StreamParsed(items: seq<Item>, rest: bytes, frames: seq<Frame>)
    requires forall i :: 0 <= i < |items| ==> Sendable(items[i])
    ensures Run(State(InCommand, EncodeAll(items) + rest, frames))
         == Run(State(InCommand, rest, frames + Expected(items)))
    decreases |items|
  {
    if items == [] {
      EmptyStream(rest, frames);
    } else {
      Unroll(items, rest, frames);
      ItemParsed(items[0], EncodeAll(items[1..]) + rest, frames);
      StreamParsed(items[1..], rest, frames + ExpectedItem(items[0]));
    }
  }

  lemma EmptyStream(rest: bytes, frames: seq<Frame>)
    ensures EncodeAll([]) + rest == rest && frames + Expected([]) == frames
  {
  }

  lemma Unroll(items: seq<Item>, rest: bytes, frames: seq<Frame>)
    requires items != []
    ensures EncodeAll(items) + rest == EncodeItem(items[0]) + (EncodeAll(items[1..]) + rest)
    ensures frames + ExpectedItem(items[0]) + Expected(items[1..]) == frames + Expected(items)
  {
    Assoc(EncodeItem(items[0]), EncodeAll(items[1..]), rest);
  }

  lemma {:induction false} EncodeAllAppend(items: seq<Item>, last: Item)
    ensures EncodeAll(items + [last]) == EncodeAll(items) + EncodeItem(last)
  {
    if items == [] {
      assert [last][1..] == [];
      assert EncodeAll([last]) == EncodeItem(last) + [];
    } else {
      assert (items + [last])[1..] == items[1..] + [last];
      EncodeAllAppend(items[1..], last);
    }
  }
}

/**
 STOMP frames, the dictionary of their headers and their wire form
 (lib/yajsonrpc/stomp.py, class Frame).
 */
module StompFrame {
  import opened Bytes
  import opened Collections
  import opened Options
  import opened StompCodec

  // ----------------------------------------------------------------- headers

  predicate DistinctKeys(h: seq<(bytes, bytes)>) {
    forall i, j :: 0 <= i < j < |h| ==> h[i].0 != h[j].0
  }

  /** A dictionary, listed in the order in which it is iterated. */
  type Headers = h: seq<(bytes, bytes)> | DistinctKeys(h)

  /** The position of a key, or the length when it is absent. */
  function KeyIndex(h: seq<(bytes, bytes)>, key: bytes): (i: nat)
    ensures i <= |h|
    ensures i < |h| ==> h[i].0 == key
    ensures forall j :: 0 <= j < i ==> h[j].0 != key
  {
    if h == [] || h[0].0 == key then 0 else 1 + KeyIndex(h[1..], key)
  }

  function Lookup(h: seq<(bytes, bytes)>, key: bytes): Option<bytes> {
    var i := KeyIndex(h, key);
    if i < |h| then Some(h[i].1) else None
  }

  /** h[key] = value on a dictionary that keeps insertion order. */
  function Put(h: Headers, key: bytes, value: bytes): (r: Headers)
    ensures Lookup(r, key) == Some(value)
    ensures forall k :: k != key ==> Lookup(r, k) == Lookup(h, k)
  {
    var i := KeyIndex(h, key);
    var r := if i < |h| then h[i := (key, value)] else h + [(key, value)];
    assert r[i] == (key, value);
    assert forall j :: 0 <= j < |h| && j != i ==> r[j] == h[j];
    r
  }

  /** h.setdefault(key, value). */
  function SetDefault(h: Headers, key: bytes, value: bytes): (r: Headers)
    ensures Lookup(r, key) == if Lookup(h, key).Some? then Lookup(h, key) else Some(value)
    ensures forall k :: k != key ==> Lookup(r, k) == Lookup(h, k)
  {
    if Lookup(h, key).Some? then h
    else
      var r := h + [(key, value)];
      assert r[|h|] == (key, value) && forall j :: 0 <= j < |h| ==> r[j] == h[j];
      r
  }

  // ------------------------------------------------------------------ frames

  datatype Frame = Frame(command: bytes, headers: Headers, body: Option<bytes>)

  /** "content-length" */
  const CONTENT_LENGTH: bytes := [99, 111, 110, 116, 101, 110, 116, 45, 108, 101, 110, 103, 116, 104]

  /** What encoding does to the frame itself: the header follows the body. */
  function Stamped(f: Frame): Frame {
    if f.body.None? then f
    else f.(headers := Put(f.headers, CONTENT_LENGTH, Decimal(|f.body.value|)))
  }

  function EncodeHeader(h: (bytes, bytes)): bytes {
    EncodeValue(h.0) + [COLON] + EncodeValue(h.1) + [LF]
  }

  function EncodeHeaders(h: seq<(bytes, bytes)>): bytes {
    if h == [] then [] else EncodeHeader(h[0]) + EncodeHeaders(h[1..])
  }

  function BodyBytes(f: Frame): bytes {
    if f.body.None? then [] else f.body.value
  }

  /** The bytes a frame is sent as. */
  function Encode(f: Frame): bytes {
    EncodeValue(f.command) + [LF] + EncodeHeaders(Stamped(f).headers) + [LF] + BodyBytes(f) + [NUL]
  }

  /** What a receiver holds after reading the frame. */
  function Received(f: Frame): Frame {
    Stamped(f).(body := Some(BodyBytes(f)))
  }

  // ------------------------------------------- the printing loop of the source

  lemma CollectedHeader(start: seq<bytes>, h: (bytes, bytes))
    ensures Flatten(start + [EncodeValue(h.0)] + [[COLON]] + [EncodeValue(h.1)] + [[LF]])
         == Flatten(start) + EncodeHeader(h)
  {
    var s0, key, value := Flatten(start), EncodeValue(h.0), EncodeValue(h.1);
    FlattenAppend(start, key);
    FlattenAppend(start + [key], [COLON]);
    FlattenAppend(start + [key] + [[COLON]], value);
    FlattenAppend(start + [key] + [[COLON]] + [value], [LF]);
    hide Flatten;
    Assoc4(s0, key, [COLON], value);
    Assoc(s0, key + [COLON] + value, [LF]);
  }

  /** The turn of the loop below on one header. */
  method CollectHeader(start: seq<bytes>, header: (bytes, bytes)) returns (data: seq<bytes>)
    ensures Flatten(data) == Flatten(start) + EncodeHeader(header)
  {
    data := start + [EncodeValue(header.0)] + [[COLON]] + [EncodeValue(header.1)] + [[LF]];
    CollectedHeader(start, header);
  }

  lemma EncodeHeadersFrom(headers: seq<(bytes, bytes)>, i: nat)
    requires i < |headers|
    ensures EncodeHeaders(headers[i..]) == EncodeHeader(headers[i]) + EncodeHeaders(headers[i + 1..])
  {
  }

  /** The loop of Frame.encode over the headers of the dictionary. */
  method CollectHeaders(start: seq<bytes>, headers: Headers) returns (data: seq<bytes>)
    ensures Flatten(data) == Flatten(start) + EncodeHeaders(headers)
  {
    data := start;
    assert headers[0..] == headers;
    for i := 0 to |headers|
      invariant Flatten(data) + EncodeHeaders(headers[i..]) == Flatten(start) + EncodeHeaders(headers)
    {
      EncodeHeadersFrom(headers, i);
      Assoc(Flatten(data), EncodeHeader(headers[i]), EncodeHeaders(headers[i + 1..]));
      data := CollectHeader(data, headers[i]);
    }
    assert headers[|headers|..] == [];
  }

  /** The end of Frame.encode: blank line, body if there is one, terminator. */
  method CollectBody(start: seq<bytes>, body: Option<bytes>) returns (data: seq<bytes>)
    ensures Flatten(data) == Flatten(start) + [LF] + (if body.None? then [] else body.value) + [NUL]
  {
    FlattenAppend(start, [LF]);
    data := start + [[LF]];
    if body.Some? {
      FlattenAppend(data, body.value);
      data := data + [body.value];
    }
    FlattenAppend(data, [NUL]);
    data := data + [[NUL]];
  }

  lemma CollectedCommand(command: bytes)
    ensures Flatten([command, [LF]]) == command + [LF]
  {
    assert [command, [LF]][1..] == [[LF]];
    assert Flatten([[LF]]) == [LF] + Flatten([[LF]][1..]) == [LF];
  }

  /**
   Frame.encode: refresh the content-length header, then collect the pieces of
   the wire form in a list and join them.
   */
  method EncodeFrame(f: Frame) returns (frame: Frame, wire: bytes)
    ensures frame == Stamped(f)
    ensures wire == Encode(f)
  {
    frame := Stamped(f);
    var data := [EncodeValue(f.command), [LF]];
    CollectedCommand(EncodeValue(f.command));
    hide Flatten, EncodeValue, EncodeHeaders;
    data := CollectHeaders(data, frame.headers);
    data := CollectBody(data, f.body);
    wire := Flatten(data);
  }
}

/**
 Reading from a TLS socket with a peek flag (lib/vdsm/sslutils.py,
 SSLSocket.read): the TLS layer cannot peek, so bytes peeked at are held back.
 */
module PeekBuffer {
  import opened Bytes

  /** What the TLS layer answers when it is read. */
  datatype Draw = Got(bytes: bytes) | WantRead | OtherError

  /** A call: its size, whether it peeks, and what the TLS layer would answer. */
  datatype Call = Call(size: int, peek: bool, draw: Draw)

  datatype Result = Bytes(bytes: bytes) | NoneYet | Raised

  /** The held-back buffer, all bytes drawn from the TLS layer, all bytes handed out by consuming reads. */
  datatype State = State(data: bytes, drawn: bytes, consumed: bytes)

  const Fresh := State([], [], [])

  /** How many bytes the call asks the TLS layer for; 0 if it does not read it. */
  function Asked(s: State, c: Call): int {
    if c.peek then (if c.size > |s.data| then c.size - |s.data| else 0)
    else if s.data != [] then 0 else c.size
  }

  predicate Reads(s: State, c: Call) {
    if c.peek then c.size > |s.data| else s.data == []
  }

  function ResultOf(s: State, c: Call): Result {
    if !Reads(s, c) then Bytes(s.data)
    else match c.draw
      case Got(bytes) => Bytes(s.data + bytes)
      case WantRead => NoneYet
      case OtherError => Raised
  }

  function After(s: State, c: Call): State {
    var r := ResultOf(s, c);
    var incoming := if Reads(s, c) && c.draw.Got? then c.draw.bytes else [];
    if !r.Bytes? then s
    else if c.peek then s.(data := r.bytes, drawn := s.drawn + incoming)
    else s.(data := [], drawn := s.drawn + incoming, consumed := s.consumed + r.bytes)
  }

  function AfterAll(s: State, calls: seq<Call>): State {
    if calls == [] then s else After(AfterAll(s, calls[..|calls| - 1]), calls[|calls| - 1])
  }

  // -------------------------------------------------------------- conservation

  predicate Conserved(s: State) { s.consumed + s.data == s.drawn }

  lemma AfterConserves(s: State, c: Call)
    requires Conserved(s)
    ensures Conserved(After(s, c)) && s.consumed <= After(s, c).consumed && s.drawn <= After(s, c).drawn
  {
  }

  lemma {:induction false} AllConserve(s: State, calls: seq<Call>)
    requires Conserved(s)
    ensures Conserved(AfterAll(s, calls))
    ensures s.consumed <= AfterAll(s, calls).consumed && s.drawn <= AfterAll(s, calls).drawn
  {
    if calls != [] {
      var before := AfterAll(s, calls[..|calls| - 1]);
      AllConserve(s, calls[..|calls| - 1]);
      AfterConserves(before, calls[|calls| - 1]);
    }
  }

  /** Whatever the calls, what was handed out and what is held back is what was drawn: nothing is lost or repeated. */
  lemma {:induction false} Conservation(calls: seq<Call>)
    ensures var s := AfterAll(Fresh, calls); s.consumed + s.data == s.drawn
  {
    AllConserve(Fresh, calls);
  }

  /**
   A peek that returns bytes shows what the later reads deliver: after any later
   calls, one of the two byte strings is a prefix of the other, and together
   with the buffer the later reads have at least the peeked bytes.
   */
  lemma {:induction false} PeekTellsTheFuture(calls: seq<Call>, c: Call, later: seq<Call>)
    requires c.peek && ResultOf(AfterAll(Fresh, calls), c).Bytes?
    ensures var s := After(AfterAll(Fresh, calls), c);
            var t := AfterAll(s, later);
            var peeked := ResultOf(AfterAll(Fresh, calls), c).bytes;
            && s.consumed <= t.consumed
            && peeked <= t.consumed[|s.consumed|..] + t.data
            && (peeked <= t.consumed[|s.consumed|..] || t.consumed[|s.consumed|..] <= peeked)
  {
    var before := AfterAll(Fresh, calls);
    AllConserve(Fresh, calls);
    AfterConserves(before, c);
    var s := After(before, c);
    AllConserve(s, later);
    var t := AfterAll(s, later);
    Suffix(s.consumed, s.data, t.consumed, t.data);
  }

  lemma Suffix(a: bytes, b: bytes, c: bytes, d: bytes)
    requires a <= c && a + b <= c + d
    ensures b <= c[|a|..] + d
    ensures b <= c[|a|..] || c[|a|..] <= b
  {
    var e := c[|a|..];
    assert c == a + e;
    assert a + b <= a + (e + d) by { assert (a + e) + d == a + (e + d); }
    forall i | 0 <= i < |b| ensures b[i] == (e + d)[i] {
      assert (a + b)[|a| + i] == (a + (e + d))[|a| + i];
    }
  }

  // ------------------------------------------------------------------- failures

  predicate Succeeds(s: State, c: Call) { ResultOf(s, c).Bytes? }

  /** The calls that return bytes, of those made from s on. */
  function Succeeding(s: State, calls: seq<Call>): seq<Call> {
    if calls == [] then []
    else
      var n := |calls| - 1;
      Succeeding(s, calls[..n]) + if Succeeds(AfterAll(s, calls[..n]), calls[n]) then [calls[n]] else []
  }

  /** What the caller is given, call by call, leaving out the failures. */
  function Given(s: State, calls: seq<Call>): seq<bytes> {
    if calls == [] then []
    else
      var n := |calls| - 1;
      var r := ResultOf(AfterAll(s, calls[..n]), calls[n]);
      Given(s, calls[..n]) + if r.Bytes? then [r.bytes] else []
  }

  /**
   Calls that fail, want-read or not, can be struck from any list of calls: the
   others succeed without them, give the same bytes, and leave the same state.
   */
  lemma {:induction false} FailuresVanish(s: State, calls: seq<Call>)
    ensures var kept := Succeeding(s, calls);
            && AfterAll(s, kept) == AfterAll(s, calls)
            && Given(s, kept) == Given(s, calls)
            && |Given(s, kept)| == |kept|
  {
    if calls != [] {
      hide After;
      var n := |calls| - 1;
      var before := AfterAll(s, calls[..n]);
      FailuresVanish(s, calls[..n]);
      if Succeeds(before, calls[n]) {
        var kept := Succeeding(s, calls);
        assert kept[..|kept| - 1] == Succeeding(s, calls[..n]);
      } else {
        FailureKeeps(before, calls[n]);
        assert Succeeding(s, calls) == Succeeding(s, calls[..n]);
        assert Given(s, calls) == Given(s, calls[..n]);
      }
    }
  }

  lemma FailureKeeps(s: State, c: Call)
    requires !Succeeds(s, c)
    ensures After(s, c) == s
  {
  }

  /** A result exceeds the size asked for if and only if the held-back buffer does. */
  lemma LongerThanAsked(s: State, c: Call)
    requires c.size >= 0 && ResultOf(s, c).Bytes?
    requires c.draw.Got? && Reads(s, c) ==> |c.draw.bytes| <= Asked(s, c)
    ensures |ResultOf(s, c).bytes| > c.size <==> |s.data| > c.size
  {
  }

  // ---------------------------------------------------------------- the wrapper

  class SslSocket {
    var data: bytes
    ghost var drawn: bytes
    ghost var consumed: bytes

    ghost function View(): State
      reads this
    {
      State(data, drawn, consumed)
    }

    constructor ()
      ensures View() == Fresh && Conserved(View())
    {
      data, drawn, consumed := [], [], [];
    }

    method Read(size: int, peek: bool, draw: Draw) returns (result: Result)
      requires Conserved(View())
      modifies this
      ensures result == ResultOf(old(View()), Call(size, peek, draw))
      ensures View() == After(old(View()), Call(size, peek, draw))
      ensures Conserved(View())
    {
      AfterConserves(View(), Call(size, peek, draw));
      if peek {
        var left := size - |data|;
        if left > 0 {
          if draw == WantRead {
            return NoneYet;
          }
          if draw == OtherError {
            return Raised;
          }
          data := data + draw.bytes;
          drawn := drawn + draw.bytes;
        } else {
          assert drawn + [] == drawn;
        }
        return Bytes(data);
      } else {
        if data != [] {
          result := Bytes(data);
          consumed := consumed + data;
          data := [];
          assert drawn + [] == drawn;
          return;
        }
        if draw == WantRead {
          return NoneYet;
        }
        if draw == OtherError {
          return Raised;
        }
        assert data + draw.bytes == draw.bytes;
        drawn := drawn + draw.bytes;
        consumed := consumed + draw.bytes;
        return Bytes(draw.bytes);
      }
    }
  }
}

/** The helper's command stream: frames cut out of whatever pieces the socket delivers. */
module IpcFrames {

  newtype byte = x: int | 0 <= x < 256

  const HEADER_SIZE := 12
  const MAX_FRAME_SIZE := 4 * 1024 * 1024

  datatype Frame = Frame(cmdId: int, payload: seq<byte>)

  /** Waiting for more data, closed after an invalid length, or ended because an answer could not be sent. */
  datatype Status = Open | Rejected | Gone

  datatype Outcome = Outcome(frames: seq<Frame>, rest: seq<byte>, status: Status)

  // --- Integers on the wire: 32 bits, least significant byte first, two's complement ---

  function Unsigned(s: seq<byte>): (n: nat)
    requires |s| == 4
    ensures n < 0x1_0000_0000
  {
    s[0] as nat + 0x100 * s[1] as nat + 0x1_0000 * s[2] as nat + 0x100_0000 * s[3] as nat
  }

  function Int32(s: seq<byte>): (n: int)
    requires |s| == 4
    ensures -0x8000_0000 <= n < 0x8000_0000
  {
    if Unsigned(s) < 0x8000_0000 then Unsigned(s) else Unsigned(s) - 0x1_0000_0000
  }

  function FromUnsigned(n: nat): (s: seq<byte>)
    requires n < 0x1_0000_0000
    ensures |s| == 4
  {
    [(n % 0x100) as byte, (n / 0x100 % 0x100) as byte, (n / 0x1_0000 % 0x100) as byte, (n / 0x100_0000) as byte]
  }

  function FromInt32(n: int): (s: seq<byte>)
    requires -0x8000_0000 <= n < 0x8000_0000
    ensures |s| == 4
  {
    FromUnsigned(if n < 0 then n + 0x1_0000_0000 else n)
  }

  lemma FourBytes(u: nat)
    ensures u % 0x100 + 0x100 * (u / 0x100 % 0x100) + 0x1_0000 * (u / 0x1_0000 % 0x100) +
      0x100_0000 * (u / 0x100_0000) == u
  {
    assert u / 0x1_0000 == u / 0x100 / 0x100;
    assert u / 0x100_0000 == u / 0x1_0000 / 0x100;
  }

  lemma UnsignedRoundTrip(u: nat)
    requires u < 0x1_0000_0000
    ensures Unsigned(FromUnsigned(u)) == u
  {
    FourBytes(u);
  }

  lemma Int32RoundTrip(n: int)
    requires -0x8000_0000 <= n < 0x8000_0000
    ensures Int32(FromInt32(n)) == n
  {
    hide Unsigned, FromUnsigned;
    UnsignedRoundTrip(if n < 0 then n + 0x1_0000_0000 else n);
  }

  // --- The whole stream at once ---

  function LengthField(s: seq<byte>): int
    requires HEADER_SIZE <= |s|
  {
    Int32(s[8..12])
  }

  predicate BadLength(length: int) { length < 0 || length > MAX_FRAME_SIZE }

  /** The frames of a stream of which `n` were handled before; `sends(k)` is whether the k-th answer gets through. */
  function Parse(s: seq<byte>, n: nat, sends: nat -> bool): Outcome
  {
    if |s| < HEADER_SIZE then Outcome([], s, Open)
    else
      var length := LengthField(s);
      if BadLength(length) then Outcome([], s, Rejected)
      else if |s| < HEADER_SIZE + length then Outcome([], s, Open)
      else
        var frame := Frame(Int32(s[..4]), s[HEADER_SIZE..HEADER_SIZE + length]);
        var rest := s[HEADER_SIZE + length..];
        if !sends(n) then Outcome([frame], rest, Gone)
        else
          var o := Parse(rest, n + 1, sends);
          Outcome([frame] + o.frames, o.rest, o.status)
  }

  /** What more data does to an outcome. */
  function Continue(o: Outcome, t: seq<byte>, n: nat, sends: nat -> bool): Outcome
  {
    if o.status != Open then o.(rest := o.rest + t)
    else
      var p := Parse(o.rest + t, n + |o.frames|, sends);
      Outcome(o.frames + p.frames, p.rest, p.status)
  }

  /** A whole frame is at the front. */
  predicate Complete(s: seq<byte>)
  {
    HEADER_SIZE <= |s| && !BadLength(LengthField(s)) && HEADER_SIZE + LengthField(s) <= |s|
  }

  function FirstFrame(s: seq<byte>): Frame
    requires Complete(s)
  {
    Frame(Int32(s[..4]), s[HEADER_SIZE..HEADER_SIZE + LengthField(s)])
  }

  function Behind(s: seq<byte>): seq<byte>
    requires Complete(s)
  {
    s[HEADER_SIZE + LengthField(s)..]
  }

  lemma ParseStep(s: seq<byte>, n: nat, sends: nat -> bool)
    ensures !Complete(s) ==>
      Parse(s, n, sends) == Outcome([], s, if HEADER_SIZE <= |s| && BadLength(LengthField(s)) then Rejected else Open)
    ensures Complete(s) && !sends(n) ==> Parse(s, n, sends) == Outcome([FirstFrame(s)], Behind(s), Gone)
    ensures Complete(s) && sends(n) ==> Parse(s, n, sends) == Before([FirstFrame(s)], Parse(Behind(s), n + 1, sends))
  {
  }

  /** Frames handled earlier. */
  function Before(fs: seq<Frame>, o: Outcome): Outcome { Outcome(fs + o.frames, o.rest, o.status) }

  lemma AppendKeepsFrame(s: seq<byte>, t: seq<byte>)
    ensures HEADER_SIZE <= |s| ==> LengthField(s + t) == LengthField(s)
    ensures Complete(s) ==> Complete(s + t) && FirstFrame(s + t) == FirstFrame(s) && Behind(s + t) == Behind(s) + t
  {
    hide Int32;
    if HEADER_SIZE <= |s| {
      assert (s + t)[8..12] == s[8..12] && (s + t)[..4] == s[..4];
      if Complete(s) {
        var m := HEADER_SIZE + LengthField(s);
        assert (s + t)[HEADER_SIZE..m] == s[HEADER_SIZE..m] && (s + t)[m..] == s[m..] + t;
      }
    }
  }

  lemma ContinueBefore(fs: seq<Frame>, o: Outcome, t: seq<byte>, n: nat, sends: nat -> bool)
    ensures Continue(Before(fs, o), t, n, sends) == Before(fs, Continue(o, t, n + |fs|, sends))
  {
    hide Parse;
    if o.status == Open {
      var p := Parse(o.rest + t, n + |fs| + |o.frames|, sends);
      assert |Before(fs, o).frames| == |fs| + |o.frames|;
      assert fs + o.frames + p.frames == fs + (o.frames + p.frames);
    }
  }

  /** A cut in the stream does not matter. */
  lemma {:induction false} ParseAppend(s: seq<byte>, t: seq<byte>, n: nat, sends: nat -> bool)
    ensures Parse(s + t, n, sends) == Continue(Parse(s, n, sends), t, n, sends)
    decreases |s|
  {
    hide Parse, LengthField, FirstFrame;
    ParseStep(s, n, sends);
    ParseStep(s + t, n, sends);
    AppendKeepsFrame(s, t);
    if Complete(s) && sends(n) {
      ParseAppend(Behind(s), t, n + 1, sends);
      ContinueBefore([FirstFrame(s)], Parse(Behind(s), n + 1, sends), t, n, sends);
    } else if !Complete(s) {
      assert [] + Parse(s + t, n, sends).frames == Parse(s + t, n, sends).frames;
    }
  }

  // --- Pieces as they arrive ---

  function Concat(chunks: seq<seq<byte>>): seq<byte>
  {
    if chunks == [] then [] else chunks[0] + Concat(chunks[1..])
  }

  /** One completed read after another; nothing is read any more once the connection is not open. */
  function Feed(o: Outcome, chunks: seq<seq<byte>>, sends: nat -> bool): Outcome
    decreases |chunks|
  {
    if chunks == [] then o
    else Feed(if o.status == Open then Continue(o, chunks[0], 0, sends) else o, chunks[1..], sends)
  }

  /** However the stream is cut into reads, the commands, their order and the fate of the connection are those of the
      stream parsed at once. */
  lemma {:induction false} CutsDoNotMatter(s: seq<byte>, chunks: seq<seq<byte>>, sends: nat -> bool)
    ensures var whole := Parse(s + Concat(chunks), 0, sends);
      var fed := Feed(Parse(s, 0, sends), chunks, sends);
      fed.frames == whole.frames && fed.status == whole.status && (fed.status == Open ==> fed.rest == whole.rest)
    decreases |chunks|
  {
    hide Parse;
    var o := Parse(s, 0, sends);
    if chunks == [] {
      assert s + Concat(chunks) == s;
    } else {
      assert s + Concat(chunks) == (s + chunks[0]) + Concat(chunks[1..]);
      ParseAppend(s, chunks[0], 0, sends);
      if o.status == Open {
        CutsDoNotMatter(s + chunks[0], chunks[1..], sends);
      } else {
        ParseAppend(s, Concat(chunks), 0, sends);
        ClosedStaysClosed(o, chunks, sends);
      }
    }
  }

  lemma {:induction false} ClosedStaysClosed(o: Outcome, chunks: seq<seq<byte>>, sends: nat -> bool)
    requires o.status != Open
    ensures Feed(o, chunks, sends) == o
    decreases |chunks|
  {
    if chunks != [] {
      ClosedStaysClosed(o, chunks[1..], sends);
    }
  }

  // --- What a client writes ---

  /** A frame as a client writes it, with the process id nobody looks at. */
  datatype Sent = Sent(frame: Frame, pid: int)

  predicate Fits32(n: int) { -0x8000_0000 <= n < 0x8000_0000 }

  predicate Sendable(f: Sent)
  {
    Fits32(f.frame.cmdId) && Fits32(f.pid) && |f.frame.payload| <= MAX_FRAME_SIZE
  }

  function Header(cmdId: int, pid: int, length: int): (s: seq<byte>)
    requires Fits32(cmdId) && Fits32(pid) && Fits32(length)
    ensures |s| == HEADER_SIZE
  {
    FromInt32(cmdId) + FromInt32(pid) + FromInt32(length)
  }

  function Encode(f: Sent): seq<byte>
    requires Sendable(f)
  {
    Header(f.frame.cmdId, f.pid, |f.frame.payload|) + f.frame.payload
  }

  function EncodeAll(fs: seq<Sent>): seq<byte>
    requires forall f :: f in fs ==> Sendable(f)
  {
    if fs == [] then [] else Encode(fs[0]) + EncodeAll(fs[1..])
  }

  /** The frames without the process ids. */
  function Frames(fs: seq<Sent>): (r: seq<Frame>)
    ensures |r| == |fs| && forall k :: 0 <= k < |fs| ==> r[k] == fs[k].frame
  {
    seq(|fs|, k requires 0 <= k < |fs| => fs[k].frame)
  }

  lemma HeaderFields(cmdId: int, pid: int, length: int, t: seq<byte>)
    requires Fits32(cmdId) && Fits32(pid) && Fits32(length)
    ensures var s := Header(cmdId, pid, length) + t;
      HEADER_SIZE <= |s| && Int32(s[..4]) == cmdId && LengthField(s) == length
  {
    hide Int32, FromInt32;
    Int32RoundTrip(cmdId);
    Int32RoundTrip(length);
    var s := Header(cmdId, pid, length) + t;
    assert s[..4] == FromInt32(cmdId) && s[8..12] == FromInt32(length);
  }

  lemma EncodeFirst(f: Sent, more: seq<byte>)
    requires Sendable(f)
    ensures Complete(Encode(f) + more) && FirstFrame(Encode(f) + more) == f.frame && Behind(Encode(f) + more) == more
  {
    hide Int32, FromInt32, Header, LengthField;
    var s, payload := Encode(f) + more, f.frame.payload;
    assert s == Header(f.frame.cmdId, f.pid, |payload|) + (payload + more);
    HeaderFields(f.frame.cmdId, f.pid, |payload|, payload + more);
    var m := HEADER_SIZE + |payload|;
    assert s[HEADER_SIZE..m] == payload && s[m..] == more;
  }

  /** Frames that follow one another on the wire are handled one after the other, whatever comes behind them. */
  lemma {:induction false} FramesFirst(fs: seq<Sent>, t: seq<byte>, n: nat, sends: nat -> bool)
    requires forall f :: f in fs ==> Sendable(f)
    requires forall k :: n <= k < n + |fs| ==> sends(k)
    ensures Parse(EncodeAll(fs) + t, n, sends) == Before(Frames(fs), Parse(t, n + |fs|, sends))
    decreases |fs|
  {
    hide Parse, Complete, FirstFrame, Behind, Encode;
    if fs == [] {
      assert EncodeAll(fs) + t == t;
      assert [] + Parse(t, n, sends).frames == Parse(t, n, sends).frames;
    } else {
      assert fs[0] in fs;
      var more := EncodeAll(fs[1..]) + t;
      assert EncodeAll(fs) + t == Encode(fs[0]) + more;
      EncodeFirst(fs[0], more);
      ParseStep(Encode(fs[0]) + more, n, sends);
      FramesFirst(fs[1..], t, n + 1, sends);
      var o := Parse(t, n + |fs|, sends);
      assert Frames(fs) == [fs[0].frame] + Frames(fs[1..]);
      assert [fs[0].frame] + (Frames(fs[1..]) + o.frames) == Frames(fs) + o.frames;
    }
  }

  lemma NothingThere()
    ensures !Complete([])
  {
  }

  /** Cutting an encoded command sequence anywhere delivers exactly those commands. */
  lemma DeliveredAsSent(fs: seq<Sent>, chunks: seq<seq<byte>>, sends: nat -> bool)
    requires forall f :: f in fs ==> Sendable(f)
    requires forall k :: 0 <= k < |fs| ==> sends(k)
    requires Concat(chunks) == EncodeAll(fs)
    ensures Feed(Outcome([], [], Open), chunks, sends) == Outcome(Frames(fs), [], Open)
  {
    hide EncodeAll, Feed, Concat, Complete, Frames;
    ParseStep([], 0, sends);
    assert !Complete([]) by { NothingThere(); }
    CutsDoNotMatter([], chunks, sends);
    FramesFirst(fs, [], 0, sends);
    ParseStep([], |fs|, sends);
    assert [] + Concat(chunks) == EncodeAll(fs) && EncodeAll(fs) + [] == EncodeAll(fs) && Frames(fs) + [] == Frames(fs);
  }

  /** A frame announcing a negative or too large payload ends the stream exactly there: what came before is handled,
      nothing behind it is. */
  lemma StopsAtBadLength(
      fs: seq<Sent>, cmdId: int, pid: int, length: int, t: seq<byte>, chunks: seq<seq<byte>>, sends: nat -> bool)
    requires forall f :: f in fs ==> Sendable(f)
    requires forall k :: 0 <= k < |fs| ==> sends(k)
    requires Fits32(cmdId) && Fits32(pid) && Fits32(length) && (length < 0 || length > 0x40_0000)
    requires Concat(chunks) == EncodeAll(fs) + (Header(cmdId, pid, length) + t)
    ensures var o := Feed(Outcome([], [], Open), chunks, sends); o.frames == Frames(fs) && o.status == Rejected
  {
    hide EncodeAll, Header, Feed, Concat, Parse, Frames;
    ParseStep([], 0, sends);
    CutsDoNotMatter([], chunks, sends);
    FramesFirst(fs, Header(cmdId, pid, length) + t, 0, sends);
    HeaderFields(cmdId, pid, length, t);
    ParseStep(Header(cmdId, pid, length) + t, |fs|, sends);
    assert [] + Concat(chunks) == Concat(chunks) && Frames(fs) + [] == Frames(fs);
  }

  /** An answer that does not get through ends the connection: its command was handled, nothing behind it is. */
  lemma GoneWhenAnswerFails(fs: seq<Sent>, f: Sent, t: seq<byte>, chunks: seq<seq<byte>>, sends: nat -> bool)
    requires (forall f :: f in fs ==> Sendable(f)) && Sendable(f)
    requires (forall k :: 0 <= k < |fs| ==> sends(k)) && !sends(|fs|)
    requires Concat(chunks) == EncodeAll(fs) + (Encode(f) + t)
    ensures var o := Feed(Outcome([], [], Open), chunks, sends);
      o.frames == Frames(fs) + [f.frame] && o.status == Gone
  {
    hide EncodeAll, Encode, Feed, Concat, Parse, Frames, Complete;
    ParseStep([], 0, sends);
    assert !Complete([]) by { NothingThere(); }
    CutsDoNotMatter([], chunks, sends);
    FramesFirst(fs, Encode(f) + t, 0, sends);
    EncodeFirst(f, t);
    ParseStep(Encode(f) + t, |fs|, sends);
    assert [] + Concat(chunks) == Concat(chunks);
  }

  // --- The connection ---

  class Connection {
    /** Whether the answer to the k-th command reaches the client. */
    const sends: nat -> bool

    var buf: seq<byte>
    var handled: seq<Frame>
    var status: Status

    function State(): Outcome
      reads this
    {
      Outcome(handled, buf, status)
    }

    constructor (sends: nat -> bool)
      ensures this.sends == sends && State() == Outcome([], [], Open)
    {
      this.sends := sends;
      buf, handled, status := [], [], Open;
    }

    /** Takes one frame off the buffer and handles it, if one is complete. */
    method ReadAndHandleCommand() returns (done: bool)
      requires status == Open
      modifies this
      ensures done <==> Complete(old(buf))
      ensures done ==> buf == Behind(old(buf)) && status == Open && handled == old(handled) + [FirstFrame(old(buf))]
      ensures !done ==> handled == old(handled) && buf == old(buf)
      ensures !done ==> Outcome([], buf, status) == Parse(old(buf), |handled|, sends)
    {
      if |buf| < HEADER_SIZE {
        return false;
      }
      var cmdId := Int32(buf[..4]);
      var length := LengthField(buf);
      if length < 0 || length > MAX_FRAME_SIZE {
        status := Rejected;
        return false;
      }
      if |buf| < HEADER_SIZE + length {
        return false;
      }
      var payload := buf[HEADER_SIZE..HEADER_SIZE + length];
      buf := buf[HEADER_SIZE + length..];
      handled := handled + [Frame(cmdId, payload)];
      return true;
    }

    /** A completed read: handles every complete frame. Each one consumes at least its header, so the loop ends. */
    method ReceiveCmdHandle(chunk: seq<byte>)
      requires status == Open
      modifies this
      ensures State() == Continue(old(State()), chunk, 0, sends)
    {
      hide Parse, Complete, FirstFrame, Behind, BadLength, LengthField;
      buf := buf + chunk;
      ghost var before := handled;
      ghost var since: seq<Frame> := [];
      ghost var whole := Parse(buf, |before|, sends);
      assert before + since == before && since + whole.frames == whole.frames;
      while true
        invariant status == Open && handled == before + since
        invariant whole == Before(since, Parse(buf, |handled|, sends))
        decreases |buf|
      {
        ghost var s := buf;
        ParseStep(s, |handled|, sends);
        BehindIsShorter(s);
        var done := ReadAndHandleCommand();
        if !done {
          assert since + [] == since;
          break;
        }
        Associate(before, since, FirstFrame(s), Parse(buf, |handled|, sends));
        since := since + [FirstFrame(s)];
        if !sends(|handled| - 1) {
          status := Gone;
          break;
        }
      }
      assert whole == Outcome(since, buf, status);
    }
  }

  lemma BehindIsShorter(s: seq<byte>)
    ensures Complete(s) ==> |Behind(s)| + HEADER_SIZE <= |s|
  {
  }

  lemma Associate(before: seq<Frame>, since: seq<Frame>, f: Frame, o: Outcome)
    ensures before + since + [f] == before + (since + [f])
    ensures Before(since, Before([f], o)) == Before(since + [f], o)
  {
    assert since + ([f] + o.frames) == (since + [f]) + o.frames;
  }
}

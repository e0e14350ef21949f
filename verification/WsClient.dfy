/** The probe's minimal WebSocket client: it finds the end of the handshake, then reads unmasked,
    unfragmented frames (section 5.2 of RFC 6455) out of whatever pieces the socket delivers. */
module WsClient {
  import opened Wrappers

  type byte = x: int | 0 <= x < 256
  type bytes = seq<byte>

  // ---- the byte stream, and what it says ----

  function BigEndian(s: bytes): nat {
    if s == [] then 0 else 256 * BigEndian(s[..|s| - 1]) + s[|s| - 1]
  }

  /** How many bytes follow the first two before the payload. */
  function ExtraLength(second: byte): nat {
    if second % 128 == 126 then 2 else if second % 128 == 127 then 8 else 0
  }

  function PayloadLength(second: byte, extra: bytes): nat {
    if second % 128 < 126 then second % 128 else BigEndian(extra)
  }

  datatype Frame = Frame(opcode: nat, payload: bytes)

  /** The frame at the head of `s` and the bytes after it, or `None` while it is incomplete. */
  function HeadFrame(s: bytes): (r: Option<(Frame, bytes)>)
    ensures r.Some? ==> |r.value.1| < |s|
  {
    if |s| < 2 || |s| < 2 + ExtraLength(s[1]) then None
    else
      var start := 2 + ExtraLength(s[1]);
      var end := start + PayloadLength(s[1], s[2..start]);
      if |s| < end then None else Some((Frame(s[0] % 16, s[start..end]), s[end..]))
  }

  /** The next text payload of `s` and what follows its frame; other frames are skipped. */
  function NextText(s: bytes): Option<(bytes, bytes)>
    decreases |s|
  {
    match HeadFrame(s)
    case None => None
    case Some((frame, rest)) => if frame.opcode == 1 then Some((frame.payload, rest)) else NextText(rest)
  }

  // ---- writing frames ----

  function Digits(n: nat, width: nat): (r: bytes)
    ensures |r| == width
  {
    if width == 0 then [] else Digits(n / 256, width - 1) + [n % 256]
  }

  function Pow256(k: nat): nat {
    if k == 0 then 1 else 256 * Pow256(k - 1)
  }

  /** Which of the three length forms a frame is written in. */
  datatype Form = Short | Medium | Long {
    function Capacity(): nat {
      match this
      case Short => 126
      case Medium => 0x1_0000
      case Long => 0x1_0000_0000_0000_0000
    }
  }

  datatype Written = Written(frame: Frame, form: Form) {
    predicate Valid() {
      frame.opcode < 16 && |frame.payload| < form.Capacity()
    }

    function Bytes(): bytes
      requires Valid()
    {
      var n := |frame.payload|;
      [128 + frame.opcode]
      + (match form case Short => [n] case Medium => [126] + Digits(n, 2) case Long => [127] + Digits(n, 8))
      + frame.payload
    }
  }

  ghost predicate AllValid(frames: seq<Written>) {
    forall i :: 0 <= i < |frames| ==> frames[i].Valid()
  }

  function Stream(frames: seq<Written>): bytes
    requires AllValid(frames)
  {
    if frames == [] then [] else frames[0].Bytes() + Stream(frames[1..])
  }

  function Texts(frames: seq<Written>): seq<bytes> {
    if frames == [] then []
    else (if frames[0].frame.opcode == 1 then [frames[0].frame.payload] else []) + Texts(frames[1..])
  }

  lemma {:induction false} DigitsRead(n: nat, width: nat)
    requires n < Pow256(width)
    ensures BigEndian(Digits(n, width)) == n
  {
    if width > 0 {
      var d := Digits(n, width);
      DigitsRead(n / 256, width - 1);
      assert d[..width - 1] == Digits(n / 256, width - 1);
    }
  }

  lemma Powers()
    ensures Pow256(2) == 0x1_0000 && Pow256(8) == 0x1_0000_0000_0000_0000
  {
    assert Pow256(4) == 256 * Pow256(3) && Pow256(3) == 256 * Pow256(2);
    assert Pow256(8) == 256 * Pow256(7) && Pow256(7) == 256 * Pow256(6);
    assert Pow256(6) == 256 * Pow256(5) && Pow256(5) == 256 * Pow256(4);
  }

  /** A written frame followed by anything is read back in full, in every length form. */
  lemma FrameReadsBack(w: Written, rest: bytes)
    requires w.Valid()
    ensures HeadFrame(w.Bytes() + rest) == Some((w.frame, rest))
  {
    var n, s := |w.frame.payload|, w.Bytes() + rest;
    Powers();
    var extra := match w.form case Short => [] case Medium => Digits(n, 2) case Long => Digits(n, 8);
    var start := 2 + |extra|;
    assert s[0] == 128 + w.frame.opcode && (128 + w.frame.opcode) % 16 == w.frame.opcode;
    match w.form {
      case Short =>
        assert s[1] == n && n % 128 == n;
      case Medium =>
        assert s[1] == 126;
        DigitsRead(n, 2);
      case Long =>
        assert s[1] == 127;
        DigitsRead(n, 8);
    }
    assert s[2..start] == extra;
    assert s[start..start + n] == w.frame.payload && s[start + n..] == rest;
  }

  // ---- the handshake ----

  const CRLF: bytes := [13, 10]
  const BLANK_LINE: bytes := [13, 10, 13, 10]
  const SWITCHING: bytes := [49, 48, 49]

  /** `s` around the first occurrence of `sep`. */
  function SplitAt(s: bytes, sep: bytes): (r: Option<(bytes, bytes)>)
    ensures r.Some? ==> s == r.value.0 + sep + r.value.1
  {
    if sep <= s then Some(([], s[|sep|..]))
    else if s == [] then None
    else
      match SplitAt(s[1..], sep)
      case Some(parts) => Some(([s[0]] + parts.0, parts.1))
      case None => None
  }

  /** Of the first byte the low four bits count and of the second the low seven, whatever the flags. */
  lemma FlagsIgnored(s: bytes, flags: nat, opcode: nat, masked: bool, length: nat)
    requires |s| >= 2 && opcode < 16 && s[0] == 16 * flags + opcode
    requires length < 128 && s[1] == (if masked then 128 else 0) + length
    ensures HeadFrame(s) == HeadFrame([128 + opcode, length] + s[2..])
  {
    var plain: bytes := [128 + opcode, length] + s[2..];
    assert s[0] % 16 == plain[0] % 16 && s[1] % 128 == plain[1] % 128;
    assert forall i, j :: 2 <= i <= j <= |s| ==> s[i..j] == plain[i..j];
    assert forall i :: 2 <= i <= |s| ==> s[i..] == plain[i..];
  }

  /** A frame not all there is none. */
  lemma PartIsNone(w: Written, k: nat)
    requires w.Valid() && k < |w.Bytes()|
    ensures HeadFrame(w.Bytes()[..k]) == None
  {
    FrameReadsBack(w, []);
    var b := w.Bytes();
    assert b + [] == b;
    if k >= 2 {
      var start := 2 + ExtraLength(b[1]);
      if k >= start { assert b[..k][2..start] == b[2..start]; }
    }
  }

  /** Bytes that arrive later do not move the first separator. */
  lemma {:induction false} SplitExtends(s: bytes, sep: bytes, more: bytes)
    requires SplitAt(s, sep).Some?
    ensures SplitAt(s + more, sep) == Some((SplitAt(s, sep).value.0, SplitAt(s, sep).value.1 + more))
  {
    if sep <= s {
      assert (s + more)[|sep|..] == s[|sep|..] + more;
    } else {
      // A separator at the front of the longer stream would end inside `s`.
      assert (s + more)[..|sep|] == s[..|sep|];
      assert (s + more)[1..] == s[1..] + more;
      SplitExtends(s[1..], sep, more);
    }
  }

  /** `sep` stands in `s` at `i`. */
  predicate StandsAt(s: bytes, sep: bytes, i: int) {
    0 <= i <= |s| - |sep| && s[i..i + |sep|] == sep
  }

  lemma StandsLater(s: bytes, sep: bytes, k: int)
    requires s != [] && sep != []
    ensures k >= 1 ==> (StandsAt(s, sep, k) <==> StandsAt(s[1..], sep, k - 1))
    ensures StandsAt(s, sep, 0) <==> sep <= s
  {
    if k >= 1 && k + |sep| <= |s| { assert s[1..][k - 1..k - 1 + |sep|] == s[k..k + |sep|]; }
    if |sep| <= |s| { assert s[0..|sep|] == s[..|sep|]; }
  }

  /** A split is at the first place the separator stands, and there is one wherever it stands at all. */
  lemma {:induction false} SplitIff(s: bytes, sep: bytes)
    requires sep != []
    ensures SplitAt(s, sep).Some? <==> exists i :: StandsAt(s, sep, i)
    ensures SplitAt(s, sep).Some? ==>
      var i := |SplitAt(s, sep).value.0|;
      StandsAt(s, sep, i) && forall k :: 0 <= k < i ==> !StandsAt(s, sep, k)
  {
    if s != [] {
      SplitIff(s[1..], sep);
      forall k ensures k >= 1 ==> (StandsAt(s, sep, k) <==> StandsAt(s[1..], sep, k - 1)) {
        StandsLater(s, sep, k);
      }
      StandsLater(s, sep, 0);
      forall k | StandsAt(s[1..], sep, k) ensures StandsAt(s, sep, k + 1) {
        StandsLater(s, sep, k + 1);
      }
      assert forall k :: StandsAt(s, sep, k) ==> k >= 0;
      hide StandsAt;
    }
  }

  /** The status line says the protocol is switched. */
  predicate Accepted(head: bytes) {
    var line := match SplitAt(head + BLANK_LINE, CRLF) case Some(parts) => parts.0 case None => head;
    SplitAt(line, SWITCHING).Some?
  }

  /** It does exactly when the first line, of the head and the blank line after it, has `101` in it. */
  lemma AcceptedIff(head: bytes)
    ensures var s := head + [13, 10, 13, 10];
      exists n :: 0 <= n <= |head| && StandsAt(s, [13, 10], n) && (forall k :: 0 <= k < n ==> !StandsAt(s, [13, 10], k))
               && (Accepted(head) <==> exists i :: StandsAt(head[..n], [49, 48, 49], i))
  {
    var s := head + BLANK_LINE;
    SplitIff(s, CRLF);
    assert s[|head|..|head| + 2] == CRLF;
    assert StandsAt(s, CRLF, |head|);
    var n := |SplitAt(s, CRLF).value.0|;
    assert n <= |head|;
    assert SplitAt(s, CRLF).value.0 == s[..n] == head[..n];
    SplitIff(head[..n], SWITCHING);
  }

  // ---- the socket ----

  /** One `recv`: some bytes, where none at all is the peer's end of stream, or a timeout. */
  datatype Receipt = Chunk(data: bytes) | Timeout

  /** Every byte the socket has still to deliver, whatever the pieces. */
  function Delivered(socket: seq<Receipt>): bytes {
    if socket == [] then []
    else (if socket[0].Chunk? then socket[0].data else []) + Delivered(socket[1..])
  }

  /** A socket that delivers its bytes without a timeout, and then ends. */
  ghost predicate Smooth(socket: seq<Receipt>) {
    forall i :: 0 <= i < |socket| ==> socket[i].Chunk? && socket[i].data != []
  }

  /** What can be read before the socket first times out or ends, and whether it is a timeout. */
  function Avail(socket: seq<Receipt>): bytes {
    if socket == [] || socket[0].Timeout? || socket[0].data == [] then [] else socket[0].data + Avail(socket[1..])
  }

  predicate ThenTimesOut(socket: seq<Receipt>) {
    socket != [] && (socket[0].Timeout? || (socket[0].data != [] && ThenTimesOut(socket[1..])))
  }

  lemma Regroup(a: bytes, b: bytes, c: bytes)
    ensures (a + b) + c == a + (b + c)
  {
  }

  /** One receipt with something in it. */
  lemma MoreAtHand(buf: bytes, socket: seq<Receipt>)
    requires socket != [] && socket[0].Chunk? && socket[0].data != []
    ensures (buf + socket[0].data) + Avail(socket[1..]) == buf + Avail(socket)
    ensures (buf + socket[0].data) + Delivered(socket[1..]) == buf + Delivered(socket)
    ensures ThenTimesOut(socket[1..]) == ThenTimesOut(socket) && (Smooth(socket) ==> Smooth(socket[1..]))
  {
    Regroup(buf, socket[0].data, Avail(socket[1..]));
    Regroup(buf, socket[0].data, Delivered(socket[1..]));
  }

  /** The end, or a timeout. */
  lemma NoMoreAtHand(buf: bytes, socket: seq<Receipt>)
    requires socket == [] || socket[0].Timeout? || socket[0].data == []
    ensures buf + Avail(socket) == buf && (ThenTimesOut(socket) <==> socket != [] && socket[0].Timeout?)
    ensures Smooth(socket) ==> socket == [] && buf + Delivered(socket) == buf
    ensures socket != [] ==> buf + Delivered(socket[1..]) == buf + Delivered(socket)
  {
    if socket != [] && socket[0].Chunk? { assert [] + Delivered(socket[1..]) == Delivered(socket[1..]); }
    if socket != [] && socket[0].Timeout? { assert [] + Delivered(socket[1..]) == Delivered(socket[1..]); }
  }

  lemma {:induction false} SmoothAvail(socket: seq<Receipt>)
    requires Smooth(socket)
    ensures Avail(socket) == Delivered(socket) && !ThenTimesOut(socket)
  {
    if socket != [] { SmoothAvail(socket[1..]); }
  }

  datatype Outcome = Got(value: bytes) | TimedOut | Closed

  datatype Greeting = Ready | Refused | GreetingTimedOut | GreetingClosed

  /** What a read for text ends in. The last two are the source's exceptions. */
  datatype Reading = Text(payload: bytes) | Nothing | BrokenOff | ClosedMidFrame

  /** One frame's reading: the frame, a timeout before it began, or its loss half way. */
  datatype FrameReading = Read(frame: Frame) | Idle | Lost(timedOut: bool)

  lemma NoFrame(s: bytes, left: nat)
    requires |s| < 2 || (left == |s| - 2 && left < ExtraLength(s[1]))
    ensures HeadFrame(s).None?
  {
  }

  lemma HeaderBytes(s: bytes, hdr: bytes, rest: bytes)
    requires |hdr| == 2 && s == hdr + rest
    ensures |s| >= 2 && s[1] == hdr[1] && |rest| == |s| - 2
  {
  }

  /** What reading a frame comes to when `s` is at hand: the frame; or nothing yet; or half of it. */
  function FrameOf(s: bytes, timesOut: bool): FrameReading {
    match HeadFrame(s)
    case Some(parts) => Read(parts.0)
    case None => if |s| < 2 && timesOut then Idle else Lost(timesOut)
  }

  /** What looking for a text comes to when `s` is at hand, with patience for so many frames. */
  function TextOf(s: bytes, timesOut: bool, patience: nat): Reading
    decreases patience
  {
    if patience == 0 then Nothing
    else
      match HeadFrame(s)
      case Some(parts) => if parts.0.opcode == 1 then Text(parts.0.payload) else TextOf(parts.1, timesOut, patience - 1)
      case None => if !timesOut then ClosedMidFrame else if |s| < 2 then Nothing else BrokenOff
  }

  /** The whole frames at the head of `s`, and what is left after them. */
  function WholeFrames(s: bytes): seq<Frame>
    decreases |s|
  {
    match HeadFrame(s) case None => [] case Some(parts) => [parts.0] + WholeFrames(parts.1)
  }

  function Left(s: bytes): bytes
    decreases |s|
  {
    match HeadFrame(s) case None => s case Some(parts) => Left(parts.1)
  }

  /** The first `n` frames, or as many as there are, have no text. */
  ghost predicate NoText(all: seq<Frame>, n: nat) {
    forall k :: 0 <= k < |all| && k < n ==> all[k].opcode != 1
  }

  /** The first of the first `n` frames with a text has `payload`. */
  ghost predicate FirstText(all: seq<Frame>, n: nat, payload: bytes) {
    exists i :: 0 <= i < |all| && i < n && all[i] == Frame(1, payload) && NoText(all, i)
  }

  lemma NoTextMore(frame: Frame, tail: seq<Frame>, n: nat)
    requires frame.opcode != 1
    ensures NoText([frame] + tail, n + 1) <==> NoText(tail, n)
  {
    var all := [frame] + tail;
    assert forall k :: 0 <= k < |tail| ==> all[k + 1] == tail[k];
    assert forall k :: 0 < k < |all| ==> all[k] == tail[k - 1];
  }

  lemma FirstTextMore(frame: Frame, tail: seq<Frame>, n: nat, payload: bytes)
    requires frame.opcode != 1 && FirstText(tail, n, payload)
    ensures FirstText([frame] + tail, n + 1, payload)
  {
    var i :| 0 <= i < |tail| && i < n && tail[i] == Frame(1, payload) && NoText(tail, i);
    NoTextMore(frame, tail, i);
    assert ([frame] + tail)[i + 1] == tail[i];
  }

  /** So the first of the whole frames with a text decides, if patience lasts as far; else, if it does not
      outlast them, nothing; else what is left of a frame at the end: at most a byte of it when the socket
      timed out is nothing, more is a frame broken off, and an ended socket is closed on it. */
  lemma {:induction false} TextOfIs(s: bytes, timesOut: bool, patience: nat)
    ensures var all := WholeFrames(s);
      match TextOf(s, timesOut, patience)
      case Text(payload) => FirstText(all, patience, payload)
      case Nothing => NoText(all, patience) && (patience <= |all| || (timesOut && |Left(s)| < 2))
      case BrokenOff => NoText(all, |all|) && |all| < patience && timesOut && |Left(s)| >= 2
      case ClosedMidFrame => NoText(all, |all|) && |all| < patience && !timesOut
    decreases patience
  {
    hide HeadFrame;
    if patience > 0 && HeadFrame(s).Some? {
      var (frame, rest) := HeadFrame(s).value;
      var tail := WholeFrames(rest);
      assert WholeFrames(s) == [frame] + tail;
      if frame.opcode == 1 {
        assert ([frame] + tail)[0] == Frame(1, frame.payload) && NoText([frame] + tail, 0);
      } else {
        TextOfIs(rest, timesOut, patience - 1);
        NoTextMore(frame, tail, patience - 1);
        NoTextMore(frame, tail, |tail|);
        hide NoText, FirstText;
        var r := TextOf(rest, timesOut, patience - 1);
        if r.Text? { FirstTextMore(frame, tail, patience - 1, r.payload); }
      }
    }
  }

  /** A header, its extra length bytes and what follows decide the head frame. */
  lemma HeadPieces(s: bytes, hdr: bytes, extra: bytes, rest: bytes)
    requires |hdr| == 2 && |extra| == ExtraLength(hdr[1]) && s == hdr + (extra + rest)
    ensures var n := PayloadLength(hdr[1], extra);
      HeadFrame(s) == if |rest| < n then None else Some((Frame(hdr[0] % 16, rest[..n]), rest[n..]))
  {
    var n, start := PayloadLength(hdr[1], extra), 2 + |extra|;
    assert s[0] == hdr[0] && s[1] == hdr[1] && s[2..start] == extra;
    assert s == (hdr + extra) + rest && s[start..] == rest;
    if |rest| >= n {
      assert s[start..start + n] == s[start..][..n];
      assert s[start + n..] == s[start..][n..];
    }
  }

  class Client {
    var buf: bytes
    var socket: seq<Receipt>

    constructor (socket: seq<Receipt>)
      ensures buf == [] && this.socket == socket
    {
      this.buf := [];
      this.socket := socket;
    }

    /** The bytes not yet handed to the caller. */
    function Unread(): bytes
      reads this
    {
      buf + Delivered(socket)
    }

    /** What can be had of it before the socket times out or ends. */
    function AtHand(): bytes
      reads this
    {
      buf + Avail(socket)
    }

    method Recv() returns (r: Receipt)
      modifies this`socket
      ensures r == if old(socket) == [] then Chunk([]) else old(socket)[0]
      ensures socket == if old(socket) == [] then [] else old(socket)[1..]
    {
      if socket == [] { return Chunk([]); }
      r := socket[0];
      socket := socket[1..];
    }

    /** Reads up to the first blank line and keeps what arrived behind it. Whether the greeting is
        complete, whether it is accepted, and the bytes left for the frames depend on the stream
        alone, not on its pieces. */
    method Greet() returns (r: Greeting)
      requires buf == []
      modifies this
      ensures r == Ready || r == Refused ==>
        && SplitAt(old(Delivered(socket)), BLANK_LINE).Some?
        && var parts := SplitAt(old(Delivered(socket)), BLANK_LINE).value;
           (r == Ready <==> Accepted(parts.0)) && (r == Ready ==> Unread() == parts.1)
      ensures Smooth(old(socket)) ==> Smooth(socket)
      ensures Smooth(old(socket)) ==>
        (r == Ready || r == Refused <==> SplitAt(old(Delivered(socket)), BLANK_LINE).Some?)
      ensures var whole := SplitAt(old(Avail(socket)), BLANK_LINE);
        r == if whole.Some? then (if Accepted(whole.value.0) then Ready else Refused)
             else if ThenTimesOut(old(socket)) then GreetingTimedOut else GreetingClosed
      ensures r == Ready ==> AtHand() == SplitAt(old(Avail(socket)), BLANK_LINE).value.1
    {
      hide Accepted, Avail, Delivered, ThenTimesOut, Smooth, SplitAt;
      if Smooth(socket) { SmoothAvail(socket); }
      var resp: bytes := [];
      assert resp + Delivered(socket) == Delivered(socket) && resp + Avail(socket) == Avail(socket);
      while SplitAt(resp, BLANK_LINE).None?
        invariant resp + Delivered(socket) == old(Delivered(socket))
        invariant resp + Avail(socket) == old(Avail(socket)) && ThenTimesOut(socket) == ThenTimesOut(old(socket))
        invariant Smooth(old(socket)) ==> Smooth(socket)
        decreases |socket|, if SplitAt(resp, BLANK_LINE).None? then 1 else 0
      {
        if socket == [] {
          NoMoreAtHand(resp, socket);
          return GreetingClosed;
        }
        ghost var was := socket;
        var receipt := Recv();
        match receipt
        case Chunk(data) =>
          if data == [] {
            NoMoreAtHand(resp, was);
            return GreetingClosed;
          }
          MoreAtHand(resp, was);
          resp := resp + data;
        case Timeout =>
          NoMoreAtHand(resp, was);
          return GreetingTimedOut;
      }
      SplitExtends(resp, BLANK_LINE, Delivered(socket));
      SplitExtends(resp, BLANK_LINE, Avail(socket));
      var parts := SplitAt(resp, BLANK_LINE).value;
      if !Accepted(parts.0) { return Refused; }
      buf := parts.1;
      r := Ready;
    }

    /** Exactly `n` bytes off the front of the stream. A failure loses nothing, and a smooth socket
        fails exactly when the stream is too short. */
    method ReadExact(n: nat) returns (r: Outcome)
      modifies this
      ensures r.Got? ==> |r.value| == n && old(Unread()) == r.value + Unread()
      ensures !r.Got? ==> Unread() == old(Unread())
      ensures Smooth(old(socket)) ==> Smooth(socket) && (r.Got? <==> n <= |old(Unread())|) && !r.TimedOut?
      ensures var ready := old(AtHand());
        if n <= |ready| then r == Got(ready[..n]) && AtHand() == ready[n..] && ThenTimesOut(socket) == ThenTimesOut(old(socket))
        else r == if ThenTimesOut(old(socket)) then TimedOut else Closed
    {
      hide Avail, Delivered, ThenTimesOut, Smooth;
      if Smooth(socket) { SmoothAvail(socket); }
      while |buf| < n
        invariant Unread() == old(Unread())
        invariant AtHand() == old(AtHand()) && ThenTimesOut(socket) == ThenTimesOut(old(socket))
        invariant Smooth(old(socket)) ==> Smooth(socket)
        decreases |socket|, n - |buf|
      {
        if socket == [] {
          NoMoreAtHand(buf, socket);
          return Closed;
        }
        ghost var was := socket;
        var receipt := Recv();
        match receipt
        case Chunk(data) =>
          if data == [] {
            NoMoreAtHand(buf, was);
            return Closed;
          }
          MoreAtHand(buf, was);
          buf := buf + data;
        case Timeout =>
          NoMoreAtHand(buf, was);
          return TimedOut;
      }
      r := Got(buf[..n]);
      assert (buf + Avail(socket))[..n] == buf[..n] && (buf + Avail(socket))[n..] == buf[n..] + Avail(socket);
      assert buf + Delivered(socket) == buf[..n] + (buf[n..] + Delivered(socket));
      buf := buf[n..];
    }

    /** One frame off the front of the stream. */
    method ReadFrame() returns (r: FrameReading)
      modifies this
      ensures r.Read? ==> HeadFrame(old(Unread())) == Some((r.frame, Unread()))
      ensures r.Idle? ==> Unread() == old(Unread())
      ensures Smooth(old(socket)) ==>
        Smooth(socket) && (r.Read? <==> HeadFrame(old(Unread())).Some?) && !r.Idle?
      ensures r == FrameOf(old(AtHand()), ThenTimesOut(old(socket)))
      ensures r.Read? ==> AtHand() == HeadFrame(old(AtHand())).value.1 && ThenTimesOut(socket) == ThenTimesOut(old(socket))
    {
      hide HeadFrame, Avail, Delivered, Smooth, ThenTimesOut;
      ghost var s, h := Unread(), AtHand();
      var hdr := ReadExact(2);
      if !hdr.Got? {
        if Smooth(old(socket)) { NoFrame(s, 0); }
        NoFrame(h, 0);
        return if hdr.TimedOut? then Idle else Lost(false);
      }
      ghost var s1, h1 := Unread(), AtHand();
      HeaderBytes(s, hdr.value, s1);
      HeaderBytes(h, hdr.value, h1);
      var extra := Got([]);
      if ExtraLength(hdr.value[1]) != 0 { extra := ReadExact(ExtraLength(hdr.value[1])); }
      if !extra.Got? {
        if Smooth(old(socket)) { NoFrame(s, |s1|); }
        NoFrame(h, |h1|);
        return Lost(extra.TimedOut?);
      }
      ghost var s2, h2 := Unread(), AtHand();
      assert s1 == extra.value + s2 && h1 == extra.value + h2;
      HeadPieces(s, hdr.value, extra.value, s2);
      HeadPieces(h, hdr.value, extra.value, h2);
      var n := PayloadLength(hdr.value[1], extra.value);
      var body := ReadExact(n);
      if !body.Got? { return Lost(body.TimedOut?); }
      assert s2[..n] == body.value && s2[n..] == Unread();
      r := Read(Frame(hdr.value[0] % 16, body.value));
    }

    /** The next text frame, looked for until `patience` rounds have found the deadline not yet
        reached. A text found is the stream's next text and its frame is consumed; coming back with
        nothing, by a timeout between frames or by the deadline, loses no text. On a smooth socket
        enough patience finds the text whenever the stream holds one. */
    method ReadText(patience: nat) returns (r: Reading)
      modifies this
      ensures r.Text? ==> NextText(old(Unread())) == Some((r.payload, Unread()))
      ensures r.Nothing? ==> NextText(old(Unread())) == NextText(Unread())
      ensures Smooth(old(socket)) ==>
        && Smooth(socket)
        && (NextText(old(Unread())).None? ==> !r.Text?)
        && (NextText(old(Unread())).Some? && |old(Unread())| <= patience ==> r.Text?)
      ensures r == TextOf(old(AtHand()), ThenTimesOut(old(socket)), patience)
    {
      hide HeadFrame, Avail, Delivered, ThenTimesOut;
      var round := 0;
      while round < patience
        invariant round <= patience
        invariant NextText(Unread()) == NextText(old(Unread()))
        invariant Smooth(old(socket)) ==> Smooth(socket)
        invariant round + |Unread()| <= |old(Unread())|
        invariant TextOf(AtHand(), ThenTimesOut(socket), patience - round) == TextOf(old(AtHand()), ThenTimesOut(old(socket)), patience)
      {
        var next := ReadFrame();
        match next
        case Idle => return Nothing;
        case Lost(timedOut) => return if timedOut then BrokenOff else ClosedMidFrame;
        case Read(frame) =>
          if frame.opcode == 1 { return Text(frame.payload); }
          round := round + 1;
      }
      r := Nothing;
    }

    method ReadNext(ghost frames: seq<Written>, patience: nat) returns (payload: bytes, ghost rest: seq<Written>)
      requires AllValid(frames) && Smooth(socket) && Unread() == Stream(frames)
      requires Texts(frames) != [] && |Unread()| <= patience
      modifies this
      ensures AllValid(rest) && Smooth(socket) && Unread() == Stream(rest)
      ensures Texts(frames) == [payload] + Texts(rest) && |Unread()| <= patience
    {
      hide NextText, Stream, Texts;
      ghost var first;
      first, rest := StreamSkips(frames);
      var r := ReadText(patience);
      payload := r.payload;
    }

    /** However the frames are cut into pieces, successive reads return their texts, each once and
        in order. */
    method ReadTexts(ghost frames: seq<Written>, count: nat, patience: nat) returns (texts: seq<bytes>)
      requires AllValid(frames) && Smooth(socket) && Unread() == Stream(frames)
      requires count == |Texts(frames)| && |Unread()| <= patience
      modifies this
      ensures texts == Texts(frames)
    {
      texts := [];
      ghost var left := frames;
      while |texts| < count
        invariant AllValid(left) && Smooth(socket) && Unread() == Stream(left)
        invariant texts + Texts(left) == Texts(frames) && |Unread()| <= patience
      {
        hide Stream, Texts;
        var payload;
        payload, left := ReadNext(left, patience);
        texts := texts + [payload];
      }
      assert Texts(left) == [];
    }
  }

  // ---- the stream of written frames, read ----

  /** The first text of written frames is the first text of their bytes, and the rest stays. */
  lemma {:induction false} StreamSkips(frames: seq<Written>) returns (payload: bytes, rest: seq<Written>)
    requires AllValid(frames) && Texts(frames) != []
    ensures AllValid(rest) && Texts(frames) == [payload] + Texts(rest)
    ensures NextText(Stream(frames)) == Some((payload, Stream(rest)))
    ensures |Stream(rest)| <= |Stream(frames)|
  {
    rest := frames[1..];
    FrameReadsBack(frames[0], Stream(rest));
    if frames[0].frame.opcode == 1 {
      payload := frames[0].frame.payload;
    } else {
      payload, rest := StreamSkips(rest);
    }
  }
}

/** The control channel's server: one decoder and one outbound queue per client, and the queue of commands. */
module WsServer {
  import opened Basics
  import opened WsFrames
  import opened WsStreams

  /** The size field of a string cannot hold more than 64 bits. */
  type Text = s: Bytes | |s| < MAX_LENGTH witness []

  /** What a send call does: it takes some bytes, would block, or fails. */
  datatype SendResult = Sent(n: nat) | WouldBlock | Failed

  /** How a flush ended: the queue is empty, the kernel takes no more for now, or the connection is broken. */
  datatype FlushEnd = Drained | Blocked | Broken

  const PONG_BYTES: nat := 125

  function PongPayload(payload: Bytes): Bytes {
    if |payload| <= PONG_BYTES then payload else payload[..PONG_BYTES]
  }

  datatype Pending = Pending(fd: int, text: Bytes)

  /** What one frame adds to the command queue ... */
  function CommandOf(fd: int, f: Frame): seq<Pending> {
    if f.opcode == OP_TEXT then [Pending(fd, f.payload)] else []
  }

  /** ... and what it makes the server answer at once. */
  function PongOf(f: Frame): seq<Outgoing> {
    if f.opcode == OP_PING then [Outgoing(HEAD_PONG, PongPayload(f.payload))] else []
  }

  function Commands(fd: int, fs: seq<Frame>): seq<Pending> {
    if fs == [] then [] else Commands(fd, fs[..|fs| - 1]) + CommandOf(fd, fs[|fs| - 1])
  }

  function Pongs(fs: seq<Frame>): seq<Outgoing> {
    if fs == [] then [] else Pongs(fs[..|fs| - 1]) + PongOf(fs[|fs| - 1])
  }

  /** The commands queued for a connection are exactly the text payloads it sent, in order. */
  lemma {:induction false} CommandsAreTexts(fd: int, fs: seq<Frame>)
    ensures |Commands(fd, fs)| == |Texts(fs)|
    ensures forall i :: 0 <= i < |Texts(fs)| ==> Commands(fd, fs)[i] == Pending(fd, Texts(fs)[i])
  {
    if fs != [] {
      CommandsAreTexts(fd, fs[..|fs| - 1]);
    }
  }

  /** What was sent and what is still queued is the greeting followed by whole frames. */
  ghost predicate OneStream(sent: Bytes, out: Bytes, greeting: Bytes, queued: seq<Outgoing>) {
    sent + out == greeting + Wire(queued)
  }

  ghost predicate SomeOf(queued: seq<Outgoing>, offered: seq<Outgoing>) {
    Subsequence(queued, offered) && forall i :: 0 <= i < |queued| ==> |queued[i].payload| < MAX_LENGTH
  }

  lemma StreamStarts(greeting: Bytes)
    ensures OneStream([], greeting, greeting, []) && SomeOf([], [])
  {
    assert [] + greeting == greeting + Wire([]);
  }

  lemma {:induction false} StreamGrows(sent: Bytes, out: Bytes, greeting: Bytes, queued: seq<Outgoing>, f: Outgoing)
    requires OneStream(sent, out, greeting, queued)
    ensures OneStream(sent, out + f.Encoded(), greeting, queued + [f])
  {
    WireOneMore(queued, f);
    Assoc(sent, out, f.Encoded());
    Assoc(greeting, Wire(queued), f.Encoded());
  }

  lemma {:induction false} OfferGrows(queued: seq<Outgoing>, offered: seq<Outgoing>, f: Outgoing)
    requires SomeOf(queued, offered) && |f.payload| < MAX_LENGTH
    ensures SomeOf(queued, offered + [f]) && SomeOf(queued + [f], offered + [f])
  {
    OneMoreOffered(queued, offered, f);
  }

  /** All there is to a client at one moment. */
  datatype Snapshot = Snapshot(open: bool, dead: bool, serveOnly: bool, inBytes: Bytes, outBytes: Bytes, stream: Bytes,
                               taken: seq<Frame>, greeting: Bytes, sent: Bytes, offered: seq<Outgoing>,
                               queued: seq<Outgoing>)
  {
    predicate Live() { open && !dead }
  }

  predicate Refuses(v: Snapshot, size: nat, maxBacklog: nat) {
    v.Live() && |v.outBytes| + size > maxBacklog
  }

  /** Nothing on the inbound side has changed, and nothing sent has become unsent. */
  predicate OnlySending(v: Snapshot, v': Snapshot) {
    v'.open && v'.stream == v.stream && v'.taken == v.taken && v.sent <= v'.sent
  }

  /** A frame was queued whole, or not at all. */
  predicate Queued(v: Snapshot, v': Snapshot, f: Outgoing, encoded: Bytes, accepted: bool) {
    v' == if accepted then v.(offered := v.offered + [f], queued := v.queued + [f], outBytes := v.outBytes + encoded)
          else v.(offered := v.offered + [f])
  }

  /** Some of what was queued was sent. */
  predicate Sending(v: Snapshot, v': Snapshot) {
    v' == v.(sent := v'.sent, outBytes := v'.outBytes, dead := v'.dead) && v.sent <= v'.sent && (v.dead ==> v'.dead)
  }

  /** A client that was told f: it was offered the frame, and has all of it or nothing of it in its queue. */
  predicate Told(v: Snapshot, v': Snapshot, f: Outgoing, maxBacklog: nat) {
    if v.Live() then
      OnlySending(v, v') && v'.offered == v.offered + [f] &&
      v'.queued == if Refuses(v, |f.Encoded()|, maxBacklog) then v.queued else v.queued + [f]
    else v' == v
  }

  /** A text for one descriptor: its client was told, every other was left alone. */
  predicate Heard(v: Snapshot, v': Snapshot, addressed: bool, text: Text, maxBacklog: nat) {
    if addressed then Told(v, v', Outgoing(HEAD_TEXT, text), maxBacklog) else v' == v
  }

  /** A client that was offered frames until it died, or all of them. */
  predicate Answered(v: Snapshot, v': Snapshot, fs: seq<Outgoing>) {
    if v.Live() then
      OnlySending(v, v') && v.offered <= v'.offered <= v.offered + fs && (!v'.dead ==> v'.offered == v.offered + fs)
    else v' == v
  }

  /** An open connection only moves forward: what was sent or taken in stays so. */
  predicate Onward(v: Snapshot, v': Snapshot) {
    v.open ==>
      v'.open && v.sent <= v'.sent && v.stream <= v'.stream && v.taken <= v'.taken && v.offered <= v'.offered
  }

  /** What the poll call and the reads after it report for one client. Before the handshake the request
      is read as a whole: not complete yet, junk, an upgrade with its response, or a plain one with its page. */
  datatype Input =
    Quiet | Stream(chunks: seq<Bytes>, closed: bool) | Junk | Upgrade(response: Bytes) | Plain(page: Bytes)

  datatype Poll = Poll(failed: bool, input: Input, writable: bool)

  /** The frames a client's stream has yielded in between. */
  function NewFrames(v: Snapshot, v': Snapshot): seq<Frame> {
    if v.taken <= v'.taken then v'.taken[|v.taken|..] else []
  }

  /** What one poll does to one client: the bytes read join its stream, and what ends a connection ends it. */
  predicate Served(v: Snapshot, v': Snapshot, poll: Poll) {
    Onward(v, v') && (v.serveOnly ==> v'.serveOnly) &&
    if poll.failed then v'.dead && v'.stream == v.stream
    else if v.open then
      match poll.input
      case Stream(chunks, closed) =>
        v'.stream <= v.stream + Joined(chunks) && (!v'.dead ==> !closed && v'.stream == v.stream + Joined(chunks))
      case _ => v'.stream == v.stream
    else
      match poll.input
      case Upgrade(response) => v'.open && v'.stream == [] && v'.serveOnly == v.serveOnly && v'.greeting == response
      case Plain(page) => !v'.open && v'.serveOnly
      case Junk => !v'.open && v'.dead
      case _ => !v'.open
  }

  /** Sending afterwards takes nothing of that back. */
  lemma FlushedAfter(v: Snapshot, v': Snapshot, v'': Snapshot, poll: Poll)
    requires Served(v, v', poll) && Sending(v', v'')
    ensures Served(v, v'', poll) && NewFrames(v, v'') == NewFrames(v, v')
  {
  }

  /** Reading the first n chunks, and all of them if the client is still alive, is serving it. */
  lemma StreamServed(v: Snapshot, v': Snapshot, poll: Poll, n: nat, done: seq<Frame>)
    requires v.open && !poll.failed && poll.input.Stream? && n <= |poll.input.chunks|
    requires v'.open && v'.serveOnly == v.serveOnly && v'.sent == v.sent
    requires v'.stream == v.stream + Joined(poll.input.chunks[..n]) && v'.taken == v.taken + done
    requires v.offered <= v'.offered
    requires !v'.dead ==> !poll.input.closed && n == |poll.input.chunks|
    ensures Served(v, v', poll) && NewFrames(v, v') == done
  {
    var chunks := poll.input.chunks;
    JoinedPrefix(chunks, n);
    assert chunks[..|chunks|] == chunks;
  }

  /** A page client stays one: it is open exactly if it was or an upgrade request has come in before its page was
      drained, and it is dead as soon as nothing is queued for it. */
  lemma PageClientLife(c: Client, v: Snapshot, poll: Poll)
    requires c.Valid() && Served(v, c.View(), poll) && v.serveOnly && !v.dead && !poll.failed
    ensures c.serveOnly && (c.open <==> v.open || poll.input.Upgrade?)
    ensures c.outBytes == [] ==> c.dead
  {
  }

  lemma AnsweredNothing(v: Snapshot)
    ensures Answered(v, v, [])
  {
  }

  lemma AnsweredOneMore(v: Snapshot, v': Snapshot, v'': Snapshot, fs: seq<Outgoing>, f: Outgoing, maxBacklog: nat)
    requires Answered(v, v', fs) && Told(v', v'', f, maxBacklog)
    ensures Answered(v, v'', fs + [f])
  {
    Assoc(v.offered, fs, [f]);
    if v.Live() && v'.dead {
      assert v.offered + fs <= v.offered + (fs + [f]);
    }
  }

  lemma OnwardThenAnswered(v: Snapshot, v': Snapshot, v'': Snapshot, fs: seq<Outgoing>)
    requires Onward(v, v') && Answered(v', v'', fs)
    ensures Onward(v, v'')
  {
  }

  class Client {
    const fd: int
    const maxBacklog: nat
    var open: bool
    var dead: bool
    var serveOnly: bool
    var inBytes: Bytes
    var outBytes: Bytes
    /** Everything received and decoded since the handshake, and the frames it held. */
    ghost var stream: Bytes
    ghost var taken: seq<Frame>
    /** The handshake response, everything handed to the kernel, and the frames offered and accepted. */
    ghost var greeting: Bytes
    ghost var sent: Bytes
    ghost var offered: seq<Outgoing>
    ghost var queued: seq<Outgoing>

    ghost function View(): Snapshot
      reads this
    {
      Snapshot(open, dead, serveOnly, inBytes, outBytes, stream, taken, greeting, sent, offered, queued)
    }

    /** Inbound: the state is what decoding the whole stream at once gives. */
    ghost predicate Decoded()
      reads `stream, `taken, `inBytes, `dead
    {
      taken == Decode(stream).taken && (!dead ==> Decode(stream) == Inbound(taken, inBytes, false))
    }

    /** Outbound: the response and then whole frames, some of those offered, within the backlog limit. */
    ghost predicate Untorn()
      reads `sent, `outBytes, `greeting, `queued, `offered
    {
      OneStream(sent, outBytes, greeting, queued) && SomeOf(queued, offered) &&
      (|outBytes| <= maxBacklog || |outBytes| <= |greeting|)
    }

    ghost predicate Streaming()
      reads `open, `serveOnly, `sent, `outBytes, `greeting, `queued, `offered
    {
      (open && !serveOnly ==> Untorn()) && (!open && !serveOnly ==> sent == outBytes == [])
    }

    /** A page client lives only as long as something is queued for it. */
    ghost predicate OutboundValid()
      reads `open, `dead, `serveOnly, `sent, `outBytes, `greeting, `queued, `offered
    {
      Streaming() && (serveOnly && outBytes == [] ==> dead)
    }

    ghost predicate Valid()
      reads this
    {
      (if open then Decoded() else taken == []) && OutboundValid()
    }

    /** The bytes so far are all decoded, and nothing but them closed the connection. */
    ghost predicate Settled()
      reads `stream, `taken, `inBytes, `dead
    {
      Decoded() && (dead <==> Decode(stream).dead)
    }

    ghost predicate Midway(rest: Inbound)
      reads `stream, `taken, `inBytes, `dead
    {
      !dead && PartlyDecoded() && rest == Decode(inBytes)
    }

    /** Between receiving bytes and having decoded them all. */
    ghost predicate PartlyDecoded()
      reads `stream, `taken, `inBytes
    {
      Decode(stream) == Append(taken, Decode(inBytes))
    }

    constructor (fd: int, maxBacklog: nat)
      ensures Valid() && !open && !dead && !serveOnly
      ensures this.fd == fd && this.maxBacklog == maxBacklog
    {
      this.fd, this.maxBacklog := fd, maxBacklog;
      open, dead, serveOnly, inBytes, outBytes := false, false, false, [], [];
      stream, taken, greeting, sent, offered, queued := [], [], [], [], [], [];
    }

    /** One send call: any number of bytes, or none. */
    method Send() returns (r: SendResult)
      requires outBytes != []
      ensures r.Sent? ==> 1 <= r.n <= |outBytes|
    {
      var n: int := *;
      var blocked: bool := *;
      r := if 1 <= n <= |outBytes| then Sent(n) else if blocked then WouldBlock else Failed;
    }

    /** Send until the queue is empty or the kernel takes no more; the queue and what was sent stay one stream. A broken
        connection is dead, and so is a page client that has been served. */
    method Flush() returns (end: FlushEnd)
      requires Streaming()
      modifies `outBytes, `sent, `dead
      ensures OutboundValid() && old(sent) <= sent && sent + outBytes == old(sent + outBytes)
      ensures end == Drained <==> outBytes == []
      ensures dead <==> old(dead) || end == Broken || (serveOnly && end == Drained)
      ensures Sending(old(View()), View())
    {
      while outBytes != []
        invariant old(sent) <= sent && sent + outBytes == old(sent + outBytes) && |outBytes| <= |old(outBytes)|
        invariant dead == old(dead)
        invariant old(outBytes) == [] ==> sent == old(sent) && outBytes == []
        decreases |outBytes|
      {
        var r := Send();
        match r {
          case Sent(n) =>
            assert outBytes == outBytes[..n] + outBytes[n..];
            Assoc(sent, outBytes[..n], outBytes[n..]);
            sent := sent + outBytes[..n];
            outBytes := outBytes[n..];
          case WouldBlock => return Blocked;
          case Failed =>
            dead := true;
            return Broken;
        }
      }
      if serveOnly { dead := true; }
      end := Drained;
    }

    /** Add a whole frame to the queue if the backlog allows; otherwise nothing of it. */
    method Offer(f: Outgoing, encoded: Bytes) returns (accepted: bool)
      requires OutboundValid() && open && encoded == f.Encoded() && |f.payload| < MAX_LENGTH
      modifies `outBytes, `offered, `queued
      ensures OutboundValid()
      ensures accepted <==> |old(outBytes)| + |f.Encoded()| <= maxBacklog
      ensures Queued(old(View()), View(), f, encoded, accepted)
    {
      if !serveOnly {
        OfferGrows(queued, offered, f);
        StreamGrows(sent, outBytes, greeting, queued, f);
      }
      offered := offered + [f];
      if |outBytes| + |encoded| > maxBacklog { return false; }
      queued := queued + [f];
      outBytes := outBytes + encoded;
      return true;
    }

    /** Queue a frame, or drop it whole; then send what the kernel takes. */
    method Tell(f: Outgoing, encoded: Bytes) returns (accepted: bool)
      requires OutboundValid() && open && !dead && encoded == f.Encoded() && |f.payload| < MAX_LENGTH
      modifies `outBytes, `offered, `queued, `sent, `dead
      ensures OutboundValid() && Told(old(View()), View(), f, maxBacklog)
      ensures accepted <==> !Refuses(old(View()), |encoded|, maxBacklog)
    {
      ghost var v := View();
      accepted := Offer(f, encoded);
      ghost var v' := View();
      if accepted {
        var end := Flush();
      }
      ToldAfter(v, v', View(), f, accepted, maxBacklog);
    }

    /** The upgrade response opens the connection; whatever came with the request is discarded. A page client that asks
        before its page is drained opens too: it loses the rest of the page, and dies at the first full drain. */
    method Handshake(response: Bytes) returns (end: FlushEnd)
      requires Valid() && !open && !dead
      modifies this
      ensures Valid() && open && inBytes == stream == [] && serveOnly == old(serveOnly)
      ensures old(sent) <= sent && sent + outBytes == old(sent) + response && greeting == response
      ensures dead <==> end == Broken || (serveOnly && end == Drained)
    {
      Greet(response);
      end := Flush();
    }

    method Greet(response: Bytes)
      requires Streaming() && !open && !dead
      modifies `outBytes, `inBytes, `open, `greeting, `stream, `taken, `queued, `offered
      ensures Streaming() && open && Decoded() && inBytes == stream == []
      ensures greeting == outBytes == response
    {
      outBytes, inBytes, open := response, [], true;
      greeting, stream, taken, queued, offered := response, [], [], [], [];
      StreamStarts(response);
      DecodeNothing();
    }

    /** A plain request gets one page. The client lives on exactly while part of the page waits to be sent. */
    method ServePage(response: Bytes) returns (end: FlushEnd)
      requires Valid() && !open && !dead
      modifies this
      ensures Valid() && !open && serveOnly
      ensures old(sent) <= sent && sent + outBytes == old(sent) + response
      ensures (end == Drained <==> outBytes == []) && (dead <==> end != Blocked)
    {
      outBytes := response;
      inBytes := [];
      serveOnly := true;
      end := Flush();
    }
  }

  // ---- encoding and decoding, step by step ----

  /** The length bytes are written from the most significant down. */
  method EncodeText(payload: Text) returns (out: Bytes)
    ensures out == ServerFrame(HEAD_TEXT, payload) && LaidOut(out, 0x81, 0, |payload|, payload)
  {
    ServerFrameLaidOut(HEAD_TEXT, payload);
    out := [HEAD_TEXT];
    var n := |payload|;
    if n < 126 {
      out := out + [n as bv8];
      assert out == [HEAD_TEXT, n as bv8] + [];
    } else if n <= 0xFFFF {
      out := out + [126];
      var tail := BytesDown(n, 2);
      out := out + tail;
      assert out == [HEAD_TEXT, 126] + tail;
    } else {
      out := out + [127];
      var tail := BytesDown(n, 8);
      out := out + tail;
      assert out == [HEAD_TEXT, 127] + tail;
    }
    assert out == [HEAD_TEXT, LengthCode(n)] + LengthTail(n);
    out := out + payload;
  }

  function ShiftRight(n: nat, bytes: nat): nat {
    if bytes == 0 then n else ShiftRight(n, bytes - 1) / 256
  }

  method BytesDown(n: nat, width: nat) returns (b: Bytes)
    ensures b == ToBigEndian(n, width)
  {
    b := [];
    var i := width;
    while i > 0
      invariant 0 <= i <= width && b == ToBigEndian(ShiftRight(n, i), width - i)
    {
      i := i - 1;
      b := b + [(ShiftRight(n, i) % 256) as bv8];
    }
  }

  method BytesUp(b: Bytes) returns (n: nat)
    ensures n == BigEndian(b)
  {
    n := 0;
    var i := 0;
    while i < |b|
      invariant 0 <= i <= |b| && n == BigEndian(b[..i])
    {
      assert b[..i + 1][..i] == b[..i];
      n := n * 256 + b[i] as nat;
      i := i + 1;
    }
    assert b[..i] == b;
  }

  method Unmask(b: Bytes, mask: Mask) returns (p: Bytes)
    ensures p == Masked(b, mask)
  {
    p := [];
    var i := 0;
    while i < |b|
      invariant 0 <= i <= |b| && p == Masked(b, mask)[..i]
    {
      p := p + [b[i] ^ mask[i % 4]];
      i := i + 1;
    }
  }

  method ReadLength(b: Bytes) returns (l: LengthField)
    requires 2 <= |b|
    ensures l == LengthAt(b)
  {
    var len, off := (b[1] & 0x7F) as nat, 2;
    if len == 126 {
      if |b| < 4 { return Incomplete; }
      len := BytesUp(b[2..4]);
      off := 4;
    } else if len == 127 {
      if |b| < 10 { return Incomplete; }
      len := BytesUp(b[2..10]);
      off := 10;
    }
    return LengthField(len, off);
  }

  /** The frame at the front of a buffer, if it is all there. */
  method NextFrame(b: Bytes) returns (p: Parse)
    ensures p == ParseRequest(b)
    ensures 2 <= |b| && b[1] & 0x7F == 126 ==>
      LengthAt(b) == if |b| < 4 then Incomplete else LengthField(256 * b[2] as nat + b[3] as nat, 4)
    ensures 2 <= |b| && b[1] & 0x7F == 127 ==>
      LengthAt(b) == if |b| < 10 then Incomplete else LengthField(EightBytesValue(b[2..10]), 10)
    ensures |b| < 2 || LengthAt(b) == Incomplete ==> p == NeedMore
    ensures |b| >= 2 && LengthAt(b) != Incomplete ==>
      var n, end := LengthAt(b).value, LengthAt(b).end;
      if n > 65536 || b[1] < 0x80 then p == Violation
      else if |b| < end + 4 + n then p == NeedMore
      else ReadPlainly(b, end, n, p)
  {
    p := FrontFrame(b);
    RequestInPlainTerms(b);
    if 2 <= |b| { LengthInPlainArithmetic(b); }
  }

  method FrontFrame(b: Bytes) returns (p: Parse)
    ensures p == ParseRequest(b)
  {
    if |b| < 2 { return NeedMore; }
    var opcode, masked := b[0] & 0x0F, b[1] & 0x80 != 0;
    var l := ReadLength(b);
    if l == Incomplete { return NeedMore; }
    var len, off := l.value, l.end;
    if len > MAX_FRAME_PAYLOAD { return Violation; }
    if !masked { return Violation; }
    if |b| < off + 4 { return NeedMore; }
    var mask := b[off..off + 4];
    off := off + 4;
    if |b| < off + len { return NeedMore; }
    var payload := Unmask(b[off..off + len], mask);
    return Parsed(Frame(opcode, payload), off + len);
  }

  // ---- the server ----

  lemma AppendPrepend(done: seq<Frame>, f: Frame, r: Inbound)
    ensures Append(done, Prepend(f, r)) == Append(done + [f], r)
  {
    assert done + ([f] + r.taken) == (done + [f]) + r.taken;
  }

  /** All that decoding changes: the frames taken, the command queue and its counter, and the frames offered back. */
  datatype Effects = Effects(taken: seq<Frame>, pending: seq<Pending>, commands: nat, offered: seq<Outgoing>)

  /** What taking some frames from descriptor fd adds up to. */
  function After(e: Effects, fd: int, fs: seq<Frame>): Effects {
    Effects(e.taken + fs, e.pending + Commands(fd, fs), e.commands + |Commands(fd, fs)|, e.offered + Pongs(fs))
  }

  lemma AfterNothing(e: Effects, fd: int)
    ensures After(e, fd, []) == e
  {
    assert e.taken + [] == e.taken && e.pending + [] == e.pending && e.offered + [] == e.offered;
  }

  lemma AfterOne(e: Effects, fd: int, f: Frame)
    ensures After(e, fd, [f]) ==
      Effects(e.taken + [f], e.pending + CommandOf(fd, f), e.commands + |CommandOf(fd, f)|, e.offered + PongOf(f))
  {
    assert [f][..0] == [];
    assert Commands(fd, [f]) == [] + CommandOf(fd, f) && Pongs([f]) == [] + PongOf(f);
  }

  /** Opcode 1 queues a command, opcode 9 offers a pong (head 0x8A) with the first 125 bytes of the payload, and any
      other frame is only taken. */
  ghost predicate Reacted(e: Effects, e': Effects, fd: int, f: Frame) {
    e'.taken == e.taken + [f] &&
    (f.opcode == 0x1 ==>
      e'.pending == e.pending + [Pending(fd, f.payload)] && e'.commands == e.commands + 1 && e'.offered == e.offered) &&
    (f.opcode == 0x9 ==>
      e'.pending == e.pending && e'.commands == e.commands &&
      e'.offered == e.offered + [Outgoing(0x8A, if |f.payload| <= 125 then f.payload else f.payload[..125])]) &&
    (f.opcode != 0x1 && f.opcode != 0x9 ==>
      e'.pending == e.pending && e'.commands == e.commands && e'.offered == e.offered)
  }

  lemma ReactedAfter(e: Effects, fd: int, f: Frame)
    ensures Reacted(e, After(e, fd, [f]), fd, f)
  {
    AfterOne(e, fd, f);
  }

  lemma {:induction false} AfterTwice(e: Effects, fd: int, a: seq<Frame>, b: seq<Frame>)
    ensures After(After(e, fd, a), fd, b) == After(e, fd, a + b)
  {
    CommandsTwice(fd, a, b);
    PongsTwice(a, b);
    Assoc(e.taken, a, b);
    Assoc(e.pending, Commands(fd, a), Commands(fd, b));
    Assoc(e.offered, Pongs(a), Pongs(b));
  }

  lemma {:induction false} CommandsTwice(fd: int, a: seq<Frame>, b: seq<Frame>)
    ensures Commands(fd, a + b) == Commands(fd, a) + Commands(fd, b)
  {
    if b == [] {
      assert a + b == a;
    } else {
      var b', f := b[..|b| - 1], b[|b| - 1];
      CommandsTwice(fd, a, b');
      assert (a + b)[..|a + b| - 1] == a + b';
      Assoc(Commands(fd, a), Commands(fd, b'), CommandOf(fd, f));
    }
  }

  lemma {:induction false} PongsTwice(a: seq<Frame>, b: seq<Frame>)
    ensures Pongs(a + b) == Pongs(a) + Pongs(b)
  {
    if b == [] {
      assert a + b == a;
    } else {
      var b', f := b[..|b| - 1], b[|b| - 1];
      PongsTwice(a, b');
      assert (a + b)[..|a + b| - 1] == a + b';
      Assoc(Pongs(a), Pongs(b'), PongOf(f));
    }
  }

  /** Clients are separate objects on separate descriptors. */
  ghost predicate Apart(cs: seq<Client>) {
    forall i, j :: 0 <= i < j < |cs| ==> cs[i] != cs[j] && cs[i].fd != cs[j].fd
  }

  /** The clients left after reaping, in their order. */
  ghost function Alive(cs: seq<Client>): seq<Client>
    reads cs
  {
    if cs == [] then []
    else Alive(cs[..|cs| - 1]) + if cs[|cs| - 1].dead then [] else [cs[|cs| - 1]]
  }

  lemma {:induction false} AliveMembers(cs: seq<Client>)
    requires Apart(cs)
    ensures Apart(Alive(cs))
    ensures forall c :: c in Alive(cs) ==> c in cs && !c.dead
    ensures forall c :: c in cs && !c.dead ==> c in Alive(cs)
  {
    if cs != [] {
      var init, last := cs[..|cs| - 1], cs[|cs| - 1];
      AliveMembers(init);
      assert cs == init + [last];
      forall i | 0 <= i < |Alive(init)|
        ensures Alive(init)[i] in cs && Alive(init)[i] != last && Alive(init)[i].fd != last.fd
      {
        assert Alive(init)[i] in init;
        var k :| 0 <= k < |init| && init[k] == Alive(init)[i];
        assert cs[k] == Alive(init)[i];
      }
    }
  }

  ghost function Views(cs: seq<Client>): (vs: seq<Snapshot>)
    reads cs
    ensures |vs| == |cs| && forall i :: 0 <= i < |cs| ==> vs[i] == cs[i].View()
  {
    seq(|cs|, i requires 0 <= i < |cs| reads cs => cs[i].View())
  }

  /** Only the i-th client may have changed. */
  ghost predicate OnlyNth(was: seq<Snapshot>, now: seq<Snapshot>, i: nat) {
    |was| == |now| && forall j :: 0 <= j < |was| && j != i ==> now[j] == was[j]
  }

  /** The first n clients were told f, the others left alone. */
  ghost predicate ToldFirst(was: seq<Snapshot>, now: seq<Snapshot>, n: nat, f: Outgoing, maxBacklog: nat) {
    |was| == |now| &&
    forall j :: 0 <= j < |was| ==> if j < n then Told(was[j], now[j], f, maxBacklog) else now[j] == was[j]
  }

  lemma ToldNext(was: seq<Snapshot>, mid: seq<Snapshot>, now: seq<Snapshot>, n: nat, f: Outgoing, maxBacklog: nat)
    requires ToldFirst(was, mid, n, f, maxBacklog) && n < |was| && OnlyNth(mid, now, n)
    requires Told(mid[n], now[n], f, maxBacklog)
    ensures ToldFirst(was, now, n + 1, f, maxBacklog)
  {
  }

  ghost predicate AllTold(was: seq<Snapshot>, now: seq<Snapshot>, f: Outgoing, maxBacklog: nat) {
    |was| == |now| && forall i :: 0 <= i < |was| ==> Told(was[i], now[i], f, maxBacklog)
  }

  ghost predicate AllHeard(cs: seq<Client>, was: seq<Snapshot>, now: seq<Snapshot>, fd: int, text: Text,
                           maxBacklog: nat) {
    |was| == |now| == |cs| && forall i :: 0 <= i < |cs| ==> Heard(was[i], now[i], cs[i].fd == fd, text, maxBacklog)
  }

  ghost predicate NotBefore(cs: seq<Client>, now: seq<Snapshot>, fd: int, i: nat) {
    i <= |cs| == |now| && forall j :: 0 <= j < i && cs[j].fd == fd ==> !now[j].Live()
  }

  /** Telling one client is telling its descriptor: no other client has it. */
  lemma OneHeard(cs: seq<Client>, was: seq<Snapshot>, now: seq<Snapshot>, i: nat, text: Text, maxBacklog: nat)
    requires Apart(cs) && i < |cs| == |was| == |now| && OnlyNth(was, now, i)
    requires Told(was[i], now[i], Outgoing(HEAD_TEXT, text), maxBacklog)
    ensures AllHeard(cs, was, now, cs[i].fd, text, maxBacklog)
  {
  }

  lemma NoneHeard(cs: seq<Client>, was: seq<Snapshot>, fd: int, text: Text, maxBacklog: nat)
    requires NotBefore(cs, was, fd, |cs|)
    ensures AllHeard(cs, was, was, fd, text, maxBacklog)
  {
  }

  ghost predicate AllAnswered(cs: seq<Client>, was: seq<Snapshot>, now: seq<Snapshot>, ps: seq<Pending>,
                              replies: seq<Text>)
    requires |ps| <= |replies|
  {
    |was| == |now| == |cs| && forall i :: 0 <= i < |cs| ==> Answered(was[i], now[i], Answers(cs[i].fd, ps, replies))
  }

  lemma AnsweredNext(cs: seq<Client>, was: seq<Snapshot>, mid: seq<Snapshot>, now: seq<Snapshot>,
                     ps: seq<Pending>, k: nat, replies: seq<Text>, maxBacklog: nat)
    requires k < |ps| <= |replies| && AllAnswered(cs, was, mid, ps[..k], replies)
    requires if replies[k] == [] then now == mid else AllHeard(cs, mid, now, ps[k].fd, replies[k], maxBacklog)
    ensures AllAnswered(cs, was, now, ps[..k + 1], replies)
  {
    assert ps[..k + 1][..k] == ps[..k];
    forall i | 0 <= i < |cs| ensures Answered(was[i], now[i], Answers(cs[i].fd, ps[..k + 1], replies)) {
      if replies[k] != [] && cs[i].fd == ps[k].fd {
        AnsweredOneMore(was[i], mid[i], now[i], Answers(cs[i].fd, ps[..k], replies), Outgoing(HEAD_TEXT, replies[k]),
                        maxBacklog);
      }
    }
  }

  /** The first n clients were served, the others left alone. */
  ghost predicate ServedFirst(was: seq<Snapshot>, now: seq<Snapshot>, polls: seq<Poll>, n: nat) {
    |was| == |now| == |polls| &&
    forall j :: 0 <= j < |was| ==> if j < n then Served(was[j], now[j], polls[j]) else now[j] == was[j]
  }

  /** Every client is alive, and no read brings more than a buffer holds. */
  ghost predicate Ready(was: seq<Snapshot>, polls: seq<Poll>) {
    |was| == |polls| &&
    forall i :: 0 <= i < |was| ==> !was[i].dead && (polls[i].input.Stream? ==> Reads(polls[i].input.chunks))
  }

  lemma ServedNext(was: seq<Snapshot>, mid: seq<Snapshot>, now: seq<Snapshot>, polls: seq<Poll>, n: nat)
    requires ServedFirst(was, mid, polls, n) && n < |was| && OnlyNth(mid, now, n) && Served(mid[n], now[n], polls[n])
    ensures ServedFirst(was, now, polls, n + 1)
  {
  }

  /** A client's turn: its descriptor and the frames its stream yielded. */
  datatype Turn = Turn(fd: int, frames: seq<Frame>)

  /** The commands of some turns, client by client. */
  function Gathered(turns: seq<Turn>): seq<Pending> {
    if turns == [] then []
    else Gathered(turns[..|turns| - 1]) + Commands(turns[|turns| - 1].fd, turns[|turns| - 1].frames)
  }

  lemma {:induction false} GatheredOneMore(turns: seq<Turn>, t: Turn)
    ensures Gathered(turns + [t]) == Gathered(turns) + Commands(t.fd, t.frames)
  {
    assert (turns + [t])[..|turns|] == turns;
  }

  /** These were the turns of the first clients. */
  ghost predicate TurnsOf(cs: seq<Client>, was: seq<Snapshot>, now: seq<Snapshot>, turns: seq<Turn>) {
    |turns| <= |cs| == |was| == |now| &&
    forall j :: 0 <= j < |turns| ==> turns[j] == Turn(cs[j].fd, NewFrames(was[j], now[j]))
  }

  lemma TurnsNext(cs: seq<Client>, was: seq<Snapshot>, mid: seq<Snapshot>, now: seq<Snapshot>, turns: seq<Turn>,
                  t: Turn)
    requires TurnsOf(cs, was, mid, turns) && |turns| < |cs| && OnlyNth(mid, now, |turns|)
    requires t == Turn(cs[|turns|].fd, NewFrames(was[|turns|], now[|turns|]))
    ensures TurnsOf(cs, was, now, turns + [t])
  {
  }

  ghost predicate AllOnward(was: seq<Snapshot>, now: seq<Snapshot>) {
    |was| == |now| && forall i :: 0 <= i < |was| ==> Onward(was[i], now[i])
  }

  lemma ServedThenAnswered(cs: seq<Client>, was: seq<Snapshot>, mid: seq<Snapshot>, now: seq<Snapshot>,
                           polls: seq<Poll>, ps: seq<Pending>, replies: seq<Text>)
    requires |ps| <= |replies| && ServedFirst(was, mid, polls, |was|) && AllAnswered(cs, mid, now, ps, replies)
    ensures AllOnward(was, now)
  {
    forall i | 0 <= i < |was| ensures Onward(was[i], now[i]) {
      OnwardThenAnswered(was[i], mid[i], now[i], Answers(cs[i].fd, ps, replies));
    }
  }

  /** How many clients drop a broadcast of the given size. */
  function RefusalsAt(vs: seq<Snapshot>, size: nat, maxBacklog: nat): nat {
    if vs == [] then 0
    else RefusalsAt(vs[..|vs| - 1], size, maxBacklog) + if Refuses(vs[|vs| - 1], size, maxBacklog) then 1 else 0
  }

  /** Offering a frame to a live client, and then sending, is telling it. */
  lemma ToldAfter(v: Snapshot, v': Snapshot, v'': Snapshot, f: Outgoing, accepted: bool, maxBacklog: nat)
    requires v.Live() && Queued(v, v', f, f.Encoded(), accepted)
    requires accepted <==> !Refuses(v, |f.Encoded()|, maxBacklog)
    requires v'' == v' || Sending(v', v'')
    ensures Told(v, v'', f, maxBacklog)
  {
  }

  lemma OneMoreAsked(vs: seq<Snapshot>, i: nat, size: nat, maxBacklog: nat)
    requires i < |vs|
    ensures RefusalsAt(vs[..i + 1], size, maxBacklog) ==
      RefusalsAt(vs[..i], size, maxBacklog) + if Refuses(vs[i], size, maxBacklog) then 1 else 0
  {
    assert vs[..i + 1][..i] == vs[..i];
  }

  /** The replies a descriptor is owed: one for each of its commands that has a reply, in order. */
  function Answers(fd: int, ps: seq<Pending>, replies: seq<Text>): seq<Outgoing>
    requires |ps| <= |replies|
  {
    if ps == [] then []
    else
      var k := |ps| - 1;
      Answers(fd, ps[..k], replies) +
      if ps[k].fd == fd && replies[k] != [] then [Outgoing(HEAD_TEXT, replies[k])] else []
  }

  /** The entries of the queue that have a reply for this descriptor, by their places in it. */
  ghost predicate Owed(fd: int, ps: seq<Pending>, replies: seq<Text>, at: seq<nat>)
    requires |ps| <= |replies|
  {
    (forall j :: 0 <= j < |at| ==> at[j] < |ps|) && (forall i, j :: 0 <= i < j < |at| ==> at[i] < at[j]) &&
    forall k :: 0 <= k < |ps| ==> (k in at <==> ps[k].fd == fd && replies[k] != [])
  }

  /** The frames are text frames (0x81) with the replies at these places. */
  ghost predicate TextsAt(fs: seq<Outgoing>, replies: seq<Text>, at: seq<nat>) {
    |fs| == |at| && forall j :: 0 <= j < |at| ==> at[j] < |replies| && fs[j] == Outgoing(0x81, replies[at[j]])
  }

  ghost predicate Paid(fd: int, ps: seq<Pending>, replies: seq<Text>, fs: seq<Outgoing>, at: seq<nat>) {
    |ps| <= |replies| && Owed(fd, ps, replies, at) && TextsAt(fs, replies, at)
  }

  /** The answers in full: a text frame for each command of the descriptor whose reply is not empty, in the order of the
      queue, and no other. */
  lemma {:induction false} AnswersInFull(fd: int, ps: seq<Pending>, replies: seq<Text>) returns (at: seq<nat>)
    requires |ps| <= |replies|
    ensures Paid(fd, ps, replies, Answers(fd, ps, replies), at)
  {
    if ps == [] {
      at := [];
    } else {
      var m := |ps| - 1;
      var before := AnswersInFull(fd, ps[..m], replies);
      at := PaidOneMore(fd, ps, replies, Answers(fd, ps[..m], replies), before, m);
    }
  }

  lemma PaidOneMore(fd: int, ps: seq<Pending>, replies: seq<Text>, fs: seq<Outgoing>, before: seq<nat>, m: nat)
    returns (at: seq<nat>)
    requires |ps| == m + 1 <= |replies| && Paid(fd, ps[..m], replies, fs, before)
    ensures Paid(fd, ps, replies,
      fs + if ps[m].fd == fd && replies[m] != [] then [Outgoing(HEAD_TEXT, replies[m])] else [], at)
  {
    OwedOneMore(fd, ps, replies, before, m);
    if ps[m].fd == fd && replies[m] != [] {
      at := before + [m];
      TextsOneMore(fs, replies, before, m);
    } else {
      at := before;
      assert fs + [] == fs;
    }
  }

  lemma TextsOneMore(fs: seq<Outgoing>, replies: seq<Text>, at: seq<nat>, m: nat)
    requires TextsAt(fs, replies, at) && m < |replies|
    ensures TextsAt(fs + [Outgoing(HEAD_TEXT, replies[m])], replies, at + [m])
  {
  }

  lemma OwedOneMore(fd: int, ps: seq<Pending>, replies: seq<Text>, before: seq<nat>, m: nat)
    requires |ps| == m + 1 <= |replies| && Owed(fd, ps[..m], replies, before)
    ensures Owed(fd, ps, replies, if ps[m].fd == fd && replies[m] != [] then before + [m] else before)
  {
    assert m !in before;
    forall k | 0 <= k < m ensures k in before <==> ps[k].fd == fd && replies[k] != [] {
      assert ps[..m][k] == ps[k];
    }
  }

  /** The handler may answer the k-th command of a turn as it likes. */
  function Replies(handler: (nat, Bytes) -> Text, ps: seq<Pending>): (r: seq<Text>)
    ensures |r| == |ps|
  {
    if ps == [] then []
    else Replies(handler, ps[..|ps| - 1]) + [handler(|ps| - 1, ps[|ps| - 1].text)]
  }

  class Server {
    const maxBacklog: nat
    var clients: seq<Client>
    var pending: seq<Pending>
    var dropped: nat
    var commands: nat

    /** Whatever has died is still listed. */
    ghost predicate Sound()
      reads this, clients
    {
      Apart(clients) && forall i :: 0 <= i < |clients| ==> clients[i].Valid() && clients[i].maxBacklog == maxBacklog
    }

    ghost predicate Valid()
      reads this, clients
    {
      Sound() && forall i :: 0 <= i < |clients| ==> !clients[i].dead
    }

    constructor (maxBacklog: nat)
      ensures Valid() && clients == [] && pending == [] && dropped == commands == 0
    {
      this.maxBacklog, clients, pending, dropped, commands := maxBacklog, [], [], 0, 0;
    }

    method AcceptNew(fd: int)
      requires Valid() && forall c :: c in clients ==> c.fd != fd
      modifies `clients
      ensures Valid() && |clients| == |old(clients)| + 1 && old(clients) <= clients
      ensures fresh(clients[|clients| - 1]) && clients[|clients| - 1].fd == fd && !clients[|clients| - 1].open
    {
      var c := new Client(fd, maxBacklog);
      clients := clients + [c];
    }

    method Reap()
      requires Sound()
      modifies `clients
      ensures Valid() && clients == Alive(old(clients)) && Views(old(clients)) == old(Views(clients))
    {
      var left: seq<Client> := [];
      var i := 0;
      while i < |clients|
        invariant 0 <= i <= |clients| && left == Alive(clients[..i])
      {
        assert clients[..i + 1][..i] == clients[..i];
        if !clients[i].dead { left := left + [clients[i]]; }
        i := i + 1;
      }
      assert clients[..i] == clients;
      AliveMembers(clients);
      forall j | 0 <= j < |left| ensures left[j] in clients && !left[j].dead { assert left[j] in left; }
      clients := left;
    }

    /** Tell one client, and count the frame if it was dropped. */
    method Push(c: Client, f: Outgoing, encoded: Bytes)
      requires c.Valid() && c.open && !c.dead && encoded == f.Encoded() && |f.payload| < MAX_LENGTH
      modifies `dropped, c`outBytes, c`offered, c`queued, c`sent, c`dead
      ensures c.Valid() && Told(old(c.View()), c.View(), f, c.maxBacklog)
      ensures dropped == old(dropped) + if Refuses(old(c.View()), |encoded|, c.maxBacklog) then 1 else 0
    {
      var accepted := c.Tell(f, encoded);
      if !accepted { dropped := dropped + 1; }
    }

    /** Every open client is offered the text; slow ones lose it whole, and no client holds up another. */
    method Broadcast(text: Text)
      requires Valid()
      modifies this, clients
      ensures Valid() && clients == Alive(old(clients)) && pending == old(pending) && commands == old(commands)
      ensures AllTold(old(Views(clients)), Views(old(clients)), Outgoing(HEAD_TEXT, text), maxBacklog)
      ensures dropped == old(dropped) + RefusalsAt(old(Views(clients)), |ServerFrame(HEAD_TEXT, text)|, maxBacklog)
    {
      var frame := EncodeText(text);
      TellAll(text, frame);
      Reap();
    }

    /** The first n clients have been told f since `was`, and those that refused it are counted. */
    ghost predicate ToldSoFar(was: seq<Snapshot>, n: nat, f: Outgoing, before: nat)
      reads this, clients
    {
      Sound() && n <= |was| && ToldFirst(was, Views(clients), n, f, maxBacklog) &&
      dropped == before + RefusalsAt(was[..n], |f.Encoded()|, maxBacklog)
    }

    method TellAll(text: Text, frame: Bytes)
      requires Sound() && frame == ServerFrame(HEAD_TEXT, text)
      modifies `dropped, clients
      ensures Sound() && AllTold(old(Views(clients)), Views(clients), Outgoing(HEAD_TEXT, text), maxBacklog)
      ensures dropped == old(dropped) + RefusalsAt(old(Views(clients)), |frame|, maxBacklog)
    {
      ghost var was, before := Views(clients), dropped;
      var i := 0;
      while i < |clients|
        invariant i <= |clients| && ToldSoFar(was, i, Outgoing(HEAD_TEXT, text), before)
      {
        TellNext(i, text, frame, was, before);
        i := i + 1;
      }
      assert was[..i] == was;
    }

    method TellNext(i: nat, text: Text, frame: Bytes, ghost was: seq<Snapshot>, ghost before: nat)
      requires i < |clients| && frame == ServerFrame(HEAD_TEXT, text)
      requires ToldSoFar(was, i, Outgoing(HEAD_TEXT, text), before)
      modifies `dropped, clients
      ensures ToldSoFar(was, i + 1, Outgoing(HEAD_TEXT, text), before)
    {
      ghost var mid := Views(clients);
      TellNth(i, text, frame);
      ToldNext(was, mid, Views(clients), i, Outgoing(HEAD_TEXT, text), maxBacklog);
      OneMoreAsked(was, i, |frame|, maxBacklog);
    }

    /** Tell one client, if it is live; the others are left alone. */
    method TellNth(i: nat, text: Text, frame: Bytes)
      requires Sound() && i < |clients| && frame == ServerFrame(HEAD_TEXT, text)
      modifies `dropped, clients[i]
      ensures Sound() && OnlyNth(old(Views(clients)), Views(clients), i)
      ensures Told(old(clients[i].View()), clients[i].View(), Outgoing(HEAD_TEXT, text), maxBacklog)
      ensures dropped == old(dropped) + if Refuses(old(clients[i].View()), |frame|, maxBacklog) then 1 else 0
    {
      var c := clients[i];
      if !c.dead && c.open {
        Push(c, Outgoing(HEAD_TEXT, text), frame);
      }
    }

    ghost function Now(c: Client): Effects
      reads `pending, `commands, c`taken, c`offered
    {
      Effects(c.taken, pending, commands, c.offered)
    }

    /** Decode every complete frame in the buffer; stop at a close frame or a violation. */
    method DecodeFrames(c: Client) returns (ghost done: seq<Frame>)
      requires c.open && !c.dead && c.PartlyDecoded() && c.OutboundValid()
      modifies `pending, `commands, c`inBytes, c`dead, c`taken, c`outBytes, c`offered, c`queued
      ensures c.Settled() && c.OutboundValid()
      ensures done == Decode(old(c.inBytes)).taken && Now(c) == After(old(Now(c)), c.fd, done)
    {
      ghost var all := Decode(c.inBytes);
      ghost var rest := all;
      done := [];
      AfterNothing(Now(c), c.fd);
      var more := true;
      while more
        invariant c.OutboundValid() && Now(c) == After(old(Now(c)), c.fd, done) && all == Append(done, rest)
        invariant if more then c.Midway(rest) else c.Settled() && rest.taken == []
        decreases more, |c.inBytes|
      {
        ghost var f;
        more, f := DecodeOne(c);
        if more {
          rest := Decode(c.inBytes);
          AppendPrepend(done, f, rest);
          AfterTwice(old(Now(c)), c.fd, done, [f]);
          done := done + [f];
        }
      }
    }

    /** One round: take the frame at the front if it is all there, and say whether to go on. */
    method DecodeOne(c: Client) returns (more: bool, ghost f: Frame)
      requires c.open && c.Midway(Decode(c.inBytes)) && c.OutboundValid()
      modifies `pending, `commands, c`inBytes, c`dead, c`taken, c`outBytes, c`offered, c`queued
      ensures c.OutboundValid()
      ensures more ==> c.Midway(Decode(c.inBytes)) && |c.inBytes| < |old(c.inBytes)|
      ensures more ==>
        Decode(old(c.inBytes)) == Prepend(f, Decode(c.inBytes)) && Now(c) == After(old(Now(c)), c.fd, [f])
      ensures !more ==> Decode(old(c.inBytes)).taken == [] && Now(c) == old(Now(c)) && c.Settled()
    {
      f := Frame(0, []);
      var p := NextFrame(c.inBytes);
      more := p.Parsed? && p.frame.opcode != OP_CLOSE;
      if more {
        f := p.frame;
        TakeFrame(c, p.frame, p.size);
      } else {
        StopDecoding(c, p);
      }
    }

    /** The frame at the front leaves the buffer and has its effect. */
    method TakeFrame(c: Client, f: Frame, n: nat)
      requires c.open && c.Midway(Decode(c.inBytes)) && c.OutboundValid()
      requires ParseRequest(c.inBytes) == Parsed(f, n) && f.opcode != OP_CLOSE
      modifies `pending, `commands, c`inBytes, c`taken, c`outBytes, c`offered, c`queued
      ensures c.OutboundValid() && c.Midway(Decode(c.inBytes)) && |c.inBytes| < |old(c.inBytes)|
      ensures Decode(old(c.inBytes)) == Prepend(f, Decode(c.inBytes)) && Now(c) == After(old(Now(c)), c.fd, [f])
    {
      ghost var rest := Decode(c.inBytes[n..]);
      AppendPrepend(c.taken, f, rest);
      c.inBytes := c.inBytes[n..];
      React(c, f);
    }

    /** Nothing complete is left, or the connection is to end: at a violation, or at a close frame. */
    method StopDecoding(c: Client, p: Parse)
      requires c.Midway(Decode(c.inBytes)) && c.OutboundValid()
      requires ParseRequest(c.inBytes) == p && (p.Parsed? ==> p.frame.opcode == OP_CLOSE)
      modifies c`inBytes, c`dead
      ensures Decode(old(c.inBytes)).taken == [] && c.Settled() && c.OutboundValid()
    {
      assert c.taken + [] == c.taken;
      if p.Parsed? { c.inBytes := c.inBytes[p.size..]; }
      if p != NeedMore { c.dead := true; }
    }

    /** Pings are answered, texts are queued, anything else is ignored. */
    method React(c: Client, f: Frame)
      requires c.OutboundValid() && c.open
      modifies `pending, `commands, c`taken, c`outBytes, c`offered, c`queued
      ensures c.OutboundValid() && Now(c) == After(old(Now(c)), c.fd, [f])
    {
      AfterOne(Now(c), c.fd, f);
      c.taken := c.taken + [f];
      if f.opcode == OP_PING {
        var accepted := Pong(c, f.payload);
      } else if f.opcode == OP_TEXT {
        commands := commands + 1;
        pending := pending + [Pending(c.fd, f.payload)];
      }
    }

    method Pong(c: Client, payload: Bytes) returns (accepted: bool)
      requires c.OutboundValid() && c.open
      modifies c`outBytes, c`offered, c`queued
      ensures c.OutboundValid() && c.offered == old(c.offered) + [Outgoing(HEAD_PONG, PongPayload(payload))]
    {
      var p := PongPayload(payload);
      assert LengthTail(|p|) == [];
      accepted := c.Offer(Outgoing(HEAD_PONG, p), [HEAD_PONG, |p| as bv8] + p);
    }

    /** Read an open connection until nothing more is there: append, check the size, decode. The size check never
        fires, and how the bytes were split into reads does not show in the outcome. */
    method OnReadable(c: Client, chunks: seq<Bytes>, closed: bool) returns (ghost n: nat, ghost done: seq<Frame>)
      requires c.Valid() && c.open && !c.dead && Reads(chunks)
      modifies `pending, `commands, c`stream, c`inBytes, c`dead, c`taken, c`outBytes, c`offered, c`queued
      ensures c.Valid() && Now(c) == After(old(Now(c)), c.fd, done)
      ensures n <= |chunks| && c.stream == old(c.stream) + Joined(chunks[..n])
      ensures c.dead <==> closed || Decode(c.stream).dead
      ensures !Decode(c.stream).dead ==> n == |chunks|
    {
      done := [];
      assert chunks[..0] == [];
      AfterNothing(Now(c), c.fd);
      var i := 0;
      while i < |chunks| && !c.dead
        invariant i <= |chunks| && c.OutboundValid() && c.Settled()
        invariant c.stream == old(c.stream) + Joined(chunks[..i]) && Now(c) == After(old(Now(c)), c.fd, done)
      {
        ghost var more := ReadChunk(c, chunks[i]);
        NextChunk(old(c.stream), chunks, i);
        AfterTwice(old(Now(c)), c.fd, done, more);
        i, done := i + 1, done + more;
      }
      n := i;
      if closed && !c.dead { c.dead := true; }
    }

    method ReadChunk(c: Client, chunk: Bytes) returns (ghost done: seq<Frame>)
      requires c.OutboundValid() && c.Settled() && c.open && !c.dead && |chunk| <= READ_BYTES
      modifies `pending, `commands, c`stream, c`inBytes, c`dead, c`taken, c`outBytes, c`offered, c`queued
      ensures c.OutboundValid() && c.Settled() && c.stream == old(c.stream) + chunk
      ensures Now(c) == After(old(Now(c)), c.fd, done)
    {
      DecodeSplit(c.stream, chunk);
      LeftoverBound(c.stream);
      c.stream := c.stream + chunk;
      c.inBytes := c.inBytes + chunk;
      if |c.inBytes| > MAX_INPUT {
        assert false;
      }
      done := DecodeFrames(c);
    }

    /** One client after a poll: it failed, or it is read, and then written if there is room. */
    method ServeClient(c: Client, poll: Poll)
      requires c.Valid() && !c.dead && (poll.input.Stream? ==> Reads(poll.input.chunks))
      modifies `pending, `commands, c
      ensures c.Valid() && Served(old(c.View()), c.View(), poll)
      ensures pending == old(pending) + Commands(c.fd, NewFrames(old(c.View()), c.View()))
    {
      if poll.failed {
        c.dead := true;
        return;
      }
      ghost var before := c.View();
      ReadInput(c, poll);
      ghost var v := c.View();
      if poll.writable {
        var end := c.Flush();
        FlushedAfter(before, v, c.View(), poll);
      }
    }

    method ReadInput(c: Client, poll: Poll)
      requires c.Valid() && !c.dead && !poll.failed && (poll.input.Stream? ==> Reads(poll.input.chunks))
      modifies `pending, `commands, c
      ensures c.Valid() && Served(old(c.View()), c.View(), poll)
      ensures pending == old(pending) + Commands(c.fd, NewFrames(old(c.View()), c.View()))
    {
      if !c.open {
        ReadRequest(c, poll);
      } else if poll.input.Stream? {
        ReadStream(c, poll);
      }
    }

    method ReadStream(c: Client, poll: Poll)
      requires c.Valid() && c.open && !c.dead && !poll.failed && poll.input.Stream? && Reads(poll.input.chunks)
      modifies `pending, `commands, c
      ensures c.Valid() && Served(old(c.View()), c.View(), poll)
      ensures pending == old(pending) + Commands(c.fd, NewFrames(old(c.View()), c.View()))
    {
      ghost var v := c.View();
      ghost var n, done := OnReadable(c, poll.input.chunks, poll.input.closed);
      StreamServed(v, c.View(), poll, n, done);
    }

    /** Before the handshake: the request decides what the connection becomes. */
    method ReadRequest(c: Client, poll: Poll)
      requires c.Valid() && !c.open && !c.dead && !poll.failed
      modifies c
      ensures c.Valid() && Served(old(c.View()), c.View(), poll) && c.taken == []
    {
      match poll.input {
        case Upgrade(response) => var end := c.Handshake(response);
        case Plain(page) => var end := c.ServePage(page);
        case Junk => c.dead := true;
        case _ =>
      }
    }

    method ServeNth(i: nat, poll: Poll)
      requires Sound() && i < |clients| && !clients[i].dead && (poll.input.Stream? ==> Reads(poll.input.chunks))
      modifies `pending, `commands, clients[i]
      ensures Sound() && OnlyNth(old(Views(clients)), Views(clients), i)
      ensures Served(old(clients[i].View()), clients[i].View(), poll)
      ensures pending == old(pending) + Commands(clients[i].fd, NewFrames(old(clients[i].View()), clients[i].View()))
    {
      ServeClient(clients[i], poll);
    }

    /** The first clients have been served since `was`, and the queue holds the commands of their turns. */
    ghost predicate ServedSoFar(was: seq<Snapshot>, polls: seq<Poll>, turns: seq<Turn>)
      reads this, clients
    {
      Sound() && ServedFirst(was, Views(clients), polls, |turns|) && TurnsOf(clients, was, Views(clients), turns) &&
      pending == Gathered(turns)
    }

    method ServeNext(i: nat, polls: seq<Poll>, ghost was: seq<Snapshot>, ghost turns: seq<Turn>)
      returns (ghost more: seq<Turn>)
      requires ServedSoFar(was, polls, turns) && i == |turns| < |clients| && Ready(was, polls)
      modifies `pending, `commands, clients
      ensures ServedSoFar(was, polls, more) && |more| == i + 1
    {
      ghost var mid := Views(clients);
      assert mid[i] == was[i];
      ServeNth(i, polls[i]);
      ghost var t := Turn(clients[i].fd, NewFrames(was[i], Views(clients)[i]));
      ServedNext(was, mid, Views(clients), polls, i);
      TurnsNext(clients, was, mid, Views(clients), turns, t);
      GatheredOneMore(turns, t);
      more := turns + [t];
    }

    /** Every client is read and written; the commands of this turn wait in the queue, client by client. */
    method ServeAll(polls: seq<Poll>) returns (ghost turns: seq<Turn>)
      requires Sound() && pending == [] && Ready(Views(clients), polls)
      modifies `pending, `commands, clients
      ensures ServedSoFar(old(Views(clients)), polls, turns) && |turns| == |clients|
    {
      ghost var was := Views(clients);
      turns := [];
      var i := 0;
      while i < |clients|
        invariant i == |turns| <= |clients| && ServedSoFar(was, polls, turns)
      {
        turns := ServeNext(i, polls, was, turns);
        i := i + 1;
      }
    }

    /** The first live client on a descriptor, or the number of clients. */
    method FindLive(fd: int) returns (i: nat)
      ensures i <= |clients| && NotBefore(clients, Views(clients), fd, i)
      ensures i < |clients| ==> clients[i].fd == fd && clients[i].View().Live()
    {
      i := 0;
      while i < |clients| && !(clients[i].fd == fd && !clients[i].dead && clients[i].open)
        invariant i <= |clients| && NotBefore(clients, Views(clients), fd, i)
      {
        i := i + 1;
      }
    }

    /** Answer a command on the connection it came from, if that is still open. */
    method Answer(fd: int, text: Text)
      requires Sound()
      modifies `dropped, clients
      ensures Sound() && AllHeard(clients, old(Views(clients)), Views(clients), fd, text, maxBacklog)
    {
      var frame := EncodeText(text);
      var i := FindLive(fd);
      ghost var was := Views(clients);
      if i < |clients| {
        TellNth(i, text, frame);
        OneHeard(clients, was, Views(clients), i, text, maxBacklog);
      } else {
        NoneHeard(clients, was, fd, text, maxBacklog);
      }
    }

    /** The first k commands of the queue have been answered since `was`. */
    ghost predicate AnsweredSoFar(was: seq<Snapshot>, queue: seq<Pending>, k: nat, replies: seq<Text>)
      reads this, clients
    {
      Sound() && k <= |queue| <= |replies| && pending == queue &&
      AllAnswered(clients, was, Views(clients), queue[..k], replies)
    }

    method AnswerNext(k: nat, replies: seq<Text>, ghost was: seq<Snapshot>, ghost queue: seq<Pending>)
      requires AnsweredSoFar(was, queue, k, replies) && k < |pending|
      modifies `dropped, clients
      ensures AnsweredSoFar(was, queue, k + 1, replies)
    {
      ghost var mid := Views(clients);
      if replies[k] != [] {
        Answer(pending[k].fd, replies[k]);
      }
      AnsweredNext(clients, was, mid, Views(clients), queue, k, replies, maxBacklog);
    }

    /** Every queued command is answered to its own connection, in order; an empty reply is no reply. */
    method DispatchPending(replies: seq<Text>)
      requires Sound() && |pending| <= |replies|
      modifies `pending, `dropped, clients
      ensures Sound() && pending == []
      ensures AllAnswered(clients, old(Views(clients)), Views(clients), old(pending), replies)
    {
      ghost var was, queue := Views(clients), pending;
      forall i | 0 <= i < |clients| ensures Answered(was[i], was[i], Answers(clients[i].fd, queue[..0], replies)) {
        AnsweredNothing(was[i]);
      }
      var k := 0;
      while k < |pending|
        invariant k <= |pending| && AnsweredSoFar(was, queue, k, replies)
      {
        AnswerNext(k, replies, was, queue);
        k := k + 1;
      }
      assert queue[..k] == queue;
      pending := [];
    }

    /** One turn of the server: read and write every client, answer the commands of the turn, drop the dead. */
    method Service(polls: seq<Poll>, handler: (nat, Bytes) -> Text)
      returns (ghost served: seq<Snapshot>, ghost turns: seq<Turn>)
      requires Valid() && pending == [] && |polls| == |clients|
      requires forall i :: 0 <= i < |polls| && polls[i].input.Stream? ==> Reads(polls[i].input.chunks)
      modifies this, clients
      ensures Valid() && pending == [] && clients == Alive(old(clients))
      ensures ServedFirst(old(Views(clients)), served, polls, |old(clients)|) && |served| == |old(clients)|
      ensures TurnsOf(old(clients), old(Views(clients)), served, turns) && |turns| == |served|
      ensures AllAnswered(old(clients), served, Views(old(clients)), Gathered(turns), Replies(handler, Gathered(turns)))
    {
      ghost var cs := clients;
      assert Ready(Views(cs), polls);
      turns := ServeAll(polls);
      served := Views(cs);
      DispatchPending(Replies(handler, pending));
      Reap();
    }
  }

  /** What the peer of a connection reads, once past the handshake response, is an order-preserving selection
      of the frames it was offered, none of them cut short. */
  lemma PeerReadsSelection(c: Client)
    requires c.Valid() && c.open && !c.serveOnly && |c.greeting| <= |c.sent|
    ensures c.greeting <= c.sent
    ensures Subsequence(ReadAll(c.sent[|c.greeting|..]), MeantBy(c.offered))
  {
    var k := |c.sent| - |c.greeting|;
    var all := c.sent + c.outBytes;
    assert all[..|c.sent|] == c.sent && all == c.greeting + Wire(c.queued);
    assert c.sent[|c.greeting|..] == Wire(c.queued)[..k];
    ReaderSeesSubsequence(c.queued, c.offered, k);
  }

  lemma {:induction false} JoinedPrefix(chunks: seq<Bytes>, n: nat)
    requires n <= |chunks|
    ensures Joined(chunks[..n]) <= Joined(chunks)
  {
    if n < |chunks| {
      JoinedPrefix(chunks[..|chunks| - 1], n);
      assert chunks[..|chunks| - 1][..n] == chunks[..n];
    } else {
      assert chunks[..n] == chunks;
    }
  }

  lemma NextChunk(before: Bytes, chunks: seq<Bytes>, i: nat)
    requires i < |chunks|
    ensures before + Joined(chunks[..i + 1]) == (before + Joined(chunks[..i])) + chunks[i]
  {
    assert chunks[..i + 1][..i] == chunks[..i];
    Assoc(before, Joined(chunks[..i]), chunks[i]);
  }
}

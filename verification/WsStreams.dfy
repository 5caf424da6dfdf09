/** Byte streams of frames: decoding them however they are cut up, and writing them without tearing. */
module WsStreams {
  import opened Basics
  import opened WsFrames

  /** What a server has made of the bytes of one connection so far. */
  datatype Inbound = Inbound(taken: seq<Frame>, left: Bytes, dead: bool)

  const NOTHING_YET := Inbound([], [], false)

  /** Everything a buffer holds, decoded in one go: all complete frames up to a close frame or a violation. */
  function Decode(b: Bytes): (r: Inbound)
    decreases |b|
  {
    match ParseRequest(b)
    case NeedMore => Inbound([], b, false)
    case Violation => Inbound([], b, true)
    case Parsed(f, n) =>
      if f.opcode == OP_CLOSE then Inbound([], b[n..], true)
      else Prepend(f, Decode(b[n..]))
  }

  /** The frame at the front of a buffer is taken, unless it is a close frame (opcode 8): that ends the connection. */
  lemma FrontDecides(b: Bytes, f: Frame, n: nat)
    requires ParseRequest(b) == Parsed(f, n)
    ensures f.opcode == 0x8 ==> Decode(b).dead && Decode(b).taken == []
    ensures f.opcode != 0x8 ==>
      Decode(b).taken == [f] + Decode(b[n..]).taken && Decode(b).dead == Decode(b[n..]).dead &&
      Decode(b).left == Decode(b[n..]).left
  {
  }

  lemma DecodeNothing()
    ensures Decode([]) == NOTHING_YET
  {
  }

  function Prepend(f: Frame, r: Inbound): Inbound {
    Inbound([f] + r.taken, r.left, r.dead)
  }

  function Append(taken: seq<Frame>, r: Inbound): Inbound {
    Inbound(taken + r.taken, r.left, r.dead)
  }

  lemma PrependAppend(f: Frame, taken: seq<Frame>, r: Inbound)
    ensures Prepend(f, Append(taken, r)) == Append([f] + taken, r)
  {
    assert [f] + (taken + r.taken) == ([f] + taken) + r.taken;
  }

  /** The verdict on the first bytes stands, and what they leave over is decoded with the rest. */
  lemma {:induction false} DecodeSplit(a: Bytes, b: Bytes)
    ensures Decode(a).dead ==> Decode(a + b).dead && Decode(a + b).taken == Decode(a).taken
    ensures !Decode(a).dead ==> Decode(a + b) == Append(Decode(a).taken, Decode(Decode(a).left + b))
    decreases |a|
  {
    var p := ParseRequest(a);
    if p == NeedMore {
      AppendToNothing(Decode(a + b));
    } else {
      RequestStable(a, b);
      if p.Parsed? && p.frame.opcode != OP_CLOSE {
        DecodeSplit(a[p.size..], b);
        assert (a + b)[p.size..] == a[p.size..] + b;
        SplitStep(p.frame, Decode(a[p.size..]), Decode(a[p.size..] + b), b);
      }
    }
  }

  lemma AppendToNothing(r: Inbound)
    ensures Append([], r) == r
  {
    assert [] + r.taken == r.taken;
  }

  lemma SplitStep(f: Frame, r: Inbound, all: Inbound, b: Bytes)
    requires r.dead ==> all.dead && all.taken == r.taken
    requires !r.dead ==> all == Append(r.taken, Decode(r.left + b))
    ensures r.dead ==> Prepend(f, all).dead && Prepend(f, all).taken == Prepend(f, r).taken
    ensures !r.dead ==> Prepend(f, all) == Append(Prepend(f, r).taken, Decode(Prepend(f, r).left + b))
  {
    if !r.dead { PrependAppend(f, r.taken, Decode(r.left + b)); }
  }

  /** What stays in the buffer of a live connection is less than one largest frame. */
  lemma {:induction false} LeftoverBound(b: Bytes)
    ensures !Decode(b).dead ==> ParseRequest(Decode(b).left) == NeedMore && |Decode(b).left| < 14 + MAX_FRAME_PAYLOAD
    decreases |b|
  {
    var p := ParseRequest(b);
    if p.Parsed? && p.frame.opcode != OP_CLOSE {
      LeftoverBound(b[p.size..]);
    }
  }

  // ---- the same bytes in chunks ----

  /** One read of a socket brings at most this many bytes. */
  const READ_BYTES: nat := 4096
  const MAX_INPUT: nat := 2 * MAX_FRAME_PAYLOAD

  /** Take in one chunk: refuse a buffer grown too large, then decode. */
  function Take(s: Inbound, chunk: Bytes): Inbound {
    if s.dead then s
    else if |s.left + chunk| > MAX_INPUT then Inbound(s.taken, s.left + chunk, true)
    else Append(s.taken, Decode(s.left + chunk))
  }

  function TakeAll(chunks: seq<Bytes>): Inbound {
    if chunks == [] then NOTHING_YET
    else Take(TakeAll(chunks[..|chunks| - 1]), chunks[|chunks| - 1])
  }

  function Joined(chunks: seq<Bytes>): Bytes {
    if chunks == [] then [] else Joined(chunks[..|chunks| - 1]) + chunks[|chunks| - 1]
  }

  ghost predicate Reads(chunks: seq<Bytes>) {
    forall i :: 0 <= i < |chunks| ==> |chunks[i]| <= READ_BYTES
  }

  /** Same frames and same verdict, and on a live connection the same bytes left over. */
  ghost predicate SameOutcome(a: Inbound, b: Inbound) {
    a.taken == b.taken && a.dead == b.dead && (!a.dead ==> a.left == b.left)
  }

  /** However a stream is cut into reads, the outcome is that of decoding it whole; the size guard never fires. */
  lemma {:induction false} ChunkingIsIrrelevant(chunks: seq<Bytes>)
    requires Reads(chunks)
    ensures SameOutcome(TakeAll(chunks), Decode(Joined(chunks)))
  {
    if chunks != [] {
      var init, last := chunks[..|chunks| - 1], chunks[|chunks| - 1];
      ChunkingIsIrrelevant(init);
      TakeOneMore(TakeAll(init), Joined(init), last);
    }
  }

  lemma TakeOneMore(s: Inbound, stream: Bytes, chunk: Bytes)
    requires SameOutcome(s, Decode(stream)) && |chunk| <= READ_BYTES
    ensures SameOutcome(Take(s, chunk), Decode(stream + chunk))
    ensures !s.dead ==> |s.left + chunk| <= MAX_INPUT
  {
    DecodeSplit(stream, chunk);
    LeftoverBound(stream);
  }

  // ---- what clients send ----

  /** A frame as a client chooses it. */
  datatype Request = Request(head: bv8, mask: Mask, payload: Bytes) {
    ghost predicate Acceptable() {
      |payload| <= MAX_FRAME_PAYLOAD && head & 0x0F != OP_CLOSE
    }
    function Encoded(): Bytes { ClientFrame(head, mask, payload) }
    function Meant(): Frame { Frame(head & 0x0F, payload) }
  }

  function RequestWire(rs: seq<Request>): Bytes {
    if rs == [] then [] else rs[0].Encoded() + RequestWire(rs[1..])
  }

  function AllMeant(rs: seq<Request>): (fs: seq<Frame>)
    ensures |fs| == |rs| && forall i :: 0 <= i < |rs| ==> fs[i] == rs[i].Meant()
  {
    seq(|rs|, i requires 0 <= i < |rs| => rs[i].Meant())
  }

  /** The commands among the frames a connection sent, in order. */
  function Texts(fs: seq<Frame>): seq<Bytes> {
    if fs == [] then []
    else Texts(fs[..|fs| - 1]) + if fs[|fs| - 1].opcode == OP_TEXT then [fs[|fs| - 1].payload] else []
  }

  /** The server takes exactly the frames sent, in order, and goes on with whatever follows. */
  lemma {:induction false} RequestsRoundTrip(rs: seq<Request>, rest: Bytes)
    requires forall i :: 0 <= i < |rs| ==> rs[i].Acceptable()
    ensures Decode(RequestWire(rs) + rest) == Append(AllMeant(rs), Decode(rest))
  {
    if rs == [] {
      assert RequestWire(rs) + rest == rest;
    } else {
      var r, wire := rs[0], RequestWire(rs[1..]);
      RequestsRoundTrip(rs[1..], rest);
      assert RequestWire(rs) + rest == r.Encoded() + (wire + rest) by { Assoc(r.Encoded(), wire, rest); }
      OneRequest(r, wire + rest);
      MeantFirst(rs);
      PrependAppend(r.Meant(), AllMeant(rs[1..]), Decode(rest));
    }
  }

  lemma MeantFirst(rs: seq<Request>)
    requires rs != []
    ensures AllMeant(rs) == [rs[0].Meant()] + AllMeant(rs[1..])
  {
  }

  lemma OneRequest(r: Request, tail: Bytes)
    requires r.Acceptable()
    ensures Decode(r.Encoded() + tail) == Prepend(r.Meant(), Decode(tail))
  {
    RequestRoundTrip(r.head, r.mask, r.payload, tail);
    assert (r.Encoded() + tail)[|r.Encoded()|..] == tail;
  }

  /** From the client's frames to the command queue, through any splitting into reads. */
  lemma CommandsArriveInOrder(rs: seq<Request>, chunks: seq<Bytes>)
    requires forall i :: 0 <= i < |rs| ==> rs[i].Acceptable()
    requires Reads(chunks) && Joined(chunks) == RequestWire(rs)
    ensures TakeAll(chunks) == Inbound(AllMeant(rs), [], false)
    ensures Texts(TakeAll(chunks).taken) == Texts(AllMeant(rs))
  {
    ChunkingIsIrrelevant(chunks);
    RequestsRoundTrip(rs, []);
    assert RequestWire(rs) + [] == RequestWire(rs);
  }

  // ---- what the server sends ----

  datatype Outgoing = Outgoing(head: bv8, payload: Bytes) {
    function Encoded(): Bytes { ServerFrame(head, payload) }
    function Meant(): Frame { Frame(head & 0x0F, payload) }
  }

  function Wire(fs: seq<Outgoing>): Bytes {
    if fs == [] then [] else fs[0].Encoded() + Wire(fs[1..])
  }

  lemma {:induction false} WireOneMore(fs: seq<Outgoing>, f: Outgoing)
    ensures Wire(fs + [f]) == Wire(fs) + f.Encoded()
  {
    if fs == [] {
      assert [f][1..] == [];
    } else {
      WireOneMore(fs[1..], f);
      assert (fs + [f])[1..] == fs[1..] + [f];
      Assoc(fs[0].Encoded(), Wire(fs[1..]), f.Encoded());
    }
  }

  function MeantBy(fs: seq<Outgoing>): (r: seq<Frame>)
    ensures |r| == |fs| && forall i :: 0 <= i < |fs| ==> r[i] == fs[i].Meant()
  {
    seq(|fs|, i requires 0 <= i < |fs| => fs[i].Meant())
  }

  /** All whole frames a client can read from a stream. */
  function ReadAll(b: Bytes): seq<Frame>
    decreases |b|
  {
    match ParseReply(b)
    case Parsed(f, n) => [f] + ReadAll(b[n..])
    case _ => []
  }

  /** From these bytes a client reads exactly the frames that were offered. */
  ghost predicate ReadsBack(b: Bytes, fs: seq<Outgoing>) {
    ReadAll(b) == MeantBy(fs)
  }

  /** From these bytes a client reads the first of the frames, or all of them. */
  ghost predicate ReadsSome(b: Bytes, fs: seq<Outgoing>, whole: bool) {
    ReadAll(b) <= MeantBy(fs) && (whole ==> ReadsBack(b, fs))
  }

  lemma ReadsOneMore(b: Bytes, cut: Bytes, fs: seq<Outgoing>, whole: bool)
    requires fs != [] && ReadAll(b) == [fs[0].Meant()] + ReadAll(cut) && ReadsSome(cut, fs[1..], whole)
    ensures ReadsSome(b, fs, whole)
  {
    assert MeantBy(fs) == [fs[0].Meant()] + MeantBy(fs[1..]);
  }

  lemma WireCut(fs: seq<Outgoing>, k: nat, first: Bytes, rest: Bytes)
    requires fs != [] && first == fs[0].Encoded() && rest == Wire(fs[1..]) && k <= |Wire(fs)|
    ensures |Wire(fs)| == |first| + |rest|
    ensures Wire(fs)[..k] == if k < |first| then first[..k] else first + rest[..k - |first|]
  {
  }

  /** Stopped anywhere, a stream of whole frames reads back as a prefix of them, and in full if it was not cut short. */
  lemma {:induction false} ReadBack(fs: seq<Outgoing>, k: nat)
    requires k <= |Wire(fs)| && forall i :: 0 <= i < |fs| ==> |fs[i].payload| < MAX_LENGTH
    ensures ReadsSome(Wire(fs)[..k], fs, k == |Wire(fs)|)
    decreases |fs|, 1
  {
    if fs != [] {
      ReadBackFrom(fs, k, fs[0].Encoded(), Wire(fs[1..]));
    }
  }

  lemma {:induction false} ReadBackFrom(fs: seq<Outgoing>, k: nat, first: Bytes, rest: Bytes)
    requires k <= |Wire(fs)| && forall i :: 0 <= i < |fs| ==> |fs[i].payload| < MAX_LENGTH
    requires fs != [] && first == fs[0].Encoded() && rest == Wire(fs[1..])
    ensures ReadsSome(Wire(fs)[..k], fs, k == |Wire(fs)|)
    decreases |fs|, 0
  {
    WireCut(fs, k, first, rest);
    if k < |first| {
      CutFrame(fs[0], k);
    } else {
      ReadBack(fs[1..], k - |first|);
      ReadsFrameFirst(first + rest[..k - |first|], rest[..k - |first|], fs, k == |Wire(fs)|);
    }
  }

  lemma ReadsFrameFirst(b: Bytes, cut: Bytes, fs: seq<Outgoing>, whole: bool)
    requires fs != [] && b == fs[0].Encoded() + cut && |fs[0].payload| < MAX_LENGTH && ReadsSome(cut, fs[1..], whole)
    ensures ReadsSome(b, fs, whole)
  {
    OneReply(fs[0], cut);
    ReadsOneMore(b, cut, fs, whole);
  }

  lemma OneReply(f: Outgoing, rest: Bytes)
    requires |f.payload| < MAX_LENGTH
    ensures ReadAll(f.Encoded() + rest) == [f.Meant()] + ReadAll(rest)
  {
    ReplyRoundTrip(f.head, f.payload, rest);
    assert (f.Encoded() + rest)[|f.Encoded()|..] == rest;
  }

  /** Part of a frame is never taken for a frame. */
  lemma CutFrame(f: Outgoing, k: nat)
    requires |f.payload| < MAX_LENGTH && k < |f.Encoded()|
    ensures ParseReply(f.Encoded()[..k]) == NeedMore
  {
    var e := f.Encoded();
    ReplyRoundTrip(f.head, f.payload, []);
    assert e + [] == e && e == e[..k] + e[k..];
    if ParseReply(e[..k]) != NeedMore {
      ReplyStable(e[..k], e[k..]);
    }
  }

  // ---- bytes lost at the front ----

  function BytesFor(fs: seq<Frame>): nat {
    if fs == [] then 0 else FrameBytes(fs[0].payload) + BytesFor(fs[1..])
  }

  lemma {:induction false} WireIsShortest(fs: seq<Outgoing>)
    ensures |Wire(fs)| == BytesFor(MeantBy(fs))
  {
    if fs != [] {
      WireIsShortest(fs[1..]);
      assert MeantBy(fs) == [fs[0].Meant()] + MeantBy(fs[1..]);
    }
  }

  lemma {:induction false} ReadingTakesBytes(b: Bytes)
    ensures BytesFor(ReadAll(b)) <= |b|
    decreases |b|
  {
    var p := ParseReply(b);
    if p.Parsed? {
      ReplyTakesItsBytes(b);
      ReadingTakesBytes(b[p.size..]);
      assert ReadAll(b) == [p.frame] + ReadAll(b[p.size..]);
    }
  }

  /** A reader that lost the first n bytes of a stream of frames reads them all exactly if n is zero. */
  lemma NothingMayBeLost(fs: seq<Outgoing>, wire: Bytes, n: nat)
    requires wire == Wire(fs) && n <= |wire| && forall i :: 0 <= i < |fs| ==> |fs[i].payload| < MAX_LENGTH
    ensures ReadsBack(wire[n..], fs) <==> n == 0
  {
    if n == 0 {
      ReadBack(fs, |wire|);
      assert wire[n..] == wire == wire[..|wire|];
    } else {
      WireIsShortest(fs);
      ReadingTakesBytes(wire[n..]);
    }
  }

  // ---- dropping whole frames ----

  /** a is what remains of b after leaving out some entries. */
  ghost predicate Subsequence<T>(a: seq<T>, b: seq<T>) {
    a == [] ||
    (b != [] && (Subsequence(a, b[..|b| - 1]) ||
      (a[|a| - 1] == b[|b| - 1] && Subsequence(a[..|a| - 1], b[..|b| - 1]))))
  }

  lemma {:induction false} OneMoreOffered<T>(a: seq<T>, b: seq<T>, x: T)
    requires Subsequence(a, b)
    ensures Subsequence(a, b + [x]) && Subsequence(a + [x], b + [x])
  {
    assert (b + [x])[..|b|] == b && (a + [x])[..|a|] == a;
  }

  lemma {:induction false} PrefixOfSubsequence<T>(p: seq<T>, a: seq<T>, b: seq<T>)
    requires p <= a && Subsequence(a, b)
    ensures Subsequence(p, b)
  {
    if p != [] && p != a {
      if Subsequence(a, b[..|b| - 1]) {
        PrefixOfSubsequence(p, a, b[..|b| - 1]);
      } else {
        PrefixOfSubsequence(p, a[..|a| - 1], b[..|b| - 1]);
      }
    }
  }

  lemma {:induction false} MeaningKeepsSubsequence(a: seq<Outgoing>, b: seq<Outgoing>)
    requires Subsequence(a, b)
    ensures Subsequence(MeantBy(a), MeantBy(b))
  {
    if a != [] {
      var b' := b[..|b| - 1];
      assert MeantBy(b') == MeantBy(b)[..|b| - 1];
      if Subsequence(a, b') {
        MeaningKeepsSubsequence(a, b');
      } else {
        assert MeantBy(a[..|a| - 1]) == MeantBy(a)[..|a| - 1];
        MeaningKeepsSubsequence(a[..|a| - 1], b');
      }
    }
  }

  /** What a client reads from any part of a stream of accepted frames is an order-preserving selection of those
      offered. */
  lemma ReaderSeesSubsequence(queued: seq<Outgoing>, offered: seq<Outgoing>, k: nat)
    requires Subsequence(queued, offered) && k <= |Wire(queued)|
    requires forall i :: 0 <= i < |queued| ==> |queued[i].payload| < MAX_LENGTH
    ensures Subsequence(ReadAll(Wire(queued)[..k]), MeantBy(offered))
  {
    ReadBack(queued, k);
    MeaningKeepsSubsequence(queued, offered);
    PrefixOfSubsequence(ReadAll(Wire(queued)[..k]), MeantBy(queued), MeantBy(offered));
  }
}

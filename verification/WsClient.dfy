/** The command-line client: it reads frames from a socket piece by piece and writes one masked command. */
module WsClient {
  import opened Basics
  import opened WsFrames
  import opened WsStreams

  /** The blank line after the response's last header. */
  const END_OF_HEAD: Bytes := [0x0D, 0x0A, 0x0D, 0x0A]

  const RESPONSE_READ: nat := 4096

  predicate HasEnd(b: Bytes) {
    exists i: nat :: i <= |b| - 4 && BlankAt(b, i)
  }

  predicate BlankAt(b: Bytes, i: nat) {
    i + 4 <= |b| && b[i..i + 4] == END_OF_HEAD
  }

  /** Carriage return and line feed, twice. */
  ghost predicate BlankLineAt(b: Bytes, i: nat) {
    i + 4 <= |b| && b[i] == 13 && b[i + 1] == 10 && b[i + 2] == 13 && b[i + 3] == 10
  }

  lemma EndIsBlankLine(b: Bytes)
    ensures HasEnd(b) <==> exists i: nat :: BlankLineAt(b, i)
  {
    forall i: nat ensures BlankAt(b, i) <==> BlankLineAt(b, i) {
      if BlankAt(b, i) {
        var s := b[i..i + 4];
        assert s[0] == b[i] && s[1] == b[i + 1] && s[2] == b[i + 2] && s[3] == b[i + 3];
      }
    }
    if i: nat :| BlankLineAt(b, i) { assert BlankAt(b, i); }
  }

  /** The response ends after n bytes. */
  ghost predicate EndsAt(b: Bytes, n: nat) {
    n <= |b| && HasEnd(b[..n]) && forall k: nat :: k < n ==> !HasEnd(b[..k])
  }

  lemma EndStays(b: Bytes, j: nat, k: nat)
    requires j <= k <= |b| && HasEnd(b[..j])
    ensures HasEnd(b[..k])
  {
    var i: nat :| i <= j - 4 && BlankAt(b[..j], i);
    assert b[..k][i..i + 4] == b[..j][i..i + 4];
    assert BlankAt(b[..k], i);
  }

  /** A blocking socket: everything the peer sends before closing, and how much of it has been received. */
  class Connection {
    const incoming: Bytes
    var pos: nat

    predicate Valid()
      reads this
    {
      pos <= |incoming|
    }

    function Rest(): Bytes
      requires Valid()
      reads this
    {
      incoming[pos..]
    }

    constructor (incoming: Bytes)
      ensures Valid() && this.incoming == incoming && pos == 0
    {
      this.incoming, pos := incoming, 0;
    }

    /** Some bytes, at most the number asked for; none only at the end. */
    method Recv(limit: nat) returns (d: Bytes)
      requires Valid() && 0 < limit
      modifies this
      ensures Valid() && old(pos) <= pos <= old(pos) + limit && d == incoming[old(pos)..pos]
      ensures d == [] <==> old(pos) == |incoming|
    {
      var n: int := *;
      var available := |incoming| - pos;
      if available == 0 { return []; }
      if n < 1 || n > limit || n > available { n := 1; }
      d := incoming[pos..pos + n];
      pos := pos + n;
    }

    /** Exactly n bytes, or nothing if the peer closes first. */
    method Need(n: nat) returns (r: Option<Bytes>)
      requires Valid()
      modifies this
      ensures Valid() && old(pos) <= pos && (r.Some? <==> old(pos) + n <= |incoming|)
      ensures r.Some? ==> pos == old(pos) + n && r.value == incoming[old(pos)..pos]
    {
      var buf: Bytes := [];
      while |buf| < n
        invariant Valid() && old(pos) <= pos && |buf| <= n && buf == incoming[old(pos)..pos]
        decreases n - |buf|
      {
        ghost var at := pos;
        var d := Recv(n - |buf|);
        if d == [] { return None; }
        assert incoming[old(pos)..at] + incoming[at..pos] == incoming[old(pos)..pos];
        buf := buf + d;
      }
      return Some(buf);
    }

    /** Read until the blank line that ends the handshake response is in; what came in beyond it is not kept. */
    method ReadResponse() returns (ok: bool)
      requires Valid()
      modifies this
      ensures Valid() && old(pos) <= pos && (ok <==> HasEnd(old(Rest())))
      ensures ok <==> exists i: nat :: BlankLineAt(old(Rest()), i)
      ensures ok ==> forall n: nat :: EndsAt(old(Rest()), n) ==> n <= pos - old(pos) < n + RESPONSE_READ
    {
      ghost var b, from, before := Rest(), pos, 0;
      var buf: Bytes := [];
      while !HasEnd(buf)
        invariant Valid() && from <= pos && buf == b[..pos - from] && from + |b| == |incoming|
        invariant before <= |buf| <= before + RESPONSE_READ && !HasEnd(b[..before]) && (before == |buf| ==> buf == [])
        decreases |incoming| - pos
      {
        before := |buf|;
        var d := Recv(RESPONSE_READ);
        if d == [] {
          assert buf == b;
          EndIsBlankLine(b);
          return false;
        }
        assert b[..before] + d == b[..pos - from];
        buf := buf + d;
      }
      EndStays(b, |buf|, |b|);
      assert b[..|b|] == b;
      EndIsBlankLine(b);
      forall n: nat | EndsAt(b, n) ensures n <= |buf| < n + RESPONSE_READ {
        if n <= before { EndStays(b, n, before); }
      }
      return true;
    }

    /** One whole frame, however the bytes trickle in; nothing if the peer closes in the middle of it. */
    method ReadFrame() returns (r: Option<Frame>)
      requires Valid()
      modifies this
      ensures Valid() && FrameRead(old(Rest()), r, Rest())
    {
      ghost var b, from := Rest(), pos;
      var first := Need(2);
      if first.None? { return None; }
      var head, second := first.value[0], first.value[1];
      assert b[0] == head && b[1] == second;
      var len, ok := ReadLength(b, second);
      if !ok { return None; }
      ghost var end := pos - from;
      var mask := Need(if second & 0x80 != 0 then 4 else 0);
      var payload: Option<Bytes> := None;
      if mask.Some? { payload := Need(len); }
      if payload.None? {
        ReplyCutShort(b, end, len, Rest());
        return None;
      }
      ReplyRead(incoming, from, b, end, len, mask.value, payload.value);
      return Some(Frame(head & 0x0F, Unmasked(payload.value, mask.value)));
    }

    /** The extended length, if the second byte announces one. */
    method ReadLength(ghost b: Bytes, second: bv8) returns (len: nat, ok: bool)
      requires Valid() && pos >= 2 && b == incoming[pos - 2..] && b[1] == second
      modifies this
      ensures Valid() && pos >= old(pos) && (ok <==> LengthAt(b) != Incomplete)
      ensures ok ==> LengthAt(b) == LengthField(len, 2 + pos - old(pos))
    {
      len, ok := (second & 0x7F) as nat, true;
      if len == 126 {
        var two := Need(2);
        if two.None? { return 0, false; }
        assert two.value == b[2..4];
        len := BigEndian(two.value);
      } else if len == 127 {
        var eight := Need(8);
        if eight.None? { return 0, false; }
        assert eight.value == b[2..10];
        len := BigEndian(eight.value);
      }
    }
  }

  /** Reading from b gave r and left `rest`: the frame at its front and what follows, or nothing if it is cut short. */
  ghost predicate FrameRead(b: Bytes, r: Option<Frame>, rest: Bytes) {
    match ParseReply(b)
    case Parsed(f, n) => r == Some(f) && rest == b[n..]
    case _ => r == None
  }

  lemma ReplyCutShort(b: Bytes, end: nat, len: nat, rest: Bytes)
    requires 2 <= |b| && LengthAt(b) == LengthField(len, end) && |b| < (if b[1] & 0x80 != 0 then end + 4 else end) + len
    ensures FrameRead(b, None, rest)
  {
  }

  lemma ReplyRead(all: Bytes, from: nat, b: Bytes, end: nat, len: nat, mask: Bytes, payload: Bytes)
    requires from <= |all| && b == all[from..] && 2 <= |b| && LengthAt(b) == LengthField(len, end)
    requires from + end + |mask| + len <= |all| && |mask| == if b[1] & 0x80 != 0 then 4 else 0
    requires mask == all[from + end..from + end + |mask|]
    requires payload == all[from + end + |mask|..from + end + |mask| + len]
    ensures FrameRead(b, Some(Frame(b[0] & 0x0F, Unmasked(payload, mask))), all[from + end + |mask| + len..])
  {
    var start := end + |mask|;
    SliceOfRest(all, from, end, start);
    SliceOfRest(all, from, start, start + len);
    ReplyAt(b, end, len, start);
  }

  lemma ReplyAt(b: Bytes, end: nat, len: nat, start: nat)
    requires 2 <= |b| && LengthAt(b) == LengthField(len, end) && end <= start && start + len <= |b|
    requires start == if b[1] & 0x80 != 0 then end + 4 else end
    ensures ParseReply(b) == Parsed(Frame(b[0] & 0x0F, Unmasked(b[start..start + len], b[end..start])), start + len)
  {
  }

  lemma SliceOfRest(all: Bytes, from: nat, i: nat, j: nat)
    requires i <= j && from + j <= |all|
    ensures all[from..][i..j] == all[from + i..from + j]
    ensures all[from..][j..] == all[from + j..]
  {
  }

  /** After the handshake the client reads every frame the server sent exactly if its reads ended where the response
      did: what a read brings beyond it is lost, and with it the frames. */
  lemma InStepIffReadsEndAtResponse(incoming: Bytes, response: nat, fs: seq<Outgoing>, pos: nat)
    requires response <= pos <= |incoming| && incoming[response..] == Wire(fs)
    requires forall i :: 0 <= i < |fs| ==> |fs[i].payload| < MAX_LENGTH
    ensures ReadsBack(incoming[pos..], fs) <==> pos == response
  {
    var wire, lost := incoming[response..], pos - response;
    RestOfRest(incoming, response, lost, pos);
    NothingMayBeLost(fs, wire, lost);
  }

  lemma RestOfRest(all: Bytes, i: nat, n: nat, j: nat)
    requires j == i + n <= |all|
    ensures all[i..][n..] == all[j..]
  {
  }

  /** The command frame: FIN and text, masked, in the shortest length form. */
  method EncodeCommand(payload: Bytes, mask: Mask) returns (frame: Bytes)
    requires |payload| < MAX_LENGTH
    ensures frame == ClientFrame(HEAD_TEXT, mask, payload)
    ensures LaidOut(frame, 0x81, 128, |payload|, mask + Masked(payload, mask))
    ensures forall i :: 0 <= i < |payload| ==> Masked(payload, mask)[i] == payload[i] ^ mask[i % 4]
  {
    frame := MaskedFrame(payload, mask);
    ClientFrameLaidOut(HEAD_TEXT, mask, payload);
  }

  method MaskedFrame(payload: Bytes, mask: Mask) returns (frame: Bytes)
    requires |payload| < MAX_LENGTH
    ensures frame == ClientFrame(HEAD_TEXT, mask, payload)
  {
    var header := [HEAD_TEXT];
    var n := |payload|;
    if n < 126 {
      header := header + [0x80 | (n as bv8)];
    } else if n <= 0xFFFF {
      header := header + [0x80 | 126] + ToBigEndian(n, 2);
    } else {
      header := header + [0x80 | 127] + ToBigEndian(n, 8);
    }
    assert header == [HEAD_TEXT, 0x80 | LengthCode(n)] + LengthTail(n);
    frame := header + mask + Masked(payload, mask);
  }

  /** A command of at most 65536 bytes reaches the server's queue as it was written, however TCP cuts it up. */
  lemma CommandReachesQueue(payload: Bytes, mask: Mask, chunks: seq<Bytes>)
    requires |payload| <= MAX_FRAME_PAYLOAD
    requires Reads(chunks) && Joined(chunks) == ClientFrame(HEAD_TEXT, mask, payload)
    ensures Texts(TakeAll(chunks).taken) == [payload] && !TakeAll(chunks).dead && TakeAll(chunks).left == []
  {
    var r := Request(HEAD_TEXT, mask, payload);
    assert [r][1..] == [] && r.Encoded() + [] == r.Encoded();
    CommandsArriveInOrder([r], chunks);
    assert AllMeant([r]) == [Frame(OP_TEXT, payload)];
    assert [Frame(OP_TEXT, payload)][..0] == [];
  }
}

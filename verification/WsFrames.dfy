/** The frame format of RFC 6455 (sections 5.1 to 5.3) as both ends of the control channel read and write it. */
module WsFrames {
  import opened Basics

  type Bytes = seq<bv8>
  type Mask = m: Bytes | |m| == 4 witness [0, 0, 0, 0]

  const MAX_FRAME_PAYLOAD: nat := 64 * 1024
  const MAX_LENGTH: nat := 0x1_0000_0000_0000_0000

  const OP_TEXT: bv8 := 0x1
  const OP_CLOSE: bv8 := 0x8
  const OP_PING: bv8 := 0x9
  /** FIN and an opcode, as the first byte of what the server sends. */
  const HEAD_TEXT: bv8 := 0x81
  const HEAD_PONG: bv8 := 0x8A

  datatype Frame = Frame(opcode: bv8, payload: Bytes)

  // ---- lengths ----

  function BigEndian(b: Bytes): nat {
    if b == [] then 0 else 256 * BigEndian(b[..|b| - 1]) + b[|b| - 1] as nat
  }

  function Power256(width: nat): nat {
    if width == 0 then 1 else 256 * Power256(width - 1)
  }

  function ToBigEndian(n: nat, width: nat): (b: Bytes)
    ensures |b| == width
  {
    if width == 0 then [] else ToBigEndian(n / 256, width - 1) + [(n % 256) as bv8]
  }

  lemma {:induction false} BigEndianRoundTrip(n: nat, width: nat)
    requires n < Power256(width)
    ensures BigEndian(ToBigEndian(n, width)) == n
  {
    if width > 0 {
      BigEndianRoundTrip(n / 256, width - 1);
      ByteRoundTrip(n % 256);
      assert ToBigEndian(n, width)[..width - 1] == ToBigEndian(n / 256, width - 1);
    }
  }

  /** Which of the three length forms a payload size takes: the seven-bit code, and the bytes that follow it. */
  function LengthCode(n: nat): bv8 {
    if n < 126 then n as bv8 else if n <= 0xFFFF then 126 else 127
  }

  function LengthTail(n: nat): Bytes {
    if n < 126 then [] else if n <= 0xFFFF then ToBigEndian(n, 2) else ToBigEndian(n, 8)
  }

  /** A header length field as found in a buffer: not there yet, or its value and where it ends. */
  datatype LengthField = Incomplete | LengthField(value: nat, end: nat)

  function LengthAt(b: Bytes): LengthField
    requires 2 <= |b|
  {
    var code := (b[1] & 0x7F) as nat;
    if code == 126 then
      if |b| < 4 then Incomplete else LengthField(BigEndian(b[2..4]), 4)
    else if code == 127 then
      if |b| < 10 then Incomplete else LengthField(BigEndian(b[2..10]), 10)
    else LengthField(code, 2)
  }

  // ---- the byte order in plain arithmetic ----

  /** Two, four and eight bytes, the most significant first. */
  function TwoBytesValue(b: Bytes): nat
    requires |b| == 2
  {
    0x100 * b[0] as nat + b[1] as nat
  }

  function FourBytesValue(b: Bytes): nat
    requires |b| == 4
  {
    0x1_0000 * TwoBytesValue(b[..2]) + TwoBytesValue(b[2..])
  }

  function EightBytesValue(b: Bytes): nat
    requires |b| == 8
  {
    0x1_0000_0000 * FourBytesValue(b[..4]) + FourBytesValue(b[4..])
  }

  /** The bytes of n, the most significant first. */
  ghost predicate EightBytesOf(b: Bytes, n: nat)
    requires |b| == 8
  {
    b[0] as nat == n / 0x100_0000_0000_0000 % 256 && b[1] as nat == n / 0x1_0000_0000_0000 % 256 &&
    b[2] as nat == n / 0x100_0000_0000 % 256 && b[3] as nat == n / 0x1_0000_0000 % 256 &&
    b[4] as nat == n / 0x100_0000 % 256 && b[5] as nat == n / 0x1_0000 % 256 && b[6] as nat == n / 0x100 % 256 &&
    b[7] as nat == n % 256
  }

  /** A length of 126 announces two bytes and one of 127 announces eight, high byte first. */
  lemma LengthInPlainArithmetic(b: Bytes)
    requires 2 <= |b|
    ensures b[1] & 0x7F < 126 ==> LengthAt(b) == LengthField((b[1] & 0x7F) as nat, 2)
    ensures b[1] & 0x7F == 126 ==>
      LengthAt(b) == if |b| < 4 then Incomplete else LengthField(256 * b[2] as nat + b[3] as nat, 4)
    ensures b[1] & 0x7F == 127 ==>
      LengthAt(b) == if |b| < 10 then Incomplete else LengthField(EightBytesValue(b[2..10]), 10)
  {
    SevenBits(b[1]);
    if |b| >= 4 { TwoBytesRead(b[2..4]); }
    if |b| >= 10 { EightBytesRead(b[2..10]); }
  }

  lemma OneByteRead(b: Bytes, k: nat)
    requires k < |b|
    ensures BigEndian(b[..k + 1]) == 256 * BigEndian(b[..k]) + b[k] as nat
  {
    assert b[..k + 1][..k] == b[..k];
  }

  lemma TwoBytesRead(b: Bytes)
    requires |b| == 2
    ensures BigEndian(b) == TwoBytesValue(b)
  {
    OneByteRead(b, 0);
    OneByteRead(b, 1);
    assert b[..2] == b && b[..0] == [];
  }

  lemma FourBytesRead(b: Bytes)
    requires |b| == 4
    ensures BigEndian(b) == FourBytesValue(b)
  {
    JoinedRead(b, 2, 0x1_0000);
    TwoBytesRead(b[..2]);
    TwoBytesRead(b[2..]);
  }

  lemma EightBytesRead(b: Bytes)
    requires |b| == 8
    ensures BigEndian(b) == EightBytesValue(b)
  {
    assert Power256(2) == 0x1_0000;
    JoinedRead(b, 4, 0x1_0000_0000);
    FourBytesRead(b[..4]);
    FourBytesRead(b[4..]);
  }

  /** What the first k bytes are worth depends on how many follow. */
  lemma {:induction false} JoinedRead(b: Bytes, k: nat, power: nat)
    requires k <= |b| && power == Power256(|b| - k)
    ensures BigEndian(b) == power * BigEndian(b[..k]) + BigEndian(b[k..])
  {
    if k == |b| {
      assert b[..k] == b && b[k..] == [];
    } else {
      var m := |b| - 1;
      JoinedRead(b[..m], k, Power256(m - k));
      assert b[..m][..k] == b[..k] && b[k..][..m - k] == b[..m][k..];
      NextPlace(Power256(m - k), BigEndian(b[..k]), BigEndian(b[..m][k..]), b[m] as nat, power, BigEndian(b[..m]));
    }
  }

  lemma NextPlace(p: nat, hi: nat, lo: nat, x: nat, power: nat, v: nat)
    requires power == 256 * p && v == p * hi + lo
    ensures 256 * v + x == power * hi + (256 * lo + x)
  {
    assert 256 * (p * hi) == power * hi;
  }

  lemma TwoBytesWritten(n: nat)
    requires n < 0x1_0000
    ensures ToBigEndian(n, 2)[0] as nat == n / 256 && ToBigEndian(n, 2)[1] as nat == n % 256
  {
    var n1 := n / 256;
    assert n1 % 256 == n1;
    LastByteWritten(n, 2);
    LastByteWritten(n1, 1);
  }

  lemma LastByteWritten(n: nat, width: nat)
    requires 0 < width
    ensures ToBigEndian(n, width)[width - 1] as nat == n % 256
    ensures forall i :: 0 <= i < width - 1 ==> ToBigEndian(n, width)[i] == ToBigEndian(n / 256, width - 1)[i]
  {
    ByteRoundTrip(n % 256);
  }

  /** The last four bytes, and what is left for those before them. */
  lemma FourBytesWritten(n: nat, width: nat, n4: nat)
    requires 4 <= width && n4 == n / 0x1_0000_0000
    ensures var b := ToBigEndian(n, width);
      b[width - 1] as nat == n % 256 && b[width - 2] as nat == n / 0x100 % 256 &&
      b[width - 3] as nat == n / 0x1_0000 % 256 && b[width - 4] as nat == n / 0x100_0000 % 256
    ensures forall i :: 0 <= i < width - 4 ==> ToBigEndian(n, width)[i] == ToBigEndian(n4, width - 4)[i]
  {
    var n1 := n / 0x100;
    var n2 := n / 0x1_0000;
    var n3 := n / 0x100_0000;
    NearerQuotients(n, n1, n2, n3, n4);
    LastByteWritten(n, width);
    LastByteWritten(n1, width - 1);
    LastByteWritten(n2, width - 2);
    LastByteWritten(n3, width - 3);
  }

  lemma NearerQuotients(n: nat, n1: nat, n2: nat, n3: nat, n4: nat)
    requires n1 == n / 0x100 && n2 == n / 0x1_0000 && n3 == n / 0x100_0000 && n4 == n / 0x1_0000_0000
    ensures n1 / 256 == n2 && n2 / 256 == n3 && n3 / 256 == n4
  {
  }

  lemma EightBytesWritten(n: nat)
    ensures EightBytesOf(ToBigEndian(n, 8), n)
  {
    var n4 := n / 0x1_0000_0000;
    FourBytesWritten(n, 8, n4);
    FourBytesWritten(n4, 4, n4 / 0x1_0000_0000);
    FartherQuotients(n, n4);
  }

  lemma FartherQuotients(n: nat, n4: nat)
    requires n4 == n / 0x1_0000_0000
    ensures n4 / 0x100 == n / 0x100_0000_0000 && n4 / 0x1_0000 == n / 0x1_0000_0000_0000
    ensures n4 / 0x100_0000 == n / 0x100_0000_0000_0000
  {
  }

  lemma CodeBits(c: bv8)
    requires c < 0x80
    ensures (0x80 | c) & 0x7F == c && (0x80 | c) & 0x80 != 0 && c & 0x7F == c && c & 0x80 == 0
  {
  }

  lemma CodeIsSmall(n: nat)
    ensures LengthCode(n) < 0x80
  {
  }

  /** Whatever the mask bit, a written length is read back. */
  lemma LengthRoundTrip(b: Bytes, n: nat, second: bv8)
    requires n < MAX_LENGTH && 2 + |LengthTail(n)| <= |b|
    requires second == LengthCode(n) || second == 0x80 | LengthCode(n)
    requires b[1] == second && b[2..2 + |LengthTail(n)|] == LengthTail(n)
    ensures LengthAt(b) == LengthField(n, 2 + |LengthTail(n)|)
  {
    SecondByte(second, n);
    if n > 0xFFFF {
      PowerEight();
      BigEndianRoundTrip(n, 8);
    } else if 126 <= n {
      assert Power256(2) == 0x1_0000;
      BigEndianRoundTrip(n, 2);
    }
  }

  lemma SecondByte(second: bv8, n: nat)
    requires second == LengthCode(n) || second == 0x80 | LengthCode(n)
    ensures second & 0x7F == LengthCode(n)
    ensures LengthCode(n) as nat == if n < 126 then n else if n <= 0xFFFF then 126 else 127
  {
    CodeIsSmall(n);
    CodeBits(LengthCode(n));
    if n < 126 { ByteRoundTrip(n); }
  }

  lemma PowerEight()
    ensures Power256(8) == MAX_LENGTH
  {
    assert Power256(4) == 0x1_0000_0000;
  }

  // ---- masking ----

  /** Each byte is combined with one of the four mask bytes in turn; doing it twice changes nothing. */
  function Masked(p: Bytes, mask: Mask): (r: Bytes)
    ensures |r| == |p|
  {
    seq(|p|, i requires 0 <= i < |p| => p[i] ^ mask[i % 4])
  }

  lemma MaskTwice(p: Bytes, mask: Mask)
    ensures Masked(Masked(p, mask), mask) == p
  {
    var twice := Masked(Masked(p, mask), mask);
    forall i | 0 <= i < |p| ensures twice[i] == p[i] {
      XorTwice(p[i], mask[i % 4]);
    }
  }

  lemma XorTwice(a: bv8, m: bv8)
    ensures (a ^ m) ^ m == a
  {
  }

  // ---- what each side writes ----

  /** A client frame: masked, as section 5.1 demands. */
  function ClientFrame(head: bv8, mask: Mask, payload: Bytes): Bytes {
    [head, 0x80 | LengthCode(|payload|)] + LengthTail(|payload|) + mask + Masked(payload, mask)
  }

  /** A server frame: never masked. */
  function ServerFrame(head: bv8, payload: Bytes): Bytes {
    [head, LengthCode(|payload|)] + LengthTail(|payload|) + payload
  }

  /** A frame byte by byte: the first byte, the mask bit (0 or 128) with the length code, the length in none, two or
      eight bytes with the highest first, and the rest. */
  ghost predicate LaidOut(f: Bytes, head: bv8, maskBit: nat, n: nat, rest: Bytes) {
    if n < 126 then |f| == 2 + |rest| && f[0] == head && f[1] as nat == maskBit + n && f[2..] == rest
    else if n <= 65535 then
      |f| == 4 + |rest| && f[0] == head && f[1] as nat == maskBit + 126 && f[4..] == rest &&
      f[2] as nat == n / 256 && f[3] as nat == n % 256
    else
      |f| == 10 + |rest| && f[0] == head && f[1] as nat == maskBit + 127 && f[10..] == rest && EightBytesOf(f[2..10], n)
  }

  lemma FrameLaidOut(f: Bytes, head: bv8, code: bv8, maskBit: nat, n: nat, rest: Bytes)
    requires f == [head, code] + LengthTail(n) + rest
    requires code as nat == maskBit + if n < 126 then n else if n <= 65535 then 126 else 127
    ensures LaidOut(f, head, maskBit, n, rest)
  {
    if n > 65535 {
      EightBytesWritten(n);
      assert f[2..10] == LengthTail(n);
    } else if n >= 126 {
      TwoBytesWritten(n);
    }
  }

  lemma MarkedCode(code: bv8)
    requires code < 0x80
    ensures (0x80 | code) as nat == 128 + code as nat
  {
    assert 0x80 | code == 0x80 + code;
  }

  /** A server frame carries no mask bit and the payload as it is. */
  lemma ServerFrameLaidOut(head: bv8, payload: Bytes)
    ensures LaidOut(ServerFrame(head, payload), head, 0, |payload|, payload)
  {
    var n := |payload|;
    SecondByte(LengthCode(n), n);
    FrameLaidOut(ServerFrame(head, payload), head, LengthCode(n), 0, n, payload);
  }

  /** A client frame carries the mask bit, the mask, and every payload byte combined with its byte of the mask. */
  lemma ClientFrameLaidOut(head: bv8, mask: Mask, payload: Bytes)
    ensures LaidOut(ClientFrame(head, mask, payload), head, 128, |payload|, mask + Masked(payload, mask))
    ensures forall i :: 0 <= i < |payload| ==> (mask + Masked(payload, mask))[4 + i] == payload[i] ^ mask[i % 4]
  {
    var n := |payload|;
    SecondByte(LengthCode(n), n);
    CodeIsSmall(n);
    MarkedCode(LengthCode(n));
    var f, code := ClientFrame(head, mask, payload), 0x80 | LengthCode(n);
    Assoc([head, code] + LengthTail(n), mask, Masked(payload, mask));
    FrameLaidOut(f, head, code, 128, n, mask + Masked(payload, mask));
  }

  // ---- what each side reads from the front of a buffer ----

  datatype Parse = NeedMore | Violation | Parsed(frame: Frame, size: nat)

  /** The server's reading, check by check: oversized and unmasked frames are violations as soon as they can be seen. */
  function ParseRequest(b: Bytes): (r: Parse)
    ensures r.Parsed? ==> 2 <= r.size <= |b|
  {
    if |b| < 2 then NeedMore
    else match LengthAt(b)
      case Incomplete => NeedMore
      case LengthField(n, end) =>
        if n > MAX_FRAME_PAYLOAD then Violation
        else if b[1] & 0x80 == 0 then Violation
        else if |b| < end + 4 then NeedMore
        else if |b| < end + 4 + n then NeedMore
        else Parsed(Frame(b[0] & 0x0F, Masked(b[end + 4..end + 4 + n], b[end..end + 4])), end + 4 + n)
  }

  /** The command-line client's reading: any length, masked or not. */
  function ParseReply(b: Bytes): (r: Parse)
    ensures r.Parsed? ==> 2 <= r.size <= |b|
    ensures r != Violation
  {
    if |b| < 2 then NeedMore
    else match LengthAt(b)
      case Incomplete => NeedMore
      case LengthField(n, end) =>
        var start := if b[1] & 0x80 != 0 then end + 4 else end;
        if |b| < start + n then NeedMore
        else Parsed(Frame(b[0] & 0x0F, Unmasked(b[start..start + n], b[end..start])), start + n)
  }

  /** The server's verdict byte by byte: refused as soon as the length is known if it is over 65536 or the frame is not
      masked, taken once it is all there, with every payload byte combined with its byte of the mask. */
  ghost predicate ReadPlainly(b: Bytes, end: nat, n: nat, r: Parse) {
    end + 4 <= |b| - n && r.Parsed? && r.size == end + 4 + n && r.frame.opcode == b[0] & 0x0F &&
    |r.frame.payload| == n && forall i :: 0 <= i < n ==> r.frame.payload[i] == b[end + 4 + i] ^ b[end + i % 4]
  }

  lemma RequestInPlainTerms(b: Bytes)
    ensures |b| < 2 || LengthAt(b) == Incomplete ==> ParseRequest(b) == NeedMore
    ensures |b| >= 2 && LengthAt(b) != Incomplete ==>
      var n, end := LengthAt(b).value, LengthAt(b).end;
      if n > 65536 || b[1] < 0x80 then ParseRequest(b) == Violation
      else if |b| < end + 4 + n then ParseRequest(b) == NeedMore
      else ReadPlainly(b, end, n, ParseRequest(b))
  {
    if |b| >= 2 { MaskBit(b[1]); }
  }

  lemma MaskBit(x: bv8)
    ensures x & 0x80 == 0 <==> x < 0x80
  {
  }

  /** A payload as meant, given the mask bytes of the header, if any. */
  function Unmasked(payload: Bytes, mask: Bytes): Bytes {
    if |mask| == 4 then Masked(payload, mask) else payload
  }

  // ---- a verdict never changes when more bytes arrive ----

  lemma LengthStable(a: Bytes, b: Bytes)
    requires 2 <= |a| && LengthAt(a) != Incomplete
    ensures LengthAt(a + b) == LengthAt(a)
  {
    var ab := a + b;
    if |a| >= 4 { assert ab[2..4] == a[2..4]; }
    if |a| >= 10 { assert ab[2..10] == a[2..10]; }
  }

  lemma RequestStable(a: Bytes, b: Bytes)
    requires ParseRequest(a) != NeedMore
    ensures ParseRequest(a + b) == ParseRequest(a)
  {
    var ab, end, n := a + b, LengthAt(a).end, LengthAt(a).value;
    LengthStable(a, b);
    assert ab[0] == a[0] && ab[1] == a[1] && LengthAt(ab) == LengthField(n, end);
    if ParseRequest(a).Parsed? {
      SliceStable(a, b, end + 4, end + 4 + n);
      SliceStable(a, b, end, end + 4);
    }
  }

  lemma ReplyStable(a: Bytes, b: Bytes)
    requires ParseReply(a) != NeedMore
    ensures ParseReply(a + b) == ParseReply(a)
  {
    LengthStable(a, b);
    var end, n := LengthAt(a).end, LengthAt(a).value;
    var start := if a[1] & 0x80 != 0 then end + 4 else end;
    SliceStable(a, b, start, start + n);
    SliceStable(a, b, end, start);
  }

  lemma SliceStable(a: Bytes, b: Bytes, i: nat, j: nat)
    requires i <= j <= |a|
    ensures (a + b)[i..j] == a[i..j]
  {
  }

  // ---- round trips ----

  lemma ClientHeader(f: Bytes, head: bv8, mask: Mask, payload: Bytes, end: nat)
    requires |payload| < MAX_LENGTH && f == ClientFrame(head, mask, payload)
    requires end == 2 + |LengthTail(|payload|)|
    ensures |f| == end + 4 + |payload| && f[0] == head && f[1] & 0x80 != 0
    ensures LengthAt(f) == LengthField(|payload|, end)
    ensures f[end..end + 4] == mask && f[end + 4..end + 4 + |payload|] == Masked(payload, mask)
  {
    var n := |payload|;
    assert f[2..end] == LengthTail(n);
    LengthRoundTrip(f, n, 0x80 | LengthCode(n));
    CodeIsSmall(n);
    CodeBits(LengthCode(n));
  }

  lemma ServerHeader(f: Bytes, head: bv8, payload: Bytes, end: nat)
    requires |payload| < MAX_LENGTH && f == ServerFrame(head, payload)
    requires end == 2 + |LengthTail(|payload|)|
    ensures |f| == end + |payload| && f[0] == head && f[1] & 0x80 == 0
    ensures LengthAt(f) == LengthField(|payload|, end)
    ensures f[end..end + |payload|] == payload
  {
    var n := |payload|;
    assert f[2..end] == LengthTail(n);
    LengthRoundTrip(f, n, LengthCode(n));
    CodeIsSmall(n);
    CodeBits(LengthCode(n));
  }

  /** The server reads a client frame of at most 65536 payload bytes back as it was meant. */
  lemma RequestRoundTrip(head: bv8, mask: Mask, payload: Bytes, rest: Bytes)
    requires |payload| <= MAX_FRAME_PAYLOAD
    ensures ParseRequest(ClientFrame(head, mask, payload) + rest) ==
      Parsed(Frame(head & 0x0F, payload), |ClientFrame(head, mask, payload)|)
  {
    var f := ClientFrame(head, mask, payload);
    ClientHeader(f, head, mask, payload, 2 + |LengthTail(|payload|)|);
    MaskTwice(payload, mask);
    RequestStable(f, rest);
  }

  /** A larger one is refused from its header alone. */
  lemma OversizeRefused(head: bv8, mask: Mask, payload: Bytes, rest: Bytes)
    requires MAX_FRAME_PAYLOAD < |payload| < MAX_LENGTH
    ensures ParseRequest(ClientFrame(head, mask, payload) + rest) == Violation
  {
    var f := ClientFrame(head, mask, payload);
    ClientHeader(f, head, mask, payload, 2 + |LengthTail(|payload|)|);
    RequestStable(f, rest);
  }

  /** So is any frame the server itself would send: it carries no mask. */
  lemma UnmaskedRefused(head: bv8, payload: Bytes, rest: Bytes)
    requires |payload| < MAX_LENGTH
    ensures ParseRequest(ServerFrame(head, payload) + rest) == Violation
  {
    var f := ServerFrame(head, payload);
    ServerHeader(f, head, payload, 2 + |LengthTail(|payload|)|);
    RequestStable(f, rest);
  }

  /** The client reads every server frame back. */
  lemma ReplyRoundTrip(head: bv8, payload: Bytes, rest: Bytes)
    requires |payload| < MAX_LENGTH
    ensures ParseReply(ServerFrame(head, payload) + rest) ==
      Parsed(Frame(head & 0x0F, payload), |ServerFrame(head, payload)|)
  {
    var f := ServerFrame(head, payload);
    ServerHeader(f, head, payload, 2 + |LengthTail(|payload|)|);
    ReplyStable(f, rest);
  }

  // ---- the shortest encoding ----

  /** What a server frame with this payload takes up. */
  function FrameBytes(payload: Bytes): nat { 2 + |LengthTail(|payload|)| + |payload| }

  lemma {:induction false} BigEndianBelow(b: Bytes)
    ensures BigEndian(b) < Power256(|b|)
  {
    if b != [] {
      BigEndianBelow(b[..|b| - 1]);
    }
  }

  /** No frame is read from fewer bytes than the server needs to write it. */
  lemma ReplyTakesItsBytes(b: Bytes)
    requires ParseReply(b).Parsed?
    ensures FrameBytes(ParseReply(b).frame.payload) <= ParseReply(b).size
  {
    var code := (b[1] & 0x7F) as nat;
    SevenBits(b[1]);
    if code == 126 {
      BigEndianBelow(b[2..4]);
      assert Power256(2) == 0x1_0000;
    }
  }

  lemma SevenBits(x: bv8)
    ensures (x & 0x7F) as nat <= 127
  {
  }
}

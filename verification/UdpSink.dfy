/** The sender: batches records into data datagrams and repeats an announce among them. */
module UdpSink {
  import opened Messages
  import opened UdpFraming

  function AnnouncePacket(seed: u64, markets: u32, books: u32, seqNo: u64): (d: Packet)
    ensures Classify(d) == IsAnnounce && d.Bytes() <= MAX_DATAGRAM_BYTES && d.header.datagramSeq == seqNo
    ensures d.announce == Announce(seed, TICK_INTERVAL_NS, markets, books, RECORD_BYTES)
  {
    Framed(Header(UDP_MAGIC, UDP_VERSION, TYPE_ANNOUNCE, 1, seqNo),
           Announce(seed, TICK_INTERVAL_NS, markets, books, RECORD_BYTES), [], ANNOUNCE_BYTES)
  }

  /** A data payload is never read as an announce, so that view of it is left blank. */
  function DataPacket(records: seq<OddsUpdate>, seqNo: u64): (d: Packet)
    requires 1 <= |records| <= RECORDS_PER_DATAGRAM
    ensures Classify(d) == IsData && DataRecords(d) == records
    ensures d.Bytes() <= MAX_DATAGRAM_BYTES && d.header.datagramSeq == seqNo
  {
    Framed(Header(UDP_MAGIC, UDP_VERSION, TYPE_DATA, |records|, seqNo), Announce(0, 0, 0, 0, 0), records, 0)
  }

  /** Announces stand at every 65th place from the first on, so 64 data datagrams lie between two of them. */
  const CYCLE: nat := ANNOUNCE_INTERVAL + 1

  /** The place of datagram n within its cycle; announces have place 0. */
  function Place(n: nat): nat { n % CYCLE }

  /** How many data datagrams stand after the last announce among the first n. */
  function Since(n: nat): nat
    requires 0 < n
  {
    Place(n - 1)
  }

  /** Datagrams are numbered from 0 in 64 bits. */
  function Number(n: nat): u64 { n % TWO_64 }

  lemma NextNumber(n: nat)
    ensures (Number(n) + 1) % TWO_64 == Number(n + 1)
  {
  }

  /** What a receiver may rely on about everything sent. */
  ghost predicate WellSent(sent: seq<Packet>, seed: u64, markets: u32, books: u32) {
    forall i :: 0 <= i < |sent| ==> InPlace(sent[i], i, seed, markets, books)
  }

  /** The datagram sent as number i: an announce at every 65th place, data at the others. */
  ghost predicate InPlace(d: Packet, i: nat, seed: u64, markets: u32, books: u32) {
    d.Framed? && d.header.datagramSeq == Number(i) && d.Bytes() <= MAX_DATAGRAM_BYTES &&
    if Place(i) == 0 then d == AnnouncePacket(seed, markets, books, Number(i)) else Classify(d) == IsData
  }

  lemma {:induction false} SentOneMore(sent: seq<Packet>, d: Packet, seed: u64, markets: u32, books: u32)
    requires WellSent(sent, seed, markets, books) && InPlace(d, |sent|, seed, markets, books)
    ensures WellSent(sent + [d], seed, markets, books)
    ensures Payload(sent + [d]) == Payload(sent) + PayloadOf(d)
  {
    OneMoreDatagram(sent, d);
  }

  class Sink {
    const seed: u64
    const markets: u32
    const books: u32
    const buffer: array<OddsUpdate>
    var fill: nat
    var datagramSeq: u64
    var sinceAnnounce: nat
    var announces: nat
    /** Everything handed to the network, in order; a failed send is a datagram the network drops. */
    ghost var sent: seq<Packet>
    /** Every record accepted so far. */
    ghost var accepted: seq<OddsUpdate>

    ghost predicate Valid()
      reads this, buffer
    {
      Consistent() && fill < RECORDS_PER_DATAGRAM
    }

    /** Also holds between filling the last place and flushing. */
    ghost predicate Consistent()
      reads this, buffer
    {
      buffer.Length == RECORDS_PER_DATAGRAM && fill <= RECORDS_PER_DATAGRAM &&
      WellSent(sent, seed, markets, books) && 0 < |sent| && datagramSeq == Number(|sent|) &&
      sinceAnnounce == Since(|sent|) &&
      accepted == Payload(sent) + buffer[..fill]
    }

    constructor (seed: u64, markets: u32, books: u32)
      ensures Valid() && fresh(buffer) && accepted == [] && |sent| == 1
      ensures this.seed == seed && this.markets == markets && this.books == books
    {
      this.seed, this.markets, this.books := seed, markets, books;
      var blank := OddsUpdate(0, 0, 0, 0, 0, [0, 0, 0, 0]);
      buffer := new OddsUpdate[RECORDS_PER_DATAGRAM](_ => blank);
      fill, datagramSeq, sinceAnnounce, announces := 0, 0, 0, 0;
      sent, accepted := [], [];
      new;
      SendAnnounce();
    }

    method SendAnnounce()
      requires buffer.Length == RECORDS_PER_DATAGRAM && datagramSeq == Number(|sent|)
      requires WellSent(sent, seed, markets, books) && Place(|sent|) == 0
      modifies this
      ensures sent == old(sent) + [AnnouncePacket(seed, markets, books, old(datagramSeq))]
      ensures WellSent(sent, seed, markets, books) && Payload(sent) == Payload(old(sent))
      ensures |sent| == |old(sent)| + 1 && datagramSeq == Number(|sent|) && sinceAnnounce == 0 == Since(|sent|)
      ensures fill == old(fill) && accepted == old(accepted) && announces == old(announces) + 1
    {
      ghost var before := sent;
      var d := AnnouncePacket(seed, markets, books, datagramSeq);
      sent := sent + [d];
      datagramSeq := (datagramSeq + 1) % TWO_64;
      NextNumber(|before|);
      announces := announces + 1;
      sinceAnnounce := 0;
      SentOneMore(before, d, seed, markets, books);
      assert |sent| - 1 == |before|;
    }

    /** Send what is buffered, with an announce first when one is due. */
    method Flush()
      requires Consistent()
      modifies this
      ensures Valid() && fill == 0 && accepted == old(accepted)
      ensures old(sent) <= sent && |sent| <= |old(sent)| + 2
    {
      if fill == 0 { return; }
      AnnounceDue(|sent|, sinceAnnounce);
      if sinceAnnounce >= ANNOUNCE_INTERVAL {
        SendAnnounce();
        AnnounceDue(|sent|, sinceAnnounce);
      }
      SendData();
      assert Payload(sent) + buffer[..0] == Payload(sent);
    }

    method SendData()
      requires buffer.Length == RECORDS_PER_DATAGRAM && 1 <= fill <= RECORDS_PER_DATAGRAM
      requires datagramSeq == Number(|sent|) && Place(|sent|) == sinceAnnounce + 1
      requires WellSent(sent, seed, markets, books)
      modifies this
      ensures |sent| == |old(sent)| + 1 && old(sent) <= sent
      ensures WellSent(sent, seed, markets, books) && Payload(sent) == Payload(old(sent)) + buffer[..old(fill)]
      ensures datagramSeq == Number(|sent|) && sinceAnnounce == Since(|sent|) && fill == 0
      ensures accepted == old(accepted) && announces == old(announces)
    {
      ghost var before := sent;
      var d := DataPacket(buffer[..fill], datagramSeq);
      sent := sent + [d];
      datagramSeq := (datagramSeq + 1) % TWO_64;
      NextNumber(|before|);
      sinceAnnounce := sinceAnnounce + 1;
      fill := 0;
      SentOneMore(before, d, seed, markets, books);
      assert |sent| - 1 == |before|;
    }

    method Accept(update: OddsUpdate)
      requires Valid()
      modifies this, buffer
      ensures Valid() && accepted == old(accepted) + [update]
      ensures old(sent) <= sent && |sent| <= |old(sent)| + 2
    {
      ghost var before := buffer[..fill];
      buffer[fill] := update;
      fill := fill + 1;
      accepted := accepted + [update];
      assert buffer[..fill] == before + [update];
      if fill == RECORDS_PER_DATAGRAM {
        Flush();
      }
    }

    /** After the last record everything accepted is on its way. */
    method Finish()
      requires Valid()
      modifies this
      ensures Valid() && accepted == old(accepted) && Payload(sent) == accepted
      ensures old(sent) <= sent
    {
      Flush();
    }
  }

  /** An announce is due exactly when the next place is a multiple of the cycle. */
  lemma AnnounceDue(n: nat, since: nat)
    requires 0 < n && since == Since(n)
    ensures since <= ANNOUNCE_INTERVAL
    ensures since == ANNOUNCE_INTERVAL ==> Place(n) == 0
    ensures since < ANNOUNCE_INTERVAL ==> Place(n) == since + 1
  {
    var q := (n - 1) / CYCLE;
    assert n == CYCLE * q + since + 1;
    if since < ANNOUNCE_INTERVAL {
      DivModUnique(n, q, since + 1);
    } else {
      DivModUnique(n, q + 1, 0);
    }
  }

  /** The place of the d-th data datagram, counted from 0. */
  function DataIndex(d: nat): nat { d + 1 + d / ANNOUNCE_INTERVAL }

  /** The data datagrams are exactly those at the places DataIndex(d), in that order. */
  lemma DataNumbering(sent: seq<Packet>, seed: u64, markets: u32, books: u32, i: nat)
    requires WellSent(sent, seed, markets, books) && i < |sent|
    ensures Classify(sent[i]) == IsData <==> i % CYCLE != 0
    ensures Classify(sent[i]) == IsData ==> i >= 1 + i / CYCLE && DataIndex(i - 1 - i / CYCLE) == i
    ensures forall d: nat ::
      DataIndex(d) == i ==> Classify(sent[i]) == IsData && sent[i].header.datagramSeq == Number(d + 1 + d / 64)
  {
    forall d: nat | DataIndex(d) == i ensures i % CYCLE != 0 {
      var q, r := d / 64, d % 64;
      assert i == 65 * q + (r + 1);
      DivModUnique(i, q, r + 1);
    }
    var q, r := i / CYCLE, i % CYCLE;
    if r != 0 {
      var d := i - 1 - q;
      assert d == 64 * q + (r - 1);
      assert d / 64 == q;
    }
  }

  lemma DivModUnique(i: nat, q: nat, r: nat)
    requires i == 65 * q + r && r < 65
    ensures i / 65 == q && i % 65 == r
  {
  }
}

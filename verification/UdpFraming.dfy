/** Datagrams of the live feed: header, payload, and which ones a receiver takes. */
module UdpFraming {
  import opened Messages

  const UDP_MAGIC: u32 := 0x50444F55
  const UDP_VERSION: u16 := 2
  const TYPE_DATA: u8 := 0
  const TYPE_ANNOUNCE: u8 := 1
  const HEADER_BYTES: nat := 16
  const RECORD_BYTES: nat := 64
  const ANNOUNCE_BYTES: nat := 32
  const RECORDS_PER_DATAGRAM: nat := 16
  const MAX_DATAGRAM_BYTES: nat := HEADER_BYTES + RECORDS_PER_DATAGRAM * RECORD_BYTES
  const ANNOUNCE_INTERVAL: nat := 64

  datatype Header = Header(magic: u32, version: u16, kind: u8, recordCount: u8, datagramSeq: u64)

  datatype Announce = Announce(seed: u64, tickInterval: u64, markets: u32, books: u32, recordSize: u32)

  type RuntLength = x: nat | x < HEADER_BYTES
  type Remainder = x: nat | x < RECORD_BYTES

  /** A datagram on the wire: too short to hold a header, or a header and a payload. The payload is seen both
      ways it can be read: as an announce, and as whole records with some bytes left over. */
  datatype Packet =
    | Runt(length: RuntLength)
    | Framed(header: Header, announce: Announce, records: seq<OddsUpdate>, extra: Remainder)
  {
    function Bytes(): nat {
      match this
      case Runt(length) => length
      case Framed(_, _, records, extra) => HEADER_BYTES + |records| * RECORD_BYTES + extra
    }
  }

  datatype Kind = Unusable | IsData | IsAnnounce

  /** What a receive buffer of MAX_DATAGRAM_BYTES makes of a datagram: anything longer is cut off. */
  function Received(d: Packet): (r: Packet)
    ensures r.Bytes() <= MAX_DATAGRAM_BYTES
    ensures d.Bytes() <= MAX_DATAGRAM_BYTES ==> r == d
  {
    if d.Bytes() <= MAX_DATAGRAM_BYTES then d
    else Framed(d.header, d.announce, d.records[..RECORDS_PER_DATAGRAM], 0)
  }

  /** The receiver's checks, in its order. */
  function Classify(d: Packet): Kind {
    var r := Received(d);
    if r.Runt? then Unusable
    else if r.header.magic != UDP_MAGIC || r.header.version != UDP_VERSION then Unusable
    else if r.header.recordCount == 0 then Unusable
    else if r.header.kind == TYPE_ANNOUNCE then
      if r.Bytes() == HEADER_BYTES + ANNOUNCE_BYTES then IsAnnounce else Unusable
    else if r.header.recordCount > RECORDS_PER_DATAGRAM then Unusable
    else if r.Bytes() == HEADER_BYTES + r.header.recordCount * RECORD_BYTES then IsData
    else Unusable
  }

  /** When a datagram is taken, and as what: the magic and the version must be right, an announce has 48 bytes and at
      least one record by its own count, and data has one to 16 records and exactly the bytes they need. A datagram over
      1040 bytes is cut to that length, so it passes for data if it counts 16 records. Everything else is refused. */
  lemma TakenExactly(d: Packet)
    ensures d.Runt? ==> Classify(d) == Unusable
    ensures d.Framed? ==>
      (Classify(d) != Unusable ==> d.header.magic == 0x50444F55 && d.header.version == 2) &&
      (Classify(d) == IsAnnounce <==>
        d.header.magic == 0x50444F55 && d.header.version == 2 && d.header.kind == 1 && d.header.recordCount >= 1 &&
        d.Bytes() == 48) &&
      (Classify(d) == IsData <==>
        d.header.magic == 0x50444F55 && d.header.version == 2 && d.header.kind != 1 &&
        1 <= d.header.recordCount <= 16 &&
        (d.Bytes() == 16 + 64 * d.header.recordCount || (d.Bytes() > 1040 && d.header.recordCount == 16)))
  {
  }

  /** The records a data datagram carries. */
  function DataRecords(d: Packet): (rs: seq<OddsUpdate>)
    requires Classify(d) == IsData
    ensures |rs| == d.header.recordCount && 1 <= |rs| <= RECORDS_PER_DATAGRAM
  {
    Received(d).records
  }

  /** What a datagram adds to the stream of records: nothing unless it is data. */
  function PayloadOf(d: Packet): seq<OddsUpdate> {
    if Classify(d) == IsData then DataRecords(d) else []
  }

  /** The number it adds to the accounting, if it is usable at all. */
  function NumberOf(d: Packet): seq<u64> {
    if Classify(d) == Unusable then [] else [d.header.datagramSeq]
  }

  /** All records of the data datagrams of a list, in order. */
  function Payload(ds: seq<Packet>): seq<OddsUpdate> {
    if ds == [] then [] else Payload(ds[..|ds| - 1]) + PayloadOf(ds[|ds| - 1])
  }

  lemma {:induction false} OneMoreDatagram(ds: seq<Packet>, d: Packet)
    ensures Payload(ds + [d]) == Payload(ds) + PayloadOf(d)
  {
    assert (ds + [d])[..|ds|] == ds;
  }

  /** A record is in the payload exactly when some data datagram carries it. */
  lemma {:induction false} PayloadMembers(ds: seq<Packet>, u: OddsUpdate)
    ensures u in Payload(ds) <==> exists d :: d in ds && u in PayloadOf(d)
  {
    if ds != [] {
      var init, last := ds[..|ds| - 1], ds[|ds| - 1];
      PayloadMembers(init, u);
      assert ds == init + [last];
      assert last in ds;
    }
  }
}

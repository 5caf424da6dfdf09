/** The receiver: waits for an announce, then hands out the records of the data datagrams it takes in. */
module UdpSource {
  import opened Basics
  import opened Messages
  import opened UdpFraming
  import opened LossAccounting

  /** What one receive call meets: a timeout or a datagram. After the last event there is only silence. */
  datatype Event = Timeout | Arrived(packet: Packet)

  /** The records that events i to j-1 bring. */
  function RecordsOf(e: Event): seq<OddsUpdate> {
    if e.Timeout? then [] else PayloadOf(e.packet)
  }

  function Records(feed: seq<Event>, i: nat, j: nat): seq<OddsUpdate>
    requires i <= j <= |feed|
  {
    if i == j then [] else Records(feed, i, j - 1) + RecordsOf(feed[j - 1])
  }

  /** What they do to the accounting. */
  function CountEvent(a: Accounting, e: Event): Accounting {
    if e.Timeout? || Classify(e.packet) == Unusable then a else Account(a, e.packet.header.datagramSeq)
  }

  function Count(a: Accounting, feed: seq<Event>, i: nat, j: nat): Accounting
    requires i <= j <= |feed|
  {
    if i == j then a else CountEvent(Count(a, feed, i, j - 1), feed[j - 1])
  }

  /** The sequence numbers of the datagrams accepted from events i to j-1, announces included. */
  function AcceptedNumbers(feed: seq<Event>, i: nat, j: nat): seq<u64>
    requires i <= j <= |feed|
  {
    if i == j then []
    else AcceptedNumbers(feed, i, j - 1) + AcceptedNumber(feed[j - 1])
  }

  function AcceptedNumber(e: Event): seq<u64> { if e.Timeout? then [] else NumberOf(e.packet) }

  lemma AcceptOne(a: Accounting, ss: seq<u64>, e: Event)
    ensures AccountAll(a, ss + AcceptedNumber(e)) == CountEvent(AccountAll(a, ss), e)
  {
    if AcceptedNumber(e) == [] {
      assert ss + [] == ss;
    } else {
      AccountOneMore(a, ss, e.packet.header.datagramSeq);
    }
  }

  /** The counters over a stretch of the feed are the accounting of the numbers accepted in it. */
  lemma {:induction false} CountIsAccounting(a: Accounting, feed: seq<Event>, i: nat, j: nat)
    requires i <= j <= |feed|
    ensures Count(a, feed, i, j) == AccountAll(a, AcceptedNumbers(feed, i, j))
  {
    if i < j {
      CountIsAccounting(a, feed, i, j - 1);
      var ss, b := AcceptedNumbers(feed, i, j - 1), Count(a, feed, i, j - 1);
      assert AcceptedNumbers(feed, i, j) == ss + AcceptedNumber(feed[j - 1]);
      assert Count(a, feed, i, j) == CountEvent(b, feed[j - 1]);
      AcceptOne(a, ss, feed[j - 1]);
    }
  }

  /** What the receiver reports after a stretch of feed that began at the reset: `expected` balances, and if ns are the
      counts the sender gave the accepted datagrams, none of them twice, the loss is exact while they are in step. */
  lemma LossOfFeed(a: Accounting, feed: seq<Event>, i: nat, j: nat, base: nat, ns: seq<nat>)
    requires i <= j <= |feed| && Baseline(a) && a.expected == base % TWO_64
    requires Carried(ns) == AcceptedNumbers(feed, i, j)
    ensures var b := Count(a, feed, i, j);
      b.datagrams == a.datagrams + |ns| && Congruent(b.expected, a.expected + b.lost + (|ns| - b.reordered)) &&
      (Distinct(ns) && WithinALap(base, ns) && InStepThroughout(base, ns) ==>
        ExactAt(base, b, Reach(base, ns), Seen(ns), LateCount(base, ns)))
  {
    CountIsAccounting(a, feed, i, j);
    ExpectedBalances(a, Carried(ns));
    if Distinct(ns) && WithinALap(base, ns) && InStepThroughout(base, ns) { InStepIsExact(a, base, ns); }
  }

  lemma {:induction false} CountSplit(a: Accounting, feed: seq<Event>, i: nat, j: nat, k: nat)
    requires i <= j <= k <= |feed|
    ensures Count(a, feed, i, k) == Count(Count(a, feed, i, j), feed, j, k)
  {
    if j < k {
      CountSplit(a, feed, i, j, k - 1);
    }
  }

  lemma {:induction false} RecordsSplit(feed: seq<Event>, i: nat, j: nat, k: nat)
    requires i <= j <= k <= |feed|
    ensures Records(feed, i, k) == Records(feed, i, j) + Records(feed, j, k)
  {
    if j < k {
      RecordsSplit(feed, i, j, k - 1);
      Assoc(Records(feed, i, j), Records(feed, j, k - 1), RecordsOf(feed[k - 1]));
    }
  }

  predicate GoodAnnounce(a: Announce) {
    a.recordSize == RECORD_BYTES && a.markets != 0 && a.books != 0
  }

  predicate Announces(e: Event) { e.Arrived? && Classify(e.packet) == IsAnnounce }

  predicate IsMalformed(e: Event) { e.Arrived? && Classify(e.packet) == Unusable }

  /** How many data datagrams events i to j-1 are. */
  function DataCount(feed: seq<Event>, i: nat, j: nat): nat
    requires i <= j <= |feed|
  {
    if i == j then 0 else DataCount(feed, i, j - 1) + if RecordsOf(feed[j - 1]) != [] then 1 else 0
  }

  function AnnounceOf(e: Event): Announce
    requires Announces(e)
  {
    Received(e.packet).announce
  }

  predicate SameFeed(a: Announce, seed: u64, markets: u32, books: u32) {
    a.seed == seed && a.markets == markets && a.books == books
  }

  /** An event that does not announce a different feed. */
  predicate Agrees(e: Event, seed: u64, markets: u32, books: u32) {
    Announces(e) ==> SameFeed(AnnounceOf(e), seed, markets, books)
  }

  /** Receiving from place i met its first timeout just before place j, or ran out of events there. */
  ghost predicate QuietAt(feed: seq<Event>, i: nat, j: nat) {
    i <= j <= |feed| &&
    (if i < j && feed[j - 1].Timeout? then NoTimeout(feed, i, j - 1) else j == |feed| && NoTimeout(feed, i, j))
  }

  ghost predicate NoTimeout(feed: seq<Event>, i: nat, j: nat) {
    i <= j <= |feed| && forall k :: i <= k < j ==> feed[k].Arrived?
  }

  /** What a receive call came to; Bad means there is nothing to act on. */
  datatype ReadResult = NoDatagram | Bad | GotData | GotAnnounce

  /** What receiving from place i to place j came to: the accounting went from a to b, and the buffer then holds
      `unread`, all records met on the way. */
  ghost predicate Reception(feed: seq<Event>, i: nat, j: nat, a: Accounting, b: Accounting, r: ReadResult,
                            unread: seq<OddsUpdate>) {
    i <= j <= |feed| && b == Count(a, feed, i, j) && unread == Records(feed, i, j) && (r != GotData ==> unread == []) &&
    match r
    case NoDatagram => QuietAt(feed, i, j)
    case Bad => NoTimeout(feed, i, j)
    case _ => i < j && NoTimeout(feed, i, j)
  }

  lemma NothingYet(feed: seq<Event>, i: nat, a: Accounting)
    requires i <= |feed|
    ensures Reception(feed, i, i, a, a, Bad, []) && (i == |feed| ==> Reception(feed, i, i, a, a, NoDatagram, []))
  {
  }

  /** One receive call at place j came to r and left `unread` in the buffer; the accounting went from b to c. */
  ghost predicate Taken(feed: seq<Event>, j: nat, k: nat, b: Accounting, c: Accounting, r: ReadResult,
                        unread: seq<OddsUpdate>) {
    j <= |feed| && k == (if j < |feed| then j + 1 else j) && c == (if j < |feed| then CountEvent(b, feed[j]) else b) &&
    (r == NoDatagram <==> j == |feed| || feed[j].Timeout?) &&
    unread == (if j < |feed| then RecordsOf(feed[j]) else []) && (r != GotData ==> unread == [])
  }

  /** One receive call more, after others that brought nothing. */
  lemma OnePast(feed: seq<Event>, i: nat, j: nat, k: nat, a: Accounting, b: Accounting, c: Accounting,
                r: ReadResult, unread: seq<OddsUpdate>)
    requires Reception(feed, i, j, a, b, Bad, []) && Taken(feed, j, k, b, c, r, unread)
    ensures Reception(feed, i, k, a, c, r, unread)
  {
    if j < |feed| {
      assert Records(feed, i, k) == unread && Count(a, feed, i, k) == c;
      if r == NoDatagram {
        assert QuietAt(feed, i, k);
      } else {
        assert NoTimeout(feed, i, k);
      }
    }
  }

  lemma OneAfterTheOther(a: Accounting, feed: seq<Event>, i: nat, j: nat, k: nat)
    requires NoTimeout(feed, i, j) && j <= k <= |feed|
    ensures Count(a, feed, i, k) == Count(Count(a, feed, i, j), feed, j, k)
    ensures Records(feed, i, k) == Records(feed, i, j) + Records(feed, j, k)
    ensures NoTimeout(feed, j, k) ==> NoTimeout(feed, i, k)
    ensures QuietAt(feed, j, k) ==> QuietAt(feed, i, k)
  {
    CountSplit(a, feed, i, j, k);
    RecordsSplit(feed, i, j, k);
  }

  /** Nothing but datagrams without an announce from place i to place j; the accounting went from a to b. */
  ghost predicate Waiting(feed: seq<Event>, i: nat, j: nat, a: Accounting, b: Accounting) {
    NoTimeout(feed, i, j) && b == Count(a, feed, i, j) && NoAnnounces(feed, i, j)
  }

  ghost predicate NoAnnounces(feed: seq<Event>, i: nat, j: nat) {
    j <= |feed| && forall k :: i <= k < j ==> !Announces(feed[k])
  }

  /** Waiting from place i came to t at place j. */
  ghost predicate WaitedTo(feed: seq<Event>, i: nat, j: nat, a: Accounting, b: Accounting, t: ReadResult) {
    match t
    case NoDatagram => QuietAt(feed, i, j) && NoAnnounces(feed, i, j)
    case GotAnnounce =>
      i < j && NoTimeout(feed, i, j) && NoAnnounces(feed, i, j - 1) && Announces(feed[j - 1]) &&
      b == Count(a, feed, i, j)
    case _ => Waiting(feed, i, j, a, b)
  }

  lemma WaitOn(feed: seq<Event>, i: nat, j: nat, k: nat, a: Accounting, b: Accounting, c: Accounting, t: ReadResult)
    requires Waiting(feed, i, j, a, b) && OneEvent(feed, j, k, b, c)
    requires t == NoDatagram <==> j == |feed| || feed[j].Timeout?
    requires t == GotAnnounce <==> j < |feed| && Announces(feed[j])
    ensures WaitedTo(feed, i, k, a, c, t)
  {
    if j < |feed| {
      assert Count(a, feed, i, j + 1) == CountEvent(b, feed[j]);
      if t == NoDatagram { assert QuietAt(feed, i, j + 1); } else { assert NoTimeout(feed, i, j + 1); }
    }
  }

  /** One receive call at place j, if there is anything to receive. */
  ghost predicate OneEvent(feed: seq<Event>, j: nat, k: nat, b: Accounting, c: Accounting) {
    j <= |feed| && if j < |feed| then k == j + 1 && c == CountEvent(b, feed[j]) else k == j && c == b
  }

  /** After pre data datagrams were passed over before place i, n have been at place j. */
  ghost predicate PassedOver(feed: seq<Event>, i: nat, j: nat, pre: nat, n: nat) {
    i <= j <= |feed| && n == pre + DataCount(feed, i, j)
  }

  lemma PassOn(feed: seq<Event>, i: nat, j: nat, k: nat, pre: nat, n: nat, n': nat)
    requires PassedOver(feed, i, j, pre, n) && k == if j < |feed| then j + 1 else j
    requires n' == n + if j < |feed| && RecordsOf(feed[j]) != [] then 1 else 0
    ensures PassedOver(feed, i, k, pre, n')
  {
  }

  /** The consumer has `us` and the buffer the rest of the records from place i to place j. */
  ghost predicate Draining(feed: seq<Event>, i: nat, j: nat, a: Accounting, b: Accounting, us: seq<OddsUpdate>,
                           unread: seq<OddsUpdate>) {
    NoTimeout(feed, i, j) && b == Count(a, feed, i, j) && us + unread == Records(feed, i, j)
  }

  datatype StartResult = Started | NoAnnounce | BadAnnounce

  datatype NextResult = Got(update: OddsUpdate) | EndOfFeed | Reconfigured

  /** Asking for one record moved from place i to place j, and the unread records from `was` to `unread`. */
  ghost predicate Handed(feed: seq<Event>, i: nat, j: nat, a: Accounting, b: Accounting, r: NextResult,
                         was: seq<OddsUpdate>, unread: seq<OddsUpdate>) {
    i <= j <= |feed| && b == Count(a, feed, i, j) &&
    match r
    case Got(u) => NoTimeout(feed, i, j) && [u] + unread == was + Records(feed, i, j)
    case EndOfFeed => was == Records(feed, i, j) == [] && QuietAt(feed, i, j)
    case Reconfigured => i < j && NoTimeout(feed, i, j)
  }

  lemma NoneHanded(feed: seq<Event>, i: nat, j: nat, a: Accounting, b: Accounting, t: ReadResult,
                   unread: seq<OddsUpdate>, r: NextResult)
    requires Reception(feed, i, j, a, b, t, unread)
    requires (t == NoDatagram && r == EndOfFeed) || (t == GotAnnounce && r == Reconfigured)
    ensures Handed(feed, i, j, a, b, r, [], unread)
  {
  }

  /** The first of the unread records is handed out, after receiving some if there were none. */
  lemma OneHanded(feed: seq<Event>, i: nat, j: nat, a: Accounting, b: Accounting, was: seq<OddsUpdate>,
                  filled: seq<OddsUpdate>, u: OddsUpdate, unread: seq<OddsUpdate>)
    requires [u] + unread == filled && i <= |feed|
    requires if was == [] then Reception(feed, i, j, a, b, GotData, filled) else i == j && a == b && filled == was
    ensures Handed(feed, i, j, a, b, Got(u), was, unread)
  {
  }

  /** Asking until the end brought `us`: every record up to the silence, or those before another feed was announced. */
  ghost predicate Drained(feed: seq<Event>, i: nat, j: nat, a: Accounting, b: Accounting, us: seq<OddsUpdate>,
                          ended: NextResult) {
    i <= j <= |feed| && b == Count(a, feed, i, j) &&
    match ended
    case Got(_) => false
    case EndOfFeed => us == Records(feed, i, j) && QuietAt(feed, i, j)
    case Reconfigured => i < j && NoTimeout(feed, i, j) && us <= Records(feed, i, j)
  }

  lemma DrainOn(feed: seq<Event>, i: nat, j: nat, k: nat, a: Accounting, b: Accounting, c: Accounting,
                us: seq<OddsUpdate>, was: seq<OddsUpdate>, r: NextResult, unread: seq<OddsUpdate>)
    requires Draining(feed, i, j, a, b, us, was) && Handed(feed, j, k, b, c, r, was, unread)
    ensures if r.Got? then Draining(feed, i, k, a, c, us + [r.update], unread) else Drained(feed, i, k, a, c, us, r)
  {
    var more := Records(feed, j, k);
    OneAfterTheOther(a, feed, i, j, k);
    Assoc(us, was, more);
    if r.Got? { Assoc(us, [r.update], unread); }
  }

  /** What is left of a buffer of n records after the first `cursor` were handed out. */
  function Left(buf: seq<OddsUpdate>, cursor: nat, n: nat): seq<OddsUpdate> {
    if cursor < n <= |buf| then buf[cursor..n] else []
  }

  class Source {
    const feed: seq<Event>
    var pos: nat
    var seed: u64
    var markets: u32
    var books: u32
    /** The receive buffer, read as records and read as an announce. */
    var bufRecords: seq<OddsUpdate>
    var bufAnnounce: Announce
    var inBuffer: nat
    var cursor: nat
    var lastCount: nat
    var expected: u64
    var lost: u64
    var reordered: nat
    var datagrams: nat
    var records: nat
    var malformed: nat
    var preAnnounce: nat
    var announces: nat

    function Counters(): Accounting
      reads this
    {
      Accounting(expected, lost, reordered, datagrams)
    }

    /** The place in the feed is a place, and the buffer holds at least the records it is said to hold. */
    predicate Valid()
      reads this
    {
      pos <= |feed| && cursor <= inBuffer && (cursor < inBuffer ==> inBuffer <= |bufRecords|)
    }

    /** The records received but not handed out yet. */
    function Unread(): seq<OddsUpdate>
      reads this
    {
      Left(bufRecords, cursor, inBuffer)
    }

    constructor (feed: seq<Event>)
      ensures this.feed == feed && Valid() && pos == cursor == inBuffer == records == 0
      ensures Counters() == Accounting(0, 0, 0, 0)
    {
      this.feed, pos := feed, 0;
      seed, markets, books := 0, 0, 0;
      bufRecords, bufAnnounce := [], Announce(0, 0, 0, 0, 0);
      inBuffer, cursor, lastCount := 0, 0, 0;
      expected, lost, reordered, datagrams, records := 0, 0, 0, 0, 0;
      malformed, preAnnounce, announces := 0, 0, 0;
    }

    /** One receive call and its checks; the sequence accounting covers announces as well. */
    method ReadDatagram() returns (r: ReadResult)
      requires pos <= |feed|
      modifies `pos, `bufRecords, `bufAnnounce, `lastCount, `expected, `lost, `reordered, `datagrams, `malformed
      ensures pos == (if old(pos) < |feed| then old(pos) + 1 else old(pos))
      ensures r == NoDatagram <==> old(pos) == |feed| || feed[old(pos)].Timeout?
      ensures Counters() == if old(pos) < |feed| then CountEvent(old(Counters()), feed[old(pos)]) else old(Counters())
      ensures r == GotData ==> 0 < lastCount == |bufRecords| && RecordsOf(feed[old(pos)]) == bufRecords
      ensures r != GotData && old(pos) < |feed| ==> RecordsOf(feed[old(pos)]) == []
      ensures r == GotAnnounce <==> old(pos) < |feed| && Announces(feed[old(pos)])
      ensures r == GotAnnounce ==> bufAnnounce == AnnounceOf(feed[old(pos)])
      ensures malformed == old(malformed) + if old(pos) < |feed| && IsMalformed(feed[old(pos)]) then 1 else 0
    {
      if pos == |feed| { return NoDatagram; }
      var e := feed[pos];
      pos := pos + 1;
      if e.Timeout? { return NoDatagram; }
      if Classify(e.packet) == Unusable {
        malformed := malformed + 1;
        return Bad;
      }
      bufRecords, bufAnnounce := Received(e.packet).records, Received(e.packet).announce;
      CountSeq(e.packet.header.datagramSeq);
      lastCount := e.packet.header.recordCount;
      return if Classify(e.packet) == IsAnnounce then GotAnnounce else GotData;
    }

    method CountSeq(s: u64)
      modifies `expected, `lost, `reordered, `datagrams
      ensures Counters() == Account(old(Counters()), s)
    {
      if s > expected {
        lost := (lost + s - expected) % TWO_64;
        expected := (s + 1) % TWO_64;
      } else if s < expected {
        reordered := reordered + 1;
      } else {
        expected := (expected + 1) % TWO_64;
      }
      datagrams := datagrams + 1;
    }

    /** Receive until an announce arrives; data before it is dropped, and the loss counters are reset. */
    method AwaitAnnounce() returns (r: StartResult)
      requires Valid() && cursor == inBuffer == records == 0
      modifies this
      ensures Valid() && old(pos) <= pos && cursor == inBuffer == records == 0
      ensures r == NoAnnounce ==> QuietAt(feed, old(pos), pos) && NoAnnounces(feed, old(pos), pos)
      ensures r != NoAnnounce ==>
        old(pos) < pos && NoTimeout(feed, old(pos), pos) && NoAnnounces(feed, old(pos), pos - 1)
      ensures r != NoAnnounce ==> Announces(feed[pos - 1])
      ensures r == BadAnnounce ==> !GoodAnnounce(AnnounceOf(feed[pos - 1]))
      ensures r != NoAnnounce ==>
        var a := AnnounceOf(feed[pos - 1]);
        (r == Started <==> a.recordSize == 64 && a.markets != 0 && a.books != 0) &&
        (r == Started ==> seed == a.seed && markets == a.markets && books == a.books)
      ensures r == Started ==>
        GoodAnnounce(AnnounceOf(feed[pos - 1])) && SameFeed(AnnounceOf(feed[pos - 1]), seed, markets, books)
      // the number expected next survives the reset, the loss counters do not
      ensures r == Started ==> Baseline(Counters()) && expected == Count(old(Counters()), feed, old(pos), pos).expected
      ensures PassedOver(feed, old(pos), pos, old(preAnnounce), preAnnounce)
      ensures announces == old(announces) + if r == Started then 1 else 0
    {
      var t := Wait();
      if t == NoDatagram { return NoAnnounce; }
      if !GoodAnnounce(bufAnnounce) { return BadAnnounce; }
      AdoptAnnounce();
      return Started;
    }

    /** Receive until the first announce, or silence. */
    method Wait() returns (t: ReadResult)
      requires pos <= |feed|
      modifies `pos, `bufRecords, `bufAnnounce, `lastCount, `expected, `lost, `reordered, `datagrams, `malformed,
        `preAnnounce
      ensures old(pos) <= pos <= |feed| && (t == NoDatagram || t == GotAnnounce)
      ensures WaitedTo(feed, old(pos), pos, old(Counters()), Counters(), t)
      ensures t == GotAnnounce ==> bufAnnounce == AnnounceOf(feed[pos - 1])
      ensures PassedOver(feed, old(pos), pos, old(preAnnounce), preAnnounce)
    {
      ghost var from, before, pre := pos, Counters(), preAnnounce;
      t := Bad;
      while t != NoDatagram && t != GotAnnounce
        invariant from <= pos && WaitingSoFar(from, before, pre, t)
        decreases if t == NoDatagram then 0 else 1, |feed| - pos
      {
        t := WaitOnce(from, before, pre, t);
      }
    }

    ghost predicate WaitingSoFar(from: nat, before: Accounting, pre: nat, t: ReadResult)
      reads `pos, `bufAnnounce, `expected, `lost, `reordered, `datagrams, `preAnnounce
    {
      PassedOver(feed, from, pos, pre, preAnnounce) &&
      WaitedTo(feed, from, pos, before, Accounting(expected, lost, reordered, datagrams), t) &&
      (t == GotAnnounce ==> bufAnnounce == AnnounceOf(feed[pos - 1]))
    }

    method WaitOnce(ghost from: nat, ghost before: Accounting, ghost pre: nat, t: ReadResult) returns (r: ReadResult)
      requires WaitingSoFar(from, before, pre, t) && t != NoDatagram && t != GotAnnounce
      modifies `pos, `bufRecords, `bufAnnounce, `lastCount, `expected, `lost, `reordered, `datagrams, `malformed,
        `preAnnounce
      ensures WaitingSoFar(from, before, pre, r) && (r == NoDatagram || old(pos) < pos)
    {
      ghost var at, was, n := pos, Counters(), preAnnounce;
      r := ReadDatagram();
      WaitOn(feed, from, at, pos, before, was, Counters(), r);
      if r == GotData { preAnnounce := preAnnounce + 1; }
      PassOn(feed, from, at, pos, pre, n, preAnnounce);
    }

    method AdoptAnnounce()
      modifies `seed, `markets, `books, `announces, `lost, `reordered, `inBuffer, `cursor
      ensures SameFeed(bufAnnounce, seed, markets, books) && cursor == inBuffer == 0 && announces == old(announces) + 1
      ensures Counters() == old(Counters()).(lost := 0, reordered := 0)
    {
      seed, markets, books := bufAnnounce.seed, bufAnnounce.markets, bufAnnounce.books;
      announces := announces + 1;
      lost, reordered, inBuffer, cursor := 0, 0, 0, 0;
    }

    /** One receive call and what follows from it: records fill the buffer, an announce must be of the same feed,
        anything else is passed over. */
    method TakeDatagram() returns (r: ReadResult)
      requires Valid() && cursor == inBuffer
      modifies `pos, `bufRecords, `bufAnnounce, `lastCount, `expected, `lost, `reordered, `datagrams,
        `malformed, `announces, `inBuffer, `cursor
      ensures Valid() && Taken(feed, old(pos), pos, old(Counters()), Counters(), r, Unread())
      ensures if r == GotData then cursor == 0 < inBuffer else cursor == inBuffer
      ensures r == GotAnnounce <==> old(pos) < |feed| && !Agrees(feed[old(pos)], seed, markets, books)
      ensures r == GotAnnounce <==>
        old(pos) < |feed| && Announces(feed[old(pos)]) &&
        var a := AnnounceOf(feed[old(pos)]); a.seed != seed || a.markets != markets || a.books != books
      ensures announces ==
        old(announces) + if old(pos) < |feed| && Announces(feed[old(pos)]) && r != GotAnnounce then 1 else 0
      ensures malformed == old(malformed) + if old(pos) < |feed| && IsMalformed(feed[old(pos)]) then 1 else 0
    {
      r := ReadDatagram();
      if r == GotAnnounce && SameFeed(bufAnnounce, seed, markets, books) {
        announces := announces + 1;
        return Bad;
      }
      if r == GotData {
        inBuffer, cursor := lastCount, 0;
        assert Unread() == bufRecords;
      }
    }

    /** Receive until there are records to hand out, the feed goes quiet, or another feed is announced. */
    method ReceiveOne() returns (r: ReadResult)
      requires Valid() && cursor == inBuffer
      modifies `pos, `bufRecords, `bufAnnounce, `lastCount, `expected, `lost, `reordered, `datagrams,
        `malformed, `announces, `inBuffer, `cursor
      ensures Valid() && r != Bad && Reception(feed, old(pos), pos, old(Counters()), Counters(), r, Unread())
      ensures r == GotData ==> cursor == 0 < inBuffer
      ensures r == GotAnnounce ==> !Agrees(feed[pos - 1], seed, markets, books)
    {
      ghost var from, before := pos, Counters();
      NothingYet(feed, pos, before);
      r := Bad;
      while r == Bad
        invariant ReceivedSoFar(from, before, r)
        decreases if r == Bad then 1 else 0, |feed| - pos
      {
        r := ReceiveOnce(from, before);
      }
    }

    ghost predicate ReceivedSoFar(from: nat, before: Accounting, r: ReadResult)
      reads this
    {
      Valid() && Reception(feed, from, pos, before, Counters(), r, Unread()) &&
      (if r == GotData then cursor == 0 < inBuffer else cursor == inBuffer) &&
      (r == GotAnnounce ==> !Agrees(feed[pos - 1], seed, markets, books))
    }

    method ReceiveOnce(ghost from: nat, ghost before: Accounting) returns (r: ReadResult)
      requires ReceivedSoFar(from, before, Bad)
      modifies `pos, `bufRecords, `bufAnnounce, `lastCount, `expected, `lost, `reordered, `datagrams,
        `malformed, `announces, `inBuffer, `cursor
      ensures ReceivedSoFar(from, before, r) && (r == Bad ==> old(pos) < pos)
    {
      ghost var at, was := pos, Counters();
      r := TakeDatagram();
      OnePast(feed, from, at, pos, before, was, Counters(), r, Unread());
    }

    method TakeOne() returns (u: OddsUpdate)
      requires Valid() && cursor < inBuffer
      modifies `cursor, `records
      ensures Valid() && cursor == old(cursor) + 1 && records == old(records) + 1
      ensures [u] + Unread() == old(Unread())
    {
      u := bufRecords[cursor];
      cursor := cursor + 1;
      records := records + 1;
      assert bufRecords[cursor - 1..inBuffer] == [u] + bufRecords[cursor..inBuffer];
    }

    /** The next record: from the buffer, or from the next data datagram. */
    method Next() returns (r: NextResult)
      requires Valid()
      modifies `pos, `bufRecords, `bufAnnounce, `lastCount, `expected, `lost, `reordered, `datagrams,
        `malformed, `announces, `inBuffer, `cursor, `records
      ensures Valid() && Handed(feed, old(pos), pos, old(Counters()), Counters(), r, old(Unread()), Unread())
      ensures old(pos) <= pos && (r.Got? && old(pos) == pos ==> inBuffer == old(inBuffer) && cursor == old(cursor) + 1)
      ensures r == Reconfigured ==> !Agrees(feed[pos - 1], seed, markets, books)
      ensures records == old(records) + if r.Got? then 1 else 0
    {
      ghost var from, before, was := pos, Counters(), Unread();
      if cursor == inBuffer {
        var t := ReceiveOne();
        if t != GotData {
          r := if t == NoDatagram then EndOfFeed else Reconfigured;
          NoneHanded(feed, from, pos, before, Counters(), t, Unread(), r);
          return;
        }
      }
      ghost var filled := Unread();
      var u := TakeOne();
      OneHanded(feed, from, pos, before, Counters(), was, filled, u, Unread());
      return Got(u);
    }

    /** The consumer's loop: ask for records until the feed goes quiet. */
    method Drain() returns (us: seq<OddsUpdate>, ended: NextResult)
      requires Valid() && Unread() == []
      modifies `pos, `bufRecords, `bufAnnounce, `lastCount, `expected, `lost, `reordered, `datagrams,
        `malformed, `announces, `inBuffer, `cursor, `records
      ensures Valid() && Drained(feed, old(pos), pos, old(Counters()), Counters(), us, ended)
      ensures ended == Reconfigured ==> !Agrees(feed[pos - 1], seed, markets, books)
      ensures records == old(records) + |us|
    {
      us, ended := [], EndOfFeed;
      ghost var start, before := pos, Counters();
      while true
        invariant Valid() && Draining(feed, start, pos, before, Counters(), us, Unread())
        invariant records == old(records) + |us|
        decreases |feed| - pos, inBuffer - cursor
      {
        ended := DrainNext(us, start, before);
        if !ended.Got? { return; }
        us := us + [ended.update];
      }
    }

    method DrainNext(ghost us: seq<OddsUpdate>, ghost start: nat, ghost before: Accounting) returns (r: NextResult)
      requires Valid() && Draining(feed, start, pos, before, Counters(), us, Unread())
      modifies `pos, `bufRecords, `bufAnnounce, `lastCount, `expected, `lost, `reordered, `datagrams,
        `malformed, `announces, `inBuffer, `cursor, `records
      ensures Valid() && if r.Got? then Draining(feed, start, pos, before, Counters(), us + [r.update], Unread())
        else Drained(feed, start, pos, before, Counters(), us, r)
      ensures r.Got? ==> old(pos) < pos || (old(pos) == pos && inBuffer - cursor < old(inBuffer - cursor))
      ensures r == Reconfigured ==> !Agrees(feed[pos - 1], seed, markets, books)
      ensures records == old(records) + if r.Got? then 1 else 0
    {
      ghost var from, was, so := pos, Unread(), Counters();
      r := Next();
      DrainOn(feed, start, from, pos, before, so, Counters(), us, was, r, Unread());
    }
  }
}

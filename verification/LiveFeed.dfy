/** Sender, lossy network, receiver and table together: live mode against file mode. */
module LiveFeed {
  import opened Messages
  import opened UdpFraming
  import opened BookTable
  import opened UdpSink
  import opened UdpSource
  import opened LossAccounting

  // ---- the network as a state machine ----

  /** What was sent, what is in flight, what was delivered. */
  datatype Net = Net(sent: seq<Packet>, wire: multiset<Packet>, got: seq<Packet>)

  ghost predicate Init(n: Net) { n == Net([], multiset{}, []) }

  ghost predicate Send(n: Net, n': Net, d: Packet) {
    n' == Net(n.sent + [d], n.wire + multiset{d}, n.got)
  }

  ghost predicate Drop(n: Net, n': Net, d: Packet) {
    d in n.wire && n' == n.(wire := n.wire - multiset{d})
  }

  ghost predicate Duplicate(n: Net, n': Net, d: Packet) {
    d in n.wire && n' == n.(wire := n.wire + multiset{d})
  }

  /** Any datagram in flight may be delivered next, so this is also how reordering happens. */
  ghost predicate Deliver(n: Net, n': Net, d: Packet) {
    d in n.wire && n' == Net(n.sent, n.wire - multiset{d}, n.got + [d])
  }

  ghost predicate Step(n: Net, n': Net) {
    exists d :: Send(n, n', d) || Drop(n, n', d) || Duplicate(n, n', d) || Deliver(n, n', d)
  }

  /** A run of the network, one state per step. */
  ghost predicate Run(tr: seq<Net>) {
    tr != [] && Init(tr[0]) && forall i :: 0 <= i < |tr| - 1 ==> Step(tr[i], tr[i + 1])
  }

  ghost predicate OnlySent(n: Net) {
    (forall d :: d in n.wire ==> d in n.sent) && forall d :: d in n.got ==> d in n.sent
  }

  lemma StepKeepsGenuine(n: Net, n': Net)
    requires OnlySent(n) && Step(n, n')
    ensures OnlySent(n') && n.sent <= n'.sent && n.got <= n'.got
  {
  }

  /** At every point of every run nothing is in flight or delivered that was not sent. */
  lemma {:induction false} RunIsGenuine(tr: seq<Net>, i: nat)
    requires Run(tr) && i < |tr|
    ensures OnlySent(tr[i])
  {
    if i > 0 {
      RunIsGenuine(tr, i - 1);
      StepKeepsGenuine(tr[i - 1], tr[i]);
    }
  }

  // ---- tables fed live and from the file ----

  lemma ReceiptMembers(us: seq<OddsUpdate>, r: Receipt)
    ensures r in Receipts(us) <==> r.update in us && r.recvNs == r.update.simTimestamp
  {
    if r.update in us {
      var i :| 0 <= i < |us| && us[i] == r.update;
      assert Receipts(us)[i] == Receipt(us[i], us[i].simTimestamp);
    }
  }

  /** Delivered datagrams carry no record that was not accepted; if all of the data was delivered, none is missing. */
  lemma PayloadOfDelivered(sent: seq<Packet>, got: seq<Packet>, u: OddsUpdate)
    requires forall d :: d in got ==> d in sent
    ensures u in Payload(got) ==> u in Payload(sent)
    ensures (forall d :: d in sent && Classify(d) == IsData ==> d in got) ==> (u in Payload(sent) ==> u in Payload(got))
  {
    PayloadMembers(got, u);
    PayloadMembers(sent, u);
  }

  /** Sequence numbers below the sentinel, and unique within each slot: what every generated session satisfies. */
  ghost predicate ProperRecords(us: seq<OddsUpdate>) {
    ProperHistory(Receipts(us))
  }

  /** Safety over every run: a live quote is always the quote of a record that was really generated,
      and never newer than the one file mode ends with. */
  lemma LiveQuoteIsGenuine(tr: seq<Net>, i: nat, market: nat, book: nat)
    requires Run(tr) && i < |tr| && ProperRecords(Payload(tr[i].sent))
    ensures var live := SlotAfter(Receipts(Payload(tr[i].got)), market, book);
      var file := SlotAfter(Receipts(Payload(tr[i].sent)), market, book);
      live == NO_QUOTE ||
      (exists u :: u in Payload(tr[i].sent) && u.marketId == market && u.bookId == book &&
         live == QuoteOf(Receipt(u, u.simTimestamp)) && live.seqNo <= file.seqNo < EMPTY_SEQ)
  {
    RunIsGenuine(tr, i);
    GenuineQuote(tr[i].sent, tr[i].got, market, book);
  }

  lemma GenuineQuote(sent: seq<Packet>, got: seq<Packet>, market: nat, book: nat)
    requires (forall d :: d in got ==> d in sent) && ProperRecords(Payload(sent))
    ensures var live := SlotAfter(Receipts(Payload(got)), market, book);
      var file := SlotAfter(Receipts(Payload(sent)), market, book);
      live == NO_QUOTE ||
      (exists u :: u in Payload(sent) && u.marketId == market && u.bookId == book &&
         live == QuoteOf(Receipt(u, u.simTimestamp)) && live.seqNo <= file.seqNo < EMPTY_SEQ)
  {
    var a, b := Receipts(Payload(got)), Receipts(Payload(sent));
    forall r | r in a ensures r in b {
      ReceiptMembers(Payload(got), r);
      PayloadOfDelivered(sent, got, r.update);
      ReceiptMembers(Payload(sent), r);
    }
    SlotHoldsNewest(a, market, book);
    SlotHoldsNewest(b, market, book);
    var live := SlotAfter(a, market, book);
    if live != NO_QUOTE {
      var r :| r in a && ForSlot(r, market, book) && live == QuoteOf(r);
      ReceiptMembers(Payload(sent), r);
      assert r in b;
    }
  }

  /** If everything was delivered at least once, in any order and with any duplication, live mode ends with file mode's
      quotes. */
  lemma LiveEqualsFile(sent: seq<Packet>, got: seq<Packet>, market: nat, book: nat)
    requires ProperRecords(Payload(sent)) && forall d :: d in got ==> d in sent
    requires forall d :: d in sent && Classify(d) == IsData ==> d in got
    ensures SlotAfter(Receipts(Payload(got)), market, book) == SlotAfter(Receipts(Payload(sent)), market, book)
  {
    var a, b := Receipts(Payload(sent)), Receipts(Payload(got));
    forall r ensures r in a <==> r in b {
      ReceiptMembers(Payload(sent), r);
      ReceiptMembers(Payload(got), r);
      PayloadOfDelivered(sent, got, r.update);
    }
    SameReceiptsSameQuotes(a, b, market, book);
  }

  /** Nothing was ever sent for the slot, or some datagram delivered carries the newest record for it. */
  ghost predicate NewestDelivered(sent: seq<Packet>, got: seq<Packet>, market: nat, book: nat) {
    (forall r :: r in Receipts(Payload(sent)) ==> !ForSlot(r, market, book)) ||
    exists d, u :: d in got && u in PayloadOf(d) && NewestSent(sent, market, book, u)
  }

  ghost predicate NewestSent(sent: seq<Packet>, market: nat, book: nat, u: OddsUpdate) {
    IsTop(Receipts(Payload(sent)), market, book, Receipt(u, u.simTimestamp))
  }

  /** The quote reading all records in order ends with. */
  ghost predicate AsInFile(q: Quote, sent: seq<Packet>, market: nat, book: nat) {
    q == SlotAfter(Receipts(Payload(sent)), market, book)
  }

  /** Whatever was delivered: live mode ends with file mode's quote for a slot exactly if the newest record for it was
      delivered; the others do not matter. */
  lemma SlotLiveEqualsFileIff(sent: seq<Packet>, got: seq<Packet>, market: nat, book: nat)
    requires ProperRecords(Payload(sent)) && forall d :: d in got ==> d in sent
    ensures AsInFile(SlotAfter(Receipts(Payload(got)), market, book), sent, market, book) <==>
      NewestDelivered(sent, got, market, book)
  {
    var a, b := Receipts(Payload(got)), Receipts(Payload(sent));
    forall r | r in a ensures r in b {
      ReceiptMembers(Payload(got), r);
      PayloadOfDelivered(sent, got, r.update);
      ReceiptMembers(Payload(sent), r);
    }
    SubsetSlotIff(a, b, market, book);
    if r :| IsTop(b, market, book, r) {
      TopDelivered(sent, got, market, book, r);
    } else {
      NothingSent(b, market, book);
    }
  }

  /** A table that saw some of the receipts agrees on a slot exactly if it saw the newest for it. */
  lemma SubsetSlotIff(a: seq<Receipt>, b: seq<Receipt>, market: nat, book: nat)
    requires ProperHistory(b) && forall r :: r in a ==> r in b
    ensures SlotAfter(a, market, book) == SlotAfter(b, market, book) <==>
      (forall r :: IsTop(b, market, book, r) ==> r in a)
  {
    SlotHoldsNewest(a, market, book);
    SlotHoldsNewest(b, market, book);
    forall r, x | IsTop(b, market, book, r) && IsTop(a, market, book, x)
      ensures (QuoteOf(r) == QuoteOf(x) <==> r == x) && (r in a ==> r == x)
    {
      assert r in a ==> r.update.seqNo <= x.update.seqNo;
      assert SameSlotAndSeq(r, x) ==> r == x;
    }
    if r :| IsTop(b, market, book, r) {
      forall x | IsTop(b, market, book, x) ensures x == r { assert SameSlotAndSeq(r, x); }
    }
  }

  /** The newest receipt was seen exactly if a datagram that carries it was delivered. */
  lemma TopDelivered(sent: seq<Packet>, got: seq<Packet>, market: nat, book: nat, r: Receipt)
    requires ProperRecords(Payload(sent)) && IsTop(Receipts(Payload(sent)), market, book, r)
    ensures (forall x :: IsTop(Receipts(Payload(sent)), market, book, x) ==> x in Receipts(Payload(got))) <==>
      NewestDelivered(sent, got, market, book)
  {
    var b := Receipts(Payload(sent));
    ReceiptMembers(Payload(sent), r);
    ReceiptMembers(Payload(got), r);
    PayloadMembers(got, r.update);
    forall x | IsTop(b, market, book, x) ensures x == r { assert SameSlotAndSeq(r, x); }
    if r in Receipts(Payload(got)) {
      var d :| d in got && r.update in PayloadOf(d);
      assert NewestSent(sent, market, book, r.update);
    }
  }

  lemma NothingSent(b: seq<Receipt>, market: nat, book: nat)
    requires ProperHistory(b) && forall r :: !IsTop(b, market, book, r)
    ensures forall r :: r in b ==> !ForSlot(r, market, book)
  {
    SlotHoldsNewest(b, market, book);
  }

  // ---- the receiver on such a feed ----

  function Events(got: seq<Packet>): (es: seq<Event>)
    ensures |es| == |got| && forall i :: 0 <= i < |got| ==> es[i] == Arrived(got[i])
  {
    seq(|got|, i requires 0 <= i < |got| => Arrived(got[i]))
  }

  ghost predicate SameRecords(feed: seq<Event>, got: seq<Packet>, i: nat, j: nat)
    requires i <= j <= |got| == |feed|
  {
    Records(feed, i, j) == Payload(got[i..j])
  }

  lemma OneMoreArrived(feed: seq<Event>, got: seq<Packet>, i: nat, j: nat)
    requires i <= j < |got| == |feed| && feed[j] == Arrived(got[j]) && SameRecords(feed, got, i, j)
    ensures SameRecords(feed, got, i, j + 1)
  {
    var before, d := got[i..j], got[j];
    assert got[i..j + 1] == before + [d];
    OneMoreDatagram(before, d);
  }

  lemma {:induction false} RecordsArePayload(feed: seq<Event>, got: seq<Packet>, i: nat, j: nat)
    requires feed == Events(got) && i <= j <= |got|
    ensures SameRecords(feed, got, i, j)
  {
    if i < j {
      RecordsArePayload(feed, got, i, j - 1);
      OneMoreArrived(feed, got, i, j - 1);
    } else {
      assert got[i..j] == [];
    }
  }

  // ---- what the receiver counts as lost ----

  /** Of n datagrams sent, those at places ns arrive, in the order they were sent. */
  ghost predicate InSendingOrder(ns: seq<nat>, n: nat) {
    (forall i :: 0 <= i < |ns| ==> ns[i] < n) && forall i, j :: 0 <= i < j < |ns| ==> ns[i] < ns[j]
  }

  /** After the first j of them: the next one expected, and all the others up to it, announces and data alike, lost. */
  ghost predicate LostSoFar(ns: seq<nat>, j: nat, a: Accounting)
    requires j <= |ns|
  {
    a.reordered == 0 && a.datagrams == j &&
    if j == 0 then a.expected == 0 && a.lost == 0
    else a.expected == ns[j - 1] + 1 && a.lost == ns[j - 1] + 1 - j
  }

  /** A sender's datagrams that arrive in order, some of them lost on the way, are accounted for exactly: what is
      reported lost is how many of those sent so far did not come; nothing, if all of them did. */
  lemma {:induction false} OrderedLossIsExact(sent: seq<Packet>, seed: u64, markets: u32, books: u32, ns: seq<nat>,
                                              feed: seq<Event>, j: nat)
    requires WellSent(sent, seed, markets, books) && |sent| < TWO_64 && InSendingOrder(ns, |sent|)
    requires j <= |ns| == |feed| && forall i :: 0 <= i < |ns| ==> feed[i] == Arrived(sent[ns[i]])
    ensures LostSoFar(ns, j, Count(Accounting(0, 0, 0, 0), feed, 0, j)) && (0 < j ==> j <= ns[j - 1] + 1)
  {
    if j > 0 {
      OrderedLossIsExact(sent, seed, markets, books, ns, feed, j - 1);
      var a := Count(Accounting(0, 0, 0, 0), feed, 0, j - 1);
      assert Count(Accounting(0, 0, 0, 0), feed, 0, j) == CountEvent(a, feed[j - 1]);
      SentIsCounted(sent, seed, markets, books, ns[j - 1], feed[j - 1], a);
      CountedInOrder(ns, j, a);
    }
  }

  lemma SentIsCounted(sent: seq<Packet>, seed: u64, markets: u32, books: u32, k: nat, e: Event, a: Accounting)
    requires WellSent(sent, seed, markets, books) && k < |sent| < TWO_64 && e == Arrived(sent[k])
    ensures CountEvent(a, e) == Account(a, k)
  {
    assert InPlace(sent[k], k, seed, markets, books);
    assert Classify(sent[k]) != Unusable by { SentIsAccepted(sent, seed, markets, books, sent[k]); }
    CountedAs(sent[k], k, e, a);
  }

  lemma CountedAs(d: Packet, k: nat, e: Event, a: Accounting)
    requires k < TWO_64 && e == Arrived(d) && Classify(d) != Unusable && d.header.datagramSeq == Number(k)
    ensures CountEvent(a, e) == Account(a, k)
  {
  }

  lemma CountedInOrder(ns: seq<nat>, j: nat, a: Accounting)
    requires 0 < j <= |ns| && LostSoFar(ns, j - 1, a) && ns[j - 1] + 1 < TWO_64
    requires j == 1 || (ns[j - 2] < ns[j - 1] && j - 1 <= ns[j - 2] + 1)
    ensures LostSoFar(ns, j, Account(a, ns[j - 1])) && j <= ns[j - 1] + 1
  {
  }

  /** How many datagrams come before the first announce. */
  function BeforeAnnounce(got: seq<Packet>): (i: nat)
    ensures i <= |got| && (forall k :: 0 <= k < i ==> Classify(got[k]) != IsAnnounce)
    ensures i < |got| ==> Classify(got[i]) == IsAnnounce
  {
    if got == [] || Classify(got[0]) == IsAnnounce then 0 else 1 + BeforeAnnounce(got[1..])
  }

  /** What a receiver that waits for an announce gets to hand out. */
  function Heard(got: seq<Packet>): seq<Packet> { got[BeforeAnnounce(got)..] }

  /** If it is an announce, it announces this feed, in this record format. */
  predicate OfFeed(d: Packet, seed: u64, markets: u32, books: u32) {
    Classify(d) == IsAnnounce ==>
      (d.Framed? && d.announce == Announce(seed, TICK_INTERVAL_NS, markets, books, RECORD_BYTES))
  }

  /** Every datagram a sender sent passes the receiver's checks and announces the same feed. */
  lemma SentIsAccepted(sent: seq<Packet>, seed: u64, markets: u32, books: u32, d: Packet)
    requires WellSent(sent, seed, markets, books) && d in sent
    ensures Classify(d) != Unusable && d.Bytes() <= MAX_DATAGRAM_BYTES && OfFeed(d, seed, markets, books)
  {
    var i :| 0 <= i < |sent| && sent[i] == d;
    assert InPlace(d, i, seed, markets, books);
  }

  lemma AnnounceCarriesNothing(got: seq<Packet>)
    requires got != [] && Classify(got[0]) == IsAnnounce
    ensures Payload(got) == Payload(got[1..])
    decreases |got|
  {
    if |got| == 1 {
      assert got[..0] == [] && got[1..] == [];
    } else {
      var m := |got| - 1;
      AnnounceCarriesNothing(got[..m]);
      assert got[..m][1..] == got[1..][..m - 1];
    }
  }

  /** A whole live session: wait for an announce, drain the feed, apply every record. Whatever arrives of what was sent,
      in any order: the table ends with exactly the records that came after the first announce to arrive, and agrees
      with file mode on a slot exactly if the newest record for it is among them. */
  method LiveSession(arrivals: seq<Packet>, seed: u64, markets: u32, books: u32, ghost sent: seq<Packet>)
    returns (started: bool, table: Table)
    requires WellSent(sent, seed, markets, books) && forall d :: d in arrivals ==> d in sent
    ensures started <==> markets > 0 && books > 0 && AnyAnnounce(arrivals)
    ensures table.Valid() && fresh(table)
    ensures table.history == if started then Receipts(Payload(Heard(arrivals))) else []
    ensures started && ProperRecords(Payload(sent)) ==>
      forall m, b :: 0 <= m < table.markets && 0 <= b < table.books ==>
        (AsInFile(table.slots[m, b], sent, m, b) <==> NewestDelivered(sent, Heard(arrivals), m, b))
    // on a perfect channel the records come through exactly
    ensures arrivals == sent != [] && markets > 0 && books > 0 ==> started && table.history == Receipts(Payload(sent))
  {
    var feed := Events(arrivals);
    forall i | 0 <= i < |arrivals| ensures OfFeed(arrivals[i], seed, markets, books) {
      SentIsAccepted(sent, seed, markets, books, arrivals[i]);
    }
    var us;
    started, us := ReceiveAll(arrivals, feed, seed, markets, books);
    table := ApplyAll(us);
    if started && ProperRecords(Payload(sent)) {
      forall m, b | 0 <= m < table.markets && 0 <= b < table.books
        ensures AsInFile(table.slots[m, b], sent, m, b) <==> NewestDelivered(sent, Heard(arrivals), m, b)
      {
        SlotLiveEqualsFileIff(sent, Heard(arrivals), m, b);
      }
    }
    if arrivals == sent != [] {
      assert InPlace(sent[0], 0, seed, markets, books) && sent[0] in arrivals;
      assert Heard(arrivals) == sent;
    }
  }

  ghost predicate AllOfFeed(arrivals: seq<Packet>, seed: u64, markets: u32, books: u32) {
    forall i :: 0 <= i < |arrivals| ==> OfFeed(arrivals[i], seed, markets, books)
  }

  predicate AnyAnnounce(arrivals: seq<Packet>) { exists d :: d in arrivals && Classify(d) == IsAnnounce }

  lemma NoneAnnounced(arrivals: seq<Packet>, j: nat)
    requires QuietAt(Events(arrivals), 0, j) && NoAnnounces(Events(arrivals), 0, j)
    ensures !AnyAnnounce(arrivals)
  {
    var feed := Events(arrivals);
    QuietAtEnd(arrivals, 0, j);
    forall d | d in arrivals ensures Classify(d) != IsAnnounce {
      var i :| 0 <= i < |arrivals| && arrivals[i] == d;
      assert !Announces(feed[i]);
    }
  }

  lemma FirstPlace(arrivals: seq<Packet>, j: nat)
    requires 0 < j <= |arrivals| && Classify(arrivals[j - 1]) == IsAnnounce
    requires forall k :: 0 <= k < j - 1 ==> Classify(arrivals[k]) != IsAnnounce
    ensures BeforeAnnounce(arrivals) == j - 1 && AnyAnnounce(arrivals)
  {
    assert arrivals[j - 1] in arrivals;
  }

  lemma AnnounceOfFeed(e: Event, seed: u64, markets: u32, books: u32)
    requires Announces(e) && OfFeed(e.packet, seed, markets, books)
    ensures SameFeed(AnnounceOf(e), seed, markets, books)
    ensures GoodAnnounce(AnnounceOf(e)) <==> markets > 0 && books > 0
  {
  }

  lemma FirstAnnounced(arrivals: seq<Packet>, j: nat)
    requires 0 < j <= |arrivals| && NoAnnounces(Events(arrivals), 0, j - 1) && Announces(Events(arrivals)[j - 1])
    ensures BeforeAnnounce(arrivals) == j - 1 && AnyAnnounce(arrivals)
  {
    var feed := Events(arrivals);
    forall k | 0 <= k < j - 1 ensures Classify(arrivals[k]) != IsAnnounce {
      assert !Announces(feed[k]);
    }
    FirstPlace(arrivals, j);
  }

  lemma AllAgree(arrivals: seq<Packet>, seed: u64, markets: u32, books: u32, i: nat)
    requires AllOfFeed(arrivals, seed, markets, books) && i < |arrivals|
    ensures Agrees(Events(arrivals)[i], seed, markets, books)
  {
    assert OfFeed(arrivals[i], seed, markets, books);
  }

  /** Datagrams that all arrived are quiet only at the end. */
  lemma QuietAtEnd(arrivals: seq<Packet>, i: nat, j: nat)
    requires QuietAt(Events(arrivals), i, j)
    ensures j == |arrivals|
  {
    if i < j { assert Events(arrivals)[j - 1].Arrived?; }
  }

  /** Draining what came after the announce gives all records heard. */
  lemma DrainedIsHeard(arrivals: seq<Packet>, i: nat)
    requires BeforeAnnounce(arrivals) == i < |arrivals|
    ensures Records(Events(arrivals), i + 1, |arrivals|) == Payload(Heard(arrivals))
  {
    var heard := Heard(arrivals);
    RecordsArePayload(Events(arrivals), arrivals, i + 1, |arrivals|);
    AnnounceCarriesNothing(heard);
    assert heard[1..] == arrivals[i + 1..|arrivals|];
  }

  method ReceiveAll(arrivals: seq<Packet>, feed: seq<Event>, seed: u64, markets: u32, books: u32)
    returns (started: bool, us: seq<OddsUpdate>)
    requires feed == Events(arrivals) && AllOfFeed(arrivals, seed, markets, books)
    ensures started <==> markets > 0 && books > 0 && AnyAnnounce(arrivals)
    ensures us == if started then Payload(Heard(arrivals)) else []
  {
    us := [];
    var source := new Source(feed);
    var r := source.AwaitAnnounce();
    started := r == Started;
    if r == NoAnnounce {
      NoneAnnounced(arrivals, source.pos);
    } else {
      FirstAnnounced(arrivals, source.pos);
      AnnounceOfFeed(feed[source.pos - 1], seed, markets, books);
    }
    if started {
      us := DrainAll(source, arrivals, seed, markets, books);
    }
  }

  method DrainAll(source: Source, ghost arrivals: seq<Packet>, seed: u64, markets: u32, books: u32)
    returns (us: seq<OddsUpdate>)
    requires source.Valid() && source.Unread() == [] && source.feed == Events(arrivals)
    requires AllOfFeed(arrivals, seed, markets, books)
    requires source.seed == seed && source.markets == markets && source.books == books
    requires 0 < source.pos == BeforeAnnounce(arrivals) + 1 <= |arrivals|
    modifies source
    ensures us == Payload(Heard(arrivals))
  {
    ghost var from := source.pos;
    forall i | 0 <= i < |arrivals| ensures Agrees(source.feed[i], seed, markets, books) {
      AllAgree(arrivals, seed, markets, books, i);
    }
    var ended;
    us, ended := source.Drain();
    QuietAtEnd(arrivals, from, source.pos);
    DrainedIsHeard(arrivals, from - 1);
  }

  method ApplyAll(us: seq<OddsUpdate>) returns (table: Table)
    ensures table.Valid() && fresh(table) && table.history == Receipts(us) && table.markets == 1024 && table.books == 16
  {
    table := new Table(1024, 16);
    var i := 0;
    while i < |us|
      invariant 0 <= i <= |us| && table.Valid() && fresh(table) && fresh(table.slots)
      invariant table.history == Receipts(us[..i])
    {
      var applied := table.Apply(us[i], us[i].simTimestamp);
      assert us[..i + 1] == us[..i] + [us[i]];
      assert Receipts(us[..i + 1]) == Receipts(us[..i]) + [Receipt(us[i], us[i].simTimestamp)];
      i := i + 1;
    }
    assert us[..i] == us;
  }
}

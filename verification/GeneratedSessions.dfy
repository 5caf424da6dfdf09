/** Exactly which generated sessions pass the checker, and what the table and the live feed make of them. */
module GeneratedSessions {
  import opened Messages
  import opened Bookmaker
  import opened Generator
  import SimMain
  import opened SessionCheck
  import opened BookTable
  import opened UdpFraming
  import opened UdpSink
  import opened LiveFeed

  lemma QuotesRise(s: nat, t: nat, interval: Interval)
    requires s < t && s % interval == 0
    ensures QuotesBefore(s, interval) < QuotesBefore(t, interval)
    decreases t
  {
    QuotesStep(t - 1, interval);
    if s < t - 1 {
      QuotesRise(s, t - 1, interval);
    }
  }

  /** A later record of a book on the same market has a higher number. */
  lemma NumbersRise(w: World, p: Pos, q: Pos)
    requires w.Valid() && p.book == q.book < |w.roster| && p.market == q.market < w.markets
    requires p.tick < q.tick && w.Emits(p.tick, p.book)
    ensures SeqNo(w, p) < SeqNo(w, q)
  {
    var interval := w.roster[p.book].interval;
    QuotesRise(p.tick, q.tick, interval);
    Scale(QuotesBefore(p.tick, interval), QuotesBefore(q.tick, interval), w.markets);
  }

  lemma Scale(a: nat, b: nat, c: nat)
    requires a < b && 0 < c
    ensures a * c < b * c
  {
    assert b * c == a * c + (b - a) * c;
  }

  lemma GenuineIsGood(w: World, u: OddsUpdate, p: Pos)
    requires w.Valid() && Genuine(w, u, p)
    ensures GoodRecord(u, w.markets)
  {
    var cfg := w.roster[p.book].cfg;
    var q: Probs :| QuotedFrom(w.pow, cfg, w.belief(p, Lagged(w, p)), q, u.oddsMilli);
    forall i | 0 <= i < OUTCOMES ensures GoodOdds(u.oddsMilli[i], true) {
      LegalPrice(q[i]);
    }
  }

  ghost predicate AllStamped(w: World, us: seq<OddsUpdate>, ps: seq<Pos>)
  {
    |us| == |ps| && forall i :: 0 <= i < |us| ==> Stamped(w, us[i], ps[i])
  }

  lemma GenuineAreStamped(w: World, us: seq<OddsUpdate>, ps: seq<Pos>)
    requires AllGenuine(w, us, ps)
    ensures AllStamped(w, us, ps)
  {
  }

  lemma GenuineAreGood(w: World, us: seq<OddsUpdate>, ps: seq<Pos>)
    requires w.Valid() && AllGenuine(w, us, ps)
    ensures forall i :: 0 <= i < |us| ==> GoodRecord(us[i], w.markets)
  {
    forall i | 0 <= i < |us| ensures GoodRecord(us[i], w.markets) {
      GenuineIsGood(w, us[i], ps[i]);
    }
  }

  /** Every record's timestamp fits in 64 bits. */
  ghost predicate TimesFit(w: World, ticks: nat) {
    forall p :: p in TicksUpTo(w, ticks) ==> TimeFits(p.tick)
  }

  predicate TimeFits(t: nat) { t * TICK_INTERVAL_NS < TWO_64 }

  /** Every record's number fits in 64 bits, below the table's empty mark. */
  ghost predicate NumbersFit(w: World, ticks: nat) {
    forall p :: p in TicksUpTo(w, ticks) ==> NumberFits(w, p)
  }

  predicate NumberFits(w: World, p: Pos) {
    p.book < |w.roster| && SeqNo(w, p) < EMPTY_SEQ
  }

  /** Times run out long before numbers do. */
  lemma TimesBeforeNumbers(w: World, ticks: nat)
    requires w.Valid() && TimesFit(w, ticks)
    ensures NumbersFit(w, ticks)
  {
    forall p | p in TicksUpTo(w, ticks) ensures NumberFits(w, p) {
      TickPositions(w, ticks, p);
      NumberFitsIfTimeDoes(w, p);
    }
  }

  /** All of them fit as long as the last tick's time does. */
  lemma ShortRunsFit(w: World, ticks: nat)
    requires TimeFits(ticks)
    ensures TimesFit(w, ticks)
  {
    forall p | p in TicksUpTo(w, ticks) ensures TimeFits(p.tick) {
      TickPositions(w, ticks, p);
    }
  }

  lemma NumberFitsIfTimeDoes(w: World, p: Pos)
    requires w.Valid() && p.book < |w.roster| && p.market < w.markets && TimeFits(p.tick)
    ensures NumberFits(w, p)
  {
    QuotesStep(p.tick, w.roster[p.book].interval);
    ProductLe(QuotesBefore(p.tick, w.roster[p.book].interval), p.tick, w.markets, MAX_MARKETS);
  }

  lemma ProductLe(a: nat, b: nat, c: nat, d: nat)
    requires a <= b && c <= d
    ensures a * c <= b * d
  {
    assert b * d == a * c + (b - a) * d + a * (d - c);
  }

  lemma StampsRise(w: World, u: OddsUpdate, p: Pos, v: OddsUpdate, q: Pos)
    requires w.Valid() && Stamped(w, u, p) && Stamped(w, v, q) && Before(p, q)
    requires NumberFits(w, p) && NumberFits(w, q) && SameSlot(u, v)
    ensures u.seqNo < v.seqNo
  {
    assert p.book == q.book && p.market == q.market;
    NumbersRise(w, p, q);
    WholeNumber(SeqNo(w, p));
    WholeNumber(SeqNo(w, q));
  }

  lemma WholeNumber(n: nat)
    requires n < TWO_64
    ensures Wrapped(n) == n
  {
  }

  lemma TimesRise(t: nat, t': nat)
    requires t <= t' && TimeFits(t) && TimeFits(t')
    ensures Wrapped(t * TICK_INTERVAL_NS) <= Wrapped(t' * TICK_INTERVAL_NS)
  {
    WholeNumber(t * TICK_INTERVAL_NS);
    WholeNumber(t' * TICK_INTERVAL_NS);
  }

  /** For every roster, number of markets and number of ticks, the generated session satisfies everything the checker
      demands exactly when no record is made at a tick whose time no longer fits in 64 bits. */
  lemma GeneratedSessionIsGood(w: World, ticks: nat, us: seq<OddsUpdate>)
    requires w.Valid() && AllGenuine(w, us, TicksUpTo(w, ticks))
    ensures GoodRecords(us, w.markets) <==> TimesFit(w, ticks)
    ensures |us| < TWO_64 ==> (GoodSession(us, w.markets, |us|) <==> TimesFit(w, ticks))
  {
    if TimesFit(w, ticks) {
      InTimeIsGood(w, ticks, us);
    } else {
      var p :| p in TicksUpTo(w, ticks) && !TimeFits(p.tick);
      GenuineAreStamped(w, us, TicksUpTo(w, ticks));
      LateIsBad(w, ticks, us, p);
    }
  }

  lemma InTimeIsGood(w: World, ticks: nat, us: seq<OddsUpdate>)
    requires w.Valid() && AllGenuine(w, us, TicksUpTo(w, ticks)) && TimesFit(w, ticks)
    ensures GoodRecords(us, w.markets)
  {
    var ps := TicksUpTo(w, ticks);
    GenuineAreGood(w, us, ps);
    GenuineAreStamped(w, us, ps);
    TicksInOrder(w, ticks);
    TimesBeforeNumbers(w, ticks);
    forall j | 0 <= j < |us| ensures RisesTo(us[..j], us[j]) {
      StampedRiseTo(w, ticks, us, ps, j);
    }
  }

  lemma StampedRiseTo(w: World, ticks: nat, us: seq<OddsUpdate>, ps: seq<Pos>, j: nat)
    requires w.Valid() && ps == TicksUpTo(w, ticks) && AllStamped(w, us, ps) && InOrder(ps) && j < |us|
    requires TimesFit(w, ticks) && NumbersFit(w, ticks)
    ensures RisesTo(us[..j], us[j])
  {
    forall i | 0 <= i < j
      ensures us[i].simTimestamp <= us[j].simTimestamp && (SameSlot(us[i], us[j]) ==> us[i].seqNo < us[j].seqNo)
    {
      assert ps[i] in ps && ps[j] in ps && Before(ps[i], ps[j]);
      TimesRise(ps[i].tick, ps[j].tick);
      if SameSlot(us[i], us[j]) { StampsRise(w, us[i], ps[i], us[j], ps[j]); }
    }
  }

  /** The first quoting tick whose time does not fit: its time starts again below that of the one before. */
  lemma FirstLate(t: nat, interval: Interval) returns (c: nat)
    requires t % interval == 0 && !TimeFits(t)
    ensures interval <= c <= t && c % interval == 0 && (c - interval) % interval == 0
    ensures !TimeFits(c) && TimeFits(c - interval)
  {
    var k := t / interval;
    assert t == k * interval && k > 0;
    StepBack(k, interval);
    if TimeFits(t - interval) {
      c := t;
    } else {
      c := FirstLate(t - interval, interval);
    }
  }

  lemma StepBack(k: nat, interval: Interval)
    requires 0 < k
    ensures interval <= k * interval && (k * interval - interval) % interval == 0
  {
    assert k * interval - interval == (k - 1) * interval;
    QuotientIs((k - 1) * interval, k - 1, 0, interval);
  }

  /** The time of the first late quote starts again below the time of the one before. */
  lemma TimeStartsAgain(c: nat, interval: Interval)
    requires interval <= c && !TimeFits(c) && TimeFits(c - interval)
    ensures Wrapped(c * TICK_INTERVAL_NS) < Wrapped((c - interval) * TICK_INTERVAL_NS)
  {
    var early, late := (c - interval) * TICK_INTERVAL_NS, c * TICK_INTERVAL_NS;
    assert late == early + interval * TICK_INTERVAL_NS;
    WholeNumber(early);
    assert TWO_64 <= late < 2 * TWO_64;
    WrappedOnce(late);
  }

  lemma WrappedOnce(n: nat)
    requires TWO_64 <= n < 2 * TWO_64
    ensures Wrapped(n) == n - TWO_64
  {
  }

  /** One late record makes time run backwards somewhere. */
  lemma LateIsBad(w: World, ticks: nat, us: seq<OddsUpdate>, p: Pos)
    requires w.Valid() && AllStamped(w, us, TicksUpTo(w, ticks)) && p in TicksUpTo(w, ticks) && !TimeFits(p.tick)
    ensures !GoodRecords(us, w.markets)
  {
    var ps := TicksUpTo(w, ticks);
    TickPositions(w, ticks, p);
    var n := w.roster[p.book].interval;
    var c := FirstLate(p.tick, n);
    var i, j := PlacesOf(w, ticks, Pos(c - n, p.market, p.book), Pos(c, p.market, p.book));
    TimeStartsAgain(c, n);
    BackwardsIsBad(us, w.markets, i, j);
  }

  lemma PlacesOf(w: World, ticks: nat, p: Pos, q: Pos) returns (i: nat, j: nat)
    requires IsPosition(w, ticks, p) && IsPosition(w, ticks, q) && Before(p, q)
    ensures i < j < |TicksUpTo(w, ticks)| && TicksUpTo(w, ticks)[i] == p && TicksUpTo(w, ticks)[j] == q
  {
    var ps := TicksUpTo(w, ticks);
    TickPositions(w, ticks, p);
    TickPositions(w, ticks, q);
    TicksInOrder(w, ticks);
    i :| 0 <= i < |ps| && ps[i] == p;
    j :| 0 <= j < |ps| && ps[j] == q;
    assert p != q && !Before(q, p);
  }

  lemma BackwardsIsBad(us: seq<OddsUpdate>, markets: u32, i: nat, j: nat)
    requires i < j < |us| && us[j].simTimestamp < us[i].simTimestamp
    ensures !GoodRecords(us, markets)
  {
    assert us[..j][i] == us[i];
    assert !RisesTo(us[..j], us[j]);
  }

  lemma GenuineDetermined(w: World, u: OddsUpdate, u': OddsUpdate, p: Pos)
    requires w.Valid() && Genuine(w, u, p) && Genuine(w, u', p)
    ensures u == u'
  {
    var cfg, v := w.roster[p.book].cfg, w.belief(p, Lagged(w, p));
    var q: Probs :| QuotedFrom(w.pow, cfg, v, q, u.oddsMilli);
    var q': Probs :| QuotedFrom(w.pow, cfg, v, q', u'.oddsMilli);
    QuoteDetermined(w.pow, cfg, v, q, u.oddsMilli, q', u'.oddsMilli);
  }

  /** The specification is complete: any two sessions that meet it for the same world are the same, record by record. */
  lemma GenerationDetermined(w: World, ticks: nat, us: seq<OddsUpdate>, us': seq<OddsUpdate>)
    requires w.Valid() && AllGenuine(w, us, TicksUpTo(w, ticks)) && AllGenuine(w, us', TicksUpTo(w, ticks))
    ensures us == us'
  {
    var ps := TicksUpTo(w, ticks);
    forall i | 0 <= i < |ps| ensures us[i] == us'[i] {
      GenuineDetermined(w, us[i], us'[i], ps[i]);
    }
  }

  // ---- what that gives the table and the live feed ----

  /** Numbers rise within a slot, and none is the table's empty mark. */
  ghost predicate NumbersRising(us: seq<OddsUpdate>) {
    (forall i :: 0 <= i < |us| ==> us[i].seqNo < EMPTY_SEQ) &&
    forall i, j :: 0 <= i < j < |us| && SameSlot(us[i], us[j]) ==> us[i].seqNo < us[j].seqNo
  }

  lemma SessionNumbersRise(w: World, ticks: nat, us: seq<OddsUpdate>)
    requires w.Valid() && NumbersFit(w, ticks) && AllGenuine(w, us, TicksUpTo(w, ticks))
    ensures NumbersRising(us)
  {
    GenuineAreStamped(w, us, TicksUpTo(w, ticks));
    TicksInOrder(w, ticks);
    StampedNumbersRise(w, ticks, us, TicksUpTo(w, ticks));
  }

  lemma StampedNumbersRise(w: World, ticks: nat, us: seq<OddsUpdate>, ps: seq<Pos>)
    requires w.Valid() && NumbersFit(w, ticks) && ps == TicksUpTo(w, ticks) && AllStamped(w, us, ps) && InOrder(ps)
    ensures NumbersRising(us)
  {
    forall i | 0 <= i < |us| ensures us[i].seqNo < EMPTY_SEQ {
      assert ps[i] in ps && NumberFits(w, ps[i]);
      WholeNumber(SeqNo(w, ps[i]));
    }
    forall i, j | 0 <= i < j < |us| && SameSlot(us[i], us[j]) ensures us[i].seqNo < us[j].seqNo {
      assert ps[i] in ps && ps[j] in ps && Before(ps[i], ps[j]);
      StampsRise(w, us[i], ps[i], us[j], ps[j]);
    }
  }

  lemma RisingIsProper(us: seq<OddsUpdate>)
    requires NumbersRising(us)
    ensures ProperRecords(us)
  {
    var h := Receipts(us);
    forall r, r' | r in h && r' in h && SameSlotAndSeq(r, r') ensures r == r' {
      var i :| 0 <= i < |h| && h[i] == r;
      var j :| 0 <= j < |h| && h[j] == r';
      assert SameSlot(us[i], us[j]) && SameSlot(us[j], us[i]);
    }
  }

  /** Read in order, a generated session whose numbers fit never loses a record to the sequence gate. */
  lemma GeneratedNeverStale(w: World, ticks: nat, us: seq<OddsUpdate>, markets: nat, books: nat)
    requires w.Valid() && NumbersFit(w, ticks) && AllGenuine(w, us, TicksUpTo(w, ticks))
    ensures CountStale(Receipts(us), markets, books) == 0
  {
    SessionNumbersRise(w, ticks, us);
    var h := Receipts(us);
    forall i, j | 0 <= i < j < |h| && ForSlot(h[j], h[i].update.marketId, h[i].update.bookId)
      ensures h[i].update.seqNo < h[j].update.seqNo
    {
      assert SameSlot(us[i], us[j]);
    }
    InOrderNeverStale(h, markets, books);
  }

  /** A generated session sent through the sink: whatever the network does to the order and however often it repeats
      datagrams, once all have arrived the live table holds the quotes file mode ends with. */
  lemma GeneratedLiveEqualsFile(w: World, ticks: nat, sent: seq<Packet>, got: seq<Packet>, market: nat, book: nat)
    requires w.Valid() && NumbersFit(w, ticks) && AllGenuine(w, Payload(sent), TicksUpTo(w, ticks))
    requires forall d :: d in got ==> d in sent
    requires forall d :: d in sent && Classify(d) == IsData ==> d in got
    ensures SlotAfter(Receipts(Payload(got)), market, book) == SlotAfter(Receipts(Payload(sent)), market, book)
  {
    SessionNumbersRise(w, ticks, Payload(sent));
    RisingIsProper(Payload(sent));
    LiveEqualsFile(sent, got, market, book);
  }

  /** The simulator with a live target: generate, and hand every record to the sink. */
  method Broadcast(w: World, ticks: u64, seed: u64) returns (us: seq<OddsUpdate>, ghost sent: seq<Packet>)
    requires w.Valid() && |w.roster| <= 0xFFFF
    ensures AllGenuine(w, us, TicksUpTo(w, ticks))
    ensures WellSent(sent, seed, w.markets, |w.roster|) && sent != [] && Payload(sent) == us
  {
    us := SimMain.Generate(w, ticks);
    sent := SendAll(us, seed, w.markets, |w.roster|);
  }

  lemma OneMore(us: seq<OddsUpdate>, i: nat)
    requires i < |us|
    ensures us[..i + 1] == us[..i] + [us[i]]
  {
  }

  method SendAll(us: seq<OddsUpdate>, seed: u64, markets: u32, books: u32) returns (ghost sent: seq<Packet>)
    ensures WellSent(sent, seed, markets, books) && sent != [] && Payload(sent) == us
  {
    var sink := new Sink(seed, markets, books);
    var i := 0;
    while i < |us|
      invariant 0 <= i <= |us| && sink.Valid() && fresh(sink) && fresh(sink.buffer) && sink.sent != []
      invariant sink.accepted == us[..i] && sink.seed == seed && sink.markets == markets && sink.books == books
    {
      sink.Accept(us[i]);
      OneMore(us, i);
      i := i + 1;
    }
    assert us[..i] == us;
    sink.Finish();
    sent := sink.sent;
  }
}

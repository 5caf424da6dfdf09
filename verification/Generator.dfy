/** The simulator's main loop: which records it emits, in which order, with which numbers. */
module Generator {
  import opened Messages
  import opened Bookmaker

  const MAX_MARKETS: nat := 65535

  /** A book quotes at every tick its interval divides, a positive 32-bit number. */
  type Interval = n: nat | 0 < n < 0x8000_0000 witness 1

  datatype RosterEntry = RosterEntry(cfg: BookConfig, interval: Interval)

  /** One quote of one book on one market at one tick. */
  datatype Pos = Pos(tick: nat, market: nat, book: nat)

  /** What a run is given: the roster, the number of markets, and the random parts as functions: the path of each
      market, and what each book makes of an observation. */
  datatype World = World(roster: seq<RosterEntry>, markets: nat, latent: (nat, nat) -> seq<real>,
                         belief: (Pos, seq<real>) -> Probs, pow: (real, real) -> real)
  {
    ghost predicate Valid() {
      0 < markets <= MAX_MARKETS && IsPower(pow) && (forall p, v :: IsBelief(belief(p, v))) &&
      forall b, b' :: 0 <= b < b' < |roster| ==> roster[b].cfg.bookId != roster[b'].cfg.bookId
    }

    predicate Emits(tick: nat, b: nat)
      requires b < |roster|
    {
      tick % roster[b].interval == 0
    }
  }

  /** At how many ticks before t a book with this interval quotes. */
  function QuotesBefore(t: nat, interval: Interval): nat
  {
    (t + interval - 1) / interval
  }

  lemma QuotesStep(t: nat, interval: Interval)
    ensures QuotesBefore(t + 1, interval) == QuotesBefore(t, interval) + if t % interval == 0 then 1 else 0
    ensures QuotesBefore(t, interval) <= t
  {
    var k, r := t / interval, t % interval;
    assert t == k * interval + r;
    QuotientIs(t + interval, k + 1, r, interval);
    if r == 0 {
      QuotientIs(t + interval - 1, k, interval - 1, interval);
    } else {
      QuotientIs(t + interval - 1, k + 1, r - 1, interval);
    }
    QuotesAtMost(k, r, t, interval);
  }

  lemma QuotesAtMost(k: nat, r: nat, t: nat, interval: nat)
    requires 0 < interval && t == k * interval + r && r < interval
    ensures k + (if r == 0 then 0 else 1) <= t
  {
    assert k <= k * interval;
  }

  lemma QuotientIs(n: nat, k: nat, r: nat, d: nat)
    requires 0 < d && n == k * d + r && r < d
    ensures n / d == k && n % d == r
  {
    var q, x := n / d, n % d;
    assert n == q * d + x;
    var e := q - k;
    assert e * d == r - x;
    if e > 0 { AtLeastOne(e, d); }
  }

  lemma AtLeastOne(e: nat, d: nat)
    requires 0 < e
    ensures d <= e * d
  {
  }

  /** The number a record carries: a book counts its own records over all markets. */
  function SeqNo(w: World, p: Pos): nat
    requires p.book < |w.roster|
  {
    QuotesBefore(p.tick, w.roster[p.book].interval) * w.markets + p.market
  }

  /** What 64 bits keep of a number. */
  function Wrapped(n: nat): u64 { n % TWO_64 }

  /** What a book knows of a market when it quotes. */
  function Lagged(w: World, p: Pos): seq<real>
    requires p.book < |w.roster|
  {
    w.latent(p.tick - Back(w.roster[p.book].cfg.lagTicks, p.tick + 1) % MAX_LAG, p.market)
  }

  ghost predicate Priced(w: World, odds: OddsArray, p: Pos)
    requires p.book < |w.roster|
  {
    exists q: Probs :: QuotedFrom(w.pow, w.roster[p.book].cfg, w.belief(p, Lagged(w, p)), q, odds)
  }

  /** u is made at p, by its book, for its market, with its time and number. */
  predicate Stamped(w: World, u: OddsUpdate, p: Pos)
  {
    p.book < |w.roster| && p.market < w.markets && w.Emits(p.tick, p.book) &&
    u.seqNo == Wrapped(SeqNo(w, p)) && u.simTimestamp == Wrapped(p.tick * TICK_INTERVAL_NS) &&
    u.bookId == w.roster[p.book].cfg.bookId && u.marketId == p.market && u.outcomeCount == OUTCOMES
  }

  /** u is the record of the quote at p. */
  ghost predicate Genuine(w: World, u: OddsUpdate, p: Pos)
  {
    Stamped(w, u, p) && Priced(w, u.oddsMilli, p)
  }

  ghost predicate AllGenuine(w: World, us: seq<OddsUpdate>, ps: seq<Pos>)
  {
    |us| == |ps| && forall i :: 0 <= i < |us| ==> Genuine(w, us[i], ps[i])
  }

  // ---- the order of a session ----

  /** Tick by tick, market by market, book by book; a book is there when its interval divides the tick. */
  function BooksUpTo(w: World, t: nat, m: nat, b: nat): seq<Pos>
    requires b <= |w.roster|
  {
    if b == 0 then []
    else BooksUpTo(w, t, m, b - 1) + if w.Emits(t, b - 1) then [Pos(t, m, b - 1)] else []
  }

  function MarketsUpTo(w: World, t: nat, m: nat): seq<Pos>
  {
    if m == 0 then [] else MarketsUpTo(w, t, m - 1) + BooksUpTo(w, t, m - 1, |w.roster|)
  }

  function TicksUpTo(w: World, t: nat): seq<Pos>
  {
    if t == 0 then [] else TicksUpTo(w, t - 1) + MarketsUpTo(w, t - 1, w.markets)
  }

  predicate Before(p: Pos, q: Pos) {
    p.tick < q.tick ||
    (p.tick == q.tick && (p.market < q.market || (p.market == q.market && p.book < q.book)))
  }

  ghost predicate InOrder(ps: seq<Pos>) {
    forall i, j :: 0 <= i < j < |ps| ==> Before(ps[i], ps[j])
  }

  ghost predicate AllBefore(ps: seq<Pos>, p: Pos) {
    forall i :: 0 <= i < |ps| ==> Before(ps[i], p)
  }

  /** Nothing of the parts so far is at or after where the next part begins. */
  lemma {:induction false} BooksInOrder(w: World, t: nat, m: nat, b: nat)
    requires b <= |w.roster|
    ensures InOrder(BooksUpTo(w, t, m, b)) && AllBefore(BooksUpTo(w, t, m, b), Pos(t, m, b))
    ensures forall p :: p in BooksUpTo(w, t, m, b) ==> p.tick == t && p.market == m
  {
    if b > 0 {
      BooksInOrder(w, t, m, b - 1);
    }
  }

  lemma {:induction false} MarketsInOrder(w: World, t: nat, m: nat)
    ensures InOrder(MarketsUpTo(w, t, m)) && AllBefore(MarketsUpTo(w, t, m), Pos(t, m, 0))
    ensures forall p :: p in MarketsUpTo(w, t, m) ==> p.tick == t
  {
    if m > 0 {
      var a, b := MarketsUpTo(w, t, m - 1), BooksUpTo(w, t, m - 1, |w.roster|);
      MarketsInOrder(w, t, m - 1);
      BooksInOrder(w, t, m - 1, |w.roster|);
      Joined(a, b, Pos(t, m - 1, 0), Pos(t, m, 0));
    }
  }

  /** A session's records stand in strict order of tick, market and book. */
  lemma {:induction false} TicksInOrder(w: World, t: nat)
    ensures InOrder(TicksUpTo(w, t)) && AllBefore(TicksUpTo(w, t), Pos(t, 0, 0))
  {
    if t > 0 {
      var a, b := TicksUpTo(w, t - 1), MarketsUpTo(w, t - 1, w.markets);
      TicksInOrder(w, t - 1);
      MarketsInOrder(w, t - 1, w.markets);
      Joined(a, b, Pos(t - 1, 0, 0), Pos(t, 0, 0));
    }
  }

  lemma Joined(a: seq<Pos>, b: seq<Pos>, middle: Pos, end: Pos)
    requires InOrder(a) && InOrder(b) && AllBefore(a, middle) && AllBefore(b, end) && Before(middle, end)
    requires forall i :: 0 <= i < |b| ==> middle == b[i] || Before(middle, b[i])
    ensures InOrder(a + b) && AllBefore(a + b, end)
  {
  }

  // ---- which positions there are ----

  ghost predicate IsPosition(w: World, ticks: nat, p: Pos) {
    p.tick < ticks && p.market < w.markets && p.book < |w.roster| && w.Emits(p.tick, p.book)
  }

  lemma InEither(a: seq<Pos>, b: seq<Pos>, p: Pos)
    ensures p in a + b <==> p in a || p in b
  {
  }

  lemma {:induction false} BookPositions(w: World, t: nat, m: nat, b: nat, p: Pos)
    requires b <= |w.roster|
    ensures p in BooksUpTo(w, t, m, b) <==> p.tick == t && p.market == m && p.book < b && w.Emits(t, p.book)
  {
    if b > 0 {
      BookPositions(w, t, m, b - 1, p);
    }
  }

  lemma {:induction false} MarketPositions(w: World, t: nat, m: nat, p: Pos)
    ensures p in MarketsUpTo(w, t, m) <==> p.tick == t && p.market < m && p.book < |w.roster| && w.Emits(p.tick, p.book)
  {
    if m > 0 {
      var before, last := MarketsUpTo(w, t, m - 1), BooksUpTo(w, t, m - 1, |w.roster|);
      MarketPositions(w, t, m - 1, p);
      BookPositions(w, t, m - 1, |w.roster|, p);
      assert MarketsUpTo(w, t, m) == before + last;
      InEither(before, last, p);
    }
  }

  lemma PositionsOneMore(w: World, t: nat, p: Pos, before: seq<Pos>, last: seq<Pos>)
    requires p in before <==> IsPosition(w, t, p)
    requires p in last <==> p.tick == t && p.market < w.markets && p.book < |w.roster| && w.Emits(p.tick, p.book)
    ensures p in before + last <==> IsPosition(w, t + 1, p)
  {
  }

  /** A session has a record at exactly the ticks, markets and books it should. */
  lemma {:induction false} TickPositions(w: World, ticks: nat, p: Pos)
    ensures p in TicksUpTo(w, ticks) <==> IsPosition(w, ticks, p)
  {
    if ticks > 0 {
      var t := ticks - 1;
      TickPositions(w, t, p);
      MarketPositions(w, t, w.markets, p);
      PositionsOneMore(w, t, p, TicksUpTo(w, t), MarketsUpTo(w, t, w.markets));
      assert TicksUpTo(w, ticks) == TicksUpTo(w, t) + MarketsUpTo(w, t, w.markets);
    }
  }

  // ---- the numbers count each book's records ----

  /** How many of these positions are of book b. */
  function CountOf(ps: seq<Pos>, b: nat): nat {
    if ps == [] then 0 else CountOf(ps[..|ps| - 1], b) + if ps[|ps| - 1].book == b then 1 else 0
  }

  lemma {:induction false} CountOfJoined(a: seq<Pos>, c: seq<Pos>, b: nat)
    ensures CountOf(a + c, b) == CountOf(a, b) + CountOf(c, b)
  {
    if c == [] {
      assert a + c == a;
    } else {
      CountOfJoined(a, c[..|c| - 1], b);
      assert (a + c)[..|a + c| - 1] == a + c[..|c| - 1];
    }
  }

  /** Every position has as many earlier ones of its own book as `number` says. */
  ghost predicate Numbered(ps: seq<Pos>, number: Pos -> int) {
    forall i :: 0 <= i < |ps| ==> NumberedAt(ps, number, i)
  }

  ghost predicate NumberedAt(ps: seq<Pos>, number: Pos -> int, i: nat)
    requires i < |ps|
  {
    CountOf(ps[..i], ps[i].book) == number(ps[i])
  }

  /** By the number of the record, before it is cut to 64 bits. */
  function ByRecord(w: World): Pos -> int { (p: Pos) => if p.book < |w.roster| then SeqNo(w, p) else 0 }

  /** Within a tick, by market. */
  function ByMarket(): Pos -> int { (p: Pos) => p.market }

  /** Within a market, no book is there twice. */
  function None(): Pos -> int { (p: Pos) => 0 }

  /** Numbers go on where they stopped. */
  lemma NumbersGoOn(a: seq<Pos>, c: seq<Pos>, number: Pos -> int, more: Pos -> int)
    requires Numbered(a, number) && Numbered(c, more)
    requires forall i :: 0 <= i < |c| ==> number(c[i]) == CountOf(a, c[i].book) + more(c[i])
    ensures Numbered(a + c, number)
  {
    forall i | 0 <= i < |a + c| ensures NumberedAt(a + c, number, i) {
      if i < |a| {
        assert NumberedAt(a, number, i) && (a + c)[..i] == a[..i];
      } else {
        var j := i - |a|;
        assert NumberedAt(c, more, j) && (a + c)[..i] == a + c[..j];
        CountOfJoined(a, c[..j], c[j].book);
      }
    }
  }

  lemma {:induction false} OneOfEachBook(w: World, t: nat, m: nat, b: nat, c: nat)
    requires b <= |w.roster|
    ensures CountOf(BooksUpTo(w, t, m, b), c) == if c < b && w.Emits(t, c) then 1 else 0
  {
    if b > 0 {
      OneOfEachBook(w, t, m, b - 1, c);
      var last := if w.Emits(t, b - 1) then [Pos(t, m, b - 1)] else [];
      CountOfJoined(BooksUpTo(w, t, m, b - 1), last, c);
      assert CountOf(last, c) == if c == b - 1 && w.Emits(t, c) then 1 else 0 by {
        if last != [] { assert last[..0] == []; }
      }
    }
  }

  lemma {:induction false} BooksNumbered(w: World, t: nat, m: nat, b: nat)
    requires b <= |w.roster|
    ensures Numbered(BooksUpTo(w, t, m, b), None())
  {
    if b > 0 {
      var last := if w.Emits(t, b - 1) then [Pos(t, m, b - 1)] else [];
      BooksNumbered(w, t, m, b - 1);
      OneOfEachBook(w, t, m, b - 1, b - 1);
      assert Numbered(last, None()) by {
        if last != [] { assert last[..0] == []; }
      }
      NumbersGoOn(BooksUpTo(w, t, m, b - 1), last, None(), None());
    }
  }

  lemma {:induction false} OneForEachMarket(w: World, t: nat, m: nat, c: nat)
    ensures CountOf(MarketsUpTo(w, t, m), c) == if c < |w.roster| && w.Emits(t, c) then m else 0
  {
    if m > 0 {
      OneForEachMarket(w, t, m - 1, c);
      OneOfEachBook(w, t, m - 1, |w.roster|, c);
      CountOfJoined(MarketsUpTo(w, t, m - 1), BooksUpTo(w, t, m - 1, |w.roster|), c);
    }
  }

  lemma {:induction false} MarketsNumbered(w: World, t: nat, m: nat)
    ensures Numbered(MarketsUpTo(w, t, m), ByMarket())
  {
    if m > 0 {
      var before, last := MarketsUpTo(w, t, m - 1), BooksUpTo(w, t, m - 1, |w.roster|);
      MarketsNumbered(w, t, m - 1);
      BooksNumbered(w, t, m - 1, |w.roster|);
      forall i | 0 <= i < |last| ensures last[i].market == CountOf(before, last[i].book) {
        MarketNumber(w, t, m - 1, last[i]);
      }
      NumbersGoOn(before, last, ByMarket(), None());
    }
  }

  lemma MarketNumber(w: World, t: nat, m: nat, p: Pos)
    requires p in BooksUpTo(w, t, m, |w.roster|)
    ensures p.market == m == CountOf(MarketsUpTo(w, t, m), p.book)
  {
    BookPositions(w, t, m, |w.roster|, p);
    OneForEachMarket(w, t, m, p.book);
  }

  lemma {:induction false} CountOfTicks(w: World, t: nat, c: nat)
    requires c < |w.roster|
    ensures CountOf(TicksUpTo(w, t), c) == QuotesBefore(t, w.roster[c].interval) * w.markets
  {
    var interval := w.roster[c].interval;
    if t == 0 {
      NoQuotesYet(interval);
    } else {
      CountOfTicks(w, t - 1, c);
      CountOfTick(w, t - 1, c);
      QuotesOfTick(w, t - 1, c);
    }
  }

  lemma CountOfTick(w: World, t: nat, c: nat)
    requires c < |w.roster|
    ensures CountOf(TicksUpTo(w, t + 1), c) == CountOf(TicksUpTo(w, t), c) + if w.Emits(t, c) then w.markets else 0
  {
    OneForEachMarket(w, t, w.markets, c);
    CountOfJoined(TicksUpTo(w, t), MarketsUpTo(w, t, w.markets), c);
  }

  lemma QuotesOfTick(w: World, t: nat, c: nat)
    requires c < |w.roster|
    ensures QuotesBefore(t + 1, w.roster[c].interval) * w.markets ==
      QuotesBefore(t, w.roster[c].interval) * w.markets + if w.Emits(t, c) then w.markets else 0
  {
    var interval := w.roster[c].interval;
    QuotesStep(t, interval);
    TimesMarkets(QuotesBefore(t, interval), QuotesBefore(t + 1, interval), w.markets, w.Emits(t, c));
  }

  lemma NoQuotesYet(interval: Interval)
    ensures QuotesBefore(0, interval) == 0
  {
    QuotientIs(interval - 1, 0, interval - 1, interval);
  }

  lemma TimesMarkets(k: nat, k': nat, markets: nat, more: bool)
    requires k' == k + if more then 1 else 0
    ensures k' * markets == k * markets + if more then markets else 0
  {
  }

  /** Before it is cut to 64 bits, the number of a record is how many records its book has made before it, on whatever
      markets: every book numbers its own records 0, 1, 2, ... in the order of the session. */
  lemma {:induction false} TicksNumbered(w: World, t: nat)
    ensures Numbered(TicksUpTo(w, t), ByRecord(w))
  {
    if t > 0 {
      var before, last := TicksUpTo(w, t - 1), MarketsUpTo(w, t - 1, w.markets);
      TicksNumbered(w, t - 1);
      MarketsNumbered(w, t - 1, w.markets);
      forall i | 0 <= i < |last|
        ensures last[i].book < |w.roster| && SeqNo(w, last[i]) == CountOf(before, last[i].book) + last[i].market
      {
        MarketPositions(w, t - 1, w.markets, last[i]);
        CountOfTicks(w, t - 1, last[i].book);
      }
      NumbersGoOn(before, last, ByRecord(w), ByMarket());
    }
  }

  /** A record in full: its number and its time in 64 bits, the book and the market it is of, three prices and no
      fourth. */
  lemma RecordInFull(w: World, us: seq<OddsUpdate>, ticks: nat, i: nat)
    requires AllGenuine(w, us, TicksUpTo(w, ticks)) && i < |us|
    ensures var p, u := TicksUpTo(w, ticks)[i], us[i];
      p.book < |w.roster| && u.seqNo == CountOf(TicksUpTo(w, ticks)[..i], p.book) % 0x1_0000_0000_0000_0000 &&
      u.simTimestamp == p.tick * 100_000_000 % 0x1_0000_0000_0000_0000 && u.bookId == w.roster[p.book].cfg.bookId &&
      u.marketId == p.market && u.outcomeCount == 3 && u.oddsMilli[3] == 0
  {
    var ps := TicksUpTo(w, ticks);
    TicksNumbered(w, ticks);
    assert Genuine(w, us[i], ps[i]);
    assert NumberedAt(ps, ByRecord(w), i);
  }
}

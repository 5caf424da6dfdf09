/** The simulator's generation loop over its own state: one ring buffer per book and market, one counter per book. */
module SimMain {
  import opened Messages
  import opened Bookmaker
  import opened Generator

  /** What a book has seen of a market before tick t. */
  function Path(w: World, m: nat, t: nat): (h: seq<seq<real>>)
    ensures |h| == t && forall k :: 0 <= k < t ==> h[k] == w.latent(k, m)
  {
    seq(t, k requires 0 <= k < t => w.latent(k, m))
  }

  /** The number book b is to use next, before market m of tick t. */
  function Due(w: World, t: nat, m: nat, b: nat): u64
    requires b < |w.roster|
  {
    Wrapped(QuotesBefore(t, w.roster[b].interval) * w.markets + if w.Emits(t, b) then m else 0)
  }

  /** A record made moves the number on; with no record it stays. */
  lemma DueNextMarket(w: World, t: nat, m: nat, b: nat)
    requires b < |w.roster|
    ensures Due(w, t, m + 1, b) == if w.Emits(t, b) then (Due(w, t, m, b) + 1) % TWO_64 else Due(w, t, m, b)
  {
    WrappedNext(QuotesBefore(t, w.roster[b].interval) * w.markets + m);
  }

  lemma WrappedNext(n: nat)
    ensures (Wrapped(n) + 1) % TWO_64 == Wrapped(n + 1)
  {
  }

  /** After all markets of a tick the counters are where the next tick needs them. */
  lemma DueNextTick(w: World, t: nat, b: nat)
    requires w.Valid() && b < |w.roster|
    ensures Due(w, t, w.markets, b) == Due(w, t + 1, 0, b)
  {
    QuotesStep(t, w.roster[b].interval);
    var k := QuotesBefore(t, w.roster[b].interval);
    assert (k + 1) * w.markets == k * w.markets + w.markets;
  }

  ghost predicate Distinct(books: seq<Book>) {
    forall i, j :: 0 <= i < j < |books| ==> books[i] != books[j] && books[i].history != books[j].history
  }

  ghost function Objects(books: seq<Book>): (s: set<object>)
    ensures forall c :: c in books ==> c in s && c.history in s
  {
    (set c | c in books :: c as object) + (set c | c in books :: c.history as object)
  }

  lemma OneMoreBook(books: seq<Book>, c: Book)
    ensures Objects(books + [c]) == Objects(books) + {c, c.history}
  {
    forall d ensures d in books + [c] <==> d in books || d == c {}
    assert c in books + [c];
  }

  /** Book b of market m has seen everything before tick t. */
  ghost predicate Watching(w: World, c: Book, m: nat, b: nat, t: nat)
    requires b < |w.roster|
    reads c, c.history
  {
    c.Valid() && c.cfg == w.roster[b].cfg && c.seen == Path(w, m, t)
  }

  /** What a book makes of its turn: one record exactly when it is to quote. */
  ghost predicate MadeAt(w: World, out: seq<OddsUpdate>, p: Pos)
    requires p.book < |w.roster|
  {
    if w.Emits(p.tick, p.book) then |out| == 1 && Genuine(w, out[0], p) else out == []
  }

  /** One book at one tick: it observes, and quotes if its interval divides the tick. */
  method StepBook(w: World, c: Book, p: Pos, seqNo: u64) returns (out: seq<OddsUpdate>)
    requires w.Valid() && p.tick + 1 < TWO_64 && p.market < w.markets && p.book < |w.roster|
    requires Watching(w, c, p.market, p.book, p.tick)
    requires seqNo == Due(w, p.tick, p.market, p.book)
    modifies c, c.history
    ensures Watching(w, c, p.market, p.book, p.tick + 1)
    ensures MadeAt(w, out, p)
  {
    c.Observe(w.latent(p.tick, p.market));
    assert c.seen == Path(w, p.market, p.tick + 1);
    if p.tick % w.roster[p.book].interval != 0 { return []; }
    var odds := QuoteNow(w, c, p);
    out := [OddsUpdate(seqNo, (p.tick * TICK_INTERVAL_NS) % TWO_64, c.cfg.bookId, p.market, OUTCOMES, odds)];
    IsGenuine(w, out[0], p);
  }

  method QuoteNow(w: World, c: Book, p: Pos) returns (odds: OddsArray)
    requires w.Valid() && p.book < |w.roster| && Watching(w, c, p.market, p.book, p.tick + 1)
    ensures Priced(w, odds, p)
  {
    odds := c.Quote(w.pow, v => w.belief(p, v));
    assert c.Viewed() == Lagged(w, p);
  }

  lemma IsGenuine(w: World, u: OddsUpdate, p: Pos)
    requires w.Valid() && p.market < w.markets && p.book < |w.roster| && w.Emits(p.tick, p.book)
    requires u.seqNo == Due(w, p.tick, p.market, p.book) && u.simTimestamp == Wrapped(p.tick * TICK_INTERVAL_NS)
    requires u.bookId == w.roster[p.book].cfg.bookId && u.marketId == p.market && u.outcomeCount == OUTCOMES
    requires Priced(w, u.oddsMilli, p)
    ensures Genuine(w, u, p)
  {
  }

  /** The counter moves on exactly when a record was made. */
  method StepAndCount(w: World, c: Book, p: Pos, seqNo: array<u64>) returns (out: seq<OddsUpdate>)
    requires w.Valid() && p.tick + 1 < TWO_64 && p.market < w.markets && p.book < |w.roster| == seqNo.Length
    requires Watching(w, c, p.market, p.book, p.tick) && seqNo[p.book] == Due(w, p.tick, p.market, p.book)
    modifies c, c.history, seqNo
    ensures Watching(w, c, p.market, p.book, p.tick + 1) && seqNo[p.book] == Due(w, p.tick, p.market + 1, p.book)
    ensures forall i :: 0 <= i < seqNo.Length && i != p.book ==> seqNo[i] == old(seqNo[i])
    ensures MadeAt(w, out, p)
  {
    out := StepBook(w, c, p, seqNo[p.book]);
    DueNextMarket(w, p.tick, p.market, p.book);
    if out != [] {
      seqNo[p.book] := (seqNo[p.book] + 1) % TWO_64;
    }
  }

  ghost predicate MarketWatching(w: World, books: seq<Book>, m: nat, t: nat)
    reads Objects(books)
  {
    |books| == |w.roster| && Distinct(books) &&
    forall b :: 0 <= b < |books| ==> (books[b] in books && Watching(w, books[b], m, b, t))
  }

  ghost predicate CountersDue(w: World, t: nat, m: nat, seqNo: array<u64>)
    reads seqNo
  {
    seqNo.Length == |w.roster| && forall b :: 0 <= b < |w.roster| ==> seqNo[b] == Due(w, t, m, b)
  }

  /** The first b books of market m have had their turn at tick t, and the others have not. */
  ghost predicate BooksSoFar(w: World, books: seq<Book>, t: nat, m: nat, b: nat, seqNo: array<u64>)
    reads seqNo, Objects(books)
  {
    |books| == |w.roster| == seqNo.Length && Distinct(books) &&
    forall i :: 0 <= i < |books| ==> books[i] in books && BookAt(w, books[i], t, m, b, i, seqNo)
  }

  ghost predicate BookAt(w: World, c: Book, t: nat, m: nat, b: nat, i: nat, seqNo: array<u64>)
    requires i < |w.roster| == seqNo.Length
    reads seqNo, c, c.history
  {
    Watching(w, c, m, i, if i < b then t + 1 else t) && seqNo[i] == Due(w, t, if i < b then m + 1 else m, i)
  }

  lemma BeforeTurns(w: World, books: seq<Book>, t: nat, m: nat, seqNo: array<u64>)
    requires MarketWatching(w, books, m, t) && CountersDue(w, t, m, seqNo)
    ensures BooksSoFar(w, books, t, m, 0, seqNo)
  {
    forall b | 0 <= b < |books| ensures books[b] in books && BookAt(w, books[b], t, m, 0, b, seqNo) {
      assert books[b] in books && Watching(w, books[b], m, b, t) && seqNo[b] == Due(w, t, m, b);
    }
  }

  lemma AfterTurns(w: World, books: seq<Book>, t: nat, m: nat, seqNo: array<u64>)
    requires BooksSoFar(w, books, t, m, |books|, seqNo)
    ensures MarketWatching(w, books, m, t + 1) && CountersDue(w, t, m + 1, seqNo)
  {
    forall b | 0 <= b < |books|
      ensures books[b] in books && Watching(w, books[b], m, b, t + 1) && seqNo[b] == Due(w, t, m + 1, b)
    {
      assert BookAt(w, books[b], t, m, |books|, b, seqNo);
    }
  }

  /** What the first b books of market m make of tick t. */
  ghost predicate MadeByBooks(w: World, out: seq<OddsUpdate>, t: nat, m: nat, b: nat)
    requires b <= |w.roster|
  {
    AllGenuine(w, out, BooksUpTo(w, t, m, b))
  }

  lemma OneMoreMade(w: World, out: seq<OddsUpdate>, u: seq<OddsUpdate>, t: nat, m: nat, b: nat)
    requires b < |w.roster| && MadeByBooks(w, out, t, m, b) && MadeAt(w, u, Pos(t, m, b))
    ensures MadeByBooks(w, out + u, t, m, b + 1)
  {
  }

  /** The turn of book b. */
  method StepNextBook(w: World, books: seq<Book>, t: nat, m: nat, b: nat, seqNo: array<u64>)
    returns (u: seq<OddsUpdate>)
    requires w.Valid() && t + 1 < TWO_64 && m < w.markets && b < |books| == |w.roster|
    requires BooksSoFar(w, books, t, m, b, seqNo)
    modifies seqNo, Objects(books)
    ensures BooksSoFar(w, books, t, m, b + 1, seqNo) && MadeAt(w, u, Pos(t, m, b))
  {
    assert books[b] in books && BookAt(w, books[b], t, m, b, b, seqNo);
    u := StepAndCount(w, books[b], Pos(t, m, b), seqNo);
    forall i | 0 <= i < |books| && i != b ensures BookAt(w, books[i], t, m, b + 1, i, seqNo) {
      assert old(BookAt(w, books[i], t, m, b, i, seqNo));
    }
  }

  method StepBooks(w: World, books: seq<Book>, t: nat, m: nat, seqNo: array<u64>) returns (out: seq<OddsUpdate>)
    requires w.Valid() && t + 1 < TWO_64 && m < w.markets && BooksSoFar(w, books, t, m, 0, seqNo)
    modifies seqNo, Objects(books)
    ensures BooksSoFar(w, books, t, m, |books|, seqNo)
    ensures MadeByBooks(w, out, t, m, |w.roster|)
  {
    out := [];
    var b := 0;
    while b < |books|
      invariant 0 <= b <= |books| && BooksSoFar(w, books, t, m, b, seqNo)
      invariant MadeByBooks(w, out, t, m, b)
    {
      var u := StepNextBook(w, books, t, m, b, seqNo);
      OneMoreMade(w, out, u, t, m, b);
      out := out + u;
      b := b + 1;
    }
  }

  /** All books of one market at one tick. */
  method StepMarket(w: World, books: seq<Book>, t: nat, m: nat, seqNo: array<u64>) returns (out: seq<OddsUpdate>)
    requires w.Valid() && t + 1 < TWO_64 && m < w.markets && MarketWatching(w, books, m, t)
    requires CountersDue(w, t, m, seqNo)
    modifies seqNo, Objects(books)
    ensures MarketWatching(w, books, m, t + 1) && CountersDue(w, t, m + 1, seqNo)
    ensures MadeByBooks(w, out, t, m, |w.roster|)
  {
    BeforeTurns(w, books, t, m, seqNo);
    out := StepBooks(w, books, t, m, seqNo);
    AfterTurns(w, books, t, m, seqNo);
  }

  ghost predicate Separate(sims: seq<seq<Book>>) {
    forall i, j :: 0 <= i < j < |sims| ==> Objects(sims[i]) !! Objects(sims[j])
  }

  ghost predicate Within(sims: seq<seq<Book>>, footprint: set<object>) {
    forall i :: 0 <= i < |sims| ==> Objects(sims[i]) <= footprint
  }

  /** The first m markets have had their turn at tick t, and the others have not. */
  ghost predicate MarketsSoFar(w: World, sims: seq<seq<Book>>, t: nat, m: nat, seqNo: array<u64>,
                               footprint: set<object>)
    reads seqNo, footprint
  {
    CountersDue(w, t, m, seqNo) && |sims| == w.markets && Separate(sims) && Within(sims, footprint) &&
    seqNo !in footprint &&
    forall i :: 0 <= i < |sims| ==> MarketWatching(w, sims[i], i, if i < m then t + 1 else t)
  }

  /** The turn of market m. */
  method StepNextMarket(w: World, sims: seq<seq<Book>>, t: nat, m: nat, seqNo: array<u64>, ghost footprint: set<object>)
    returns (out: seq<OddsUpdate>)
    requires w.Valid() && t + 1 < TWO_64 && m < |sims| && MarketsSoFar(w, sims, t, m, seqNo, footprint)
    modifies seqNo, footprint
    ensures MarketsSoFar(w, sims, t, m + 1, seqNo, footprint)
    ensures MadeByBooks(w, out, t, m, |w.roster|)
  {
    out := StepMarket(w, sims[m], t, m, seqNo);
    forall i | 0 <= i < |sims| && i != m ensures MarketWatching(w, sims[i], i, if i < m + 1 then t + 1 else t) {
      assert Objects(sims[i]) !! Objects(sims[m]);
    }
  }

  /** What the first m markets make of tick t. */
  ghost predicate MadeByMarkets(w: World, out: seq<OddsUpdate>, t: nat, m: nat) {
    AllGenuine(w, out, MarketsUpTo(w, t, m))
  }

  lemma OneMoreMarket(w: World, out: seq<OddsUpdate>, us: seq<OddsUpdate>, t: nat, m: nat)
    requires MadeByMarkets(w, out, t, m) && MadeByBooks(w, us, t, m, |w.roster|)
    ensures MadeByMarkets(w, out + us, t, m + 1)
  {
  }

  lemma TurnsAreOver(w: World, sims: seq<seq<Book>>, t: nat, seqNo: array<u64>, footprint: set<object>)
    requires w.Valid() && MarketsSoFar(w, sims, t, w.markets, seqNo, footprint)
    ensures AtTick(w, sims, seqNo, t + 1, footprint)
  {
    forall b | 0 <= b < |w.roster| ensures Due(w, t, w.markets, b) == Due(w, t + 1, 0, b) {
      DueNextTick(w, t, b);
    }
  }

  method StepTick(w: World, sims: seq<seq<Book>>, t: nat, seqNo: array<u64>, ghost footprint: set<object>)
    returns (out: seq<OddsUpdate>)
    requires w.Valid() && t + 1 < TWO_64 && AtTick(w, sims, seqNo, t, footprint)
    modifies seqNo, footprint
    ensures AtTick(w, sims, seqNo, t + 1, footprint)
    ensures MadeByMarkets(w, out, t, w.markets)
  {
    out := [];
    var m := 0;
    while m < |sims|
      invariant 0 <= m <= |sims| && MarketsSoFar(w, sims, t, m, seqNo, footprint)
      invariant MadeByMarkets(w, out, t, m)
    {
      var us := StepNextMarket(w, sims, t, m, seqNo, footprint);
      OneMoreMarket(w, out, us, t, m);
      out := out + us;
      m := m + 1;
    }
    TurnsAreOver(w, sims, t, seqNo, footprint);
  }

  /** Everything stands as it should before tick t. */
  ghost predicate AtTick(w: World, sims: seq<seq<Book>>, seqNo: array<u64>, t: nat, footprint: set<object>)
    reads seqNo, footprint
  {
    MarketsSoFar(w, sims, t, 0, seqNo, footprint)
  }

  /** What the first t ticks make. */
  ghost predicate MadeByTicks(w: World, us: seq<OddsUpdate>, t: nat) {
    AllGenuine(w, us, TicksUpTo(w, t))
  }

  lemma OneMoreTick(w: World, us: seq<OddsUpdate>, out: seq<OddsUpdate>, t: nat)
    requires MadeByTicks(w, us, t) && MadeByMarkets(w, out, t, w.markets)
    ensures MadeByTicks(w, us + out, t + 1)
  {
  }

  method RunTicks(w: World, sims: seq<seq<Book>>, seqNo: array<u64>, ticks: u64, ghost footprint: set<object>)
    returns (us: seq<OddsUpdate>)
    requires w.Valid() && AtTick(w, sims, seqNo, 0, footprint)
    modifies seqNo, footprint
    ensures MadeByTicks(w, us, ticks)
  {
    us := [];
    var t := 0;
    while t < ticks
      invariant 0 <= t <= ticks && AtTick(w, sims, seqNo, t, footprint) && MadeByTicks(w, us, t)
    {
      var out := StepTick(w, sims, t, seqNo, footprint);
      OneMoreTick(w, us, out, t);
      us := us + out;
      t := t + 1;
    }
  }

  method NewSims(w: World) returns (sims: seq<seq<Book>>, ghost footprint: set<object>)
    requires w.Valid()
    ensures |sims| == w.markets && Separate(sims) && Within(sims, footprint) && fresh(footprint)
    ensures forall m :: 0 <= m < |sims| ==> MarketWatching(w, sims[m], m, 0)
  {
    sims, footprint := [], {};
    while |sims| < w.markets
      invariant |sims| <= w.markets && Separate(sims) && Within(sims, footprint) && fresh(footprint)
      invariant forall m :: 0 <= m < |sims| ==> MarketWatching(w, sims[m], m, 0)
    {
      var books := NewBooks(w, |sims|);
      sims := sims + [books];
      footprint := footprint + Objects(books);
    }
  }

  /** The first books of market m, which have seen nothing. */
  ghost predicate Ready(w: World, books: seq<Book>, m: nat)
    reads Objects(books)
  {
    |books| <= |w.roster| && Distinct(books) &&
    forall b :: 0 <= b < |books| ==> books[b] in books && Watching(w, books[b], m, b, 0)
  }

  method NewBook(w: World, books: seq<Book>, ghost m: nat) returns (c: Book)
    requires |books| < |w.roster| && Ready(w, books, m)
    ensures fresh(c) && fresh(c.history) && Ready(w, books + [c], m)
  {
    c := new Book(w.roster[|books|].cfg);
    assert c.seen == Path(w, m, 0);
    assert forall b :: 0 <= b < |books| ==> books[b] in books && old(Watching(w, books[b], m, b, 0));
    assert forall b :: 0 <= b <= |books| ==> (books + [c])[b] in books + [c];
  }

  method NewBooks(w: World, ghost m: nat) returns (books: seq<Book>)
    ensures MarketWatching(w, books, m, 0) && fresh(Objects(books))
  {
    books := [];
    while |books| < |w.roster|
      invariant Ready(w, books, m) && fresh(Objects(books))
    {
      var c := NewBook(w, books, m);
      OneMoreBook(books, c);
      books := books + [c];
    }
  }

  /** The whole run: every record of every tick, in order. */
  method Generate(w: World, ticks: u64) returns (us: seq<OddsUpdate>)
    requires w.Valid()
    ensures AllGenuine(w, us, TicksUpTo(w, ticks))
  {
    ghost var footprint;
    var sims, seqNo;
    sims, seqNo, footprint := SetUp(w);
    us := RunTicks(w, sims, seqNo, ticks, footprint);
  }

  /** Counters at zero, and books that have seen nothing. */
  method SetUp(w: World) returns (sims: seq<seq<Book>>, seqNo: array<u64>, ghost footprint: set<object>)
    requires w.Valid()
    ensures AtTick(w, sims, seqNo, 0, footprint) && fresh(seqNo) && fresh(footprint)
  {
    seqNo := NewCounters(w);
    sims, footprint := NewSims(w);
  }

  method NewCounters(w: World) returns (seqNo: array<u64>)
    requires w.Valid()
    ensures CountersDue(w, 0, 0, seqNo) && fresh(seqNo)
  {
    seqNo := new u64[|w.roster|](_ => 0);
    forall b | 0 <= b < |w.roster| ensures Due(w, 0, 0, b) == 0 {
      QuotesStep(0, w.roster[b].interval);
    }
  }
}

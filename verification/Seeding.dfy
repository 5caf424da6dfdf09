/** Seed derivation: mixing is a bijection on 64-bit words, so distinct streams get distinct seeds. */
module Seeding {
  type Word = bv64

  const DOMAIN_FACTOR: Word := 0x1000193

  const LATENT_MARKET: Word := 1
  const BOOKMAKER: Word := 2
  const SETTLEMENT: Word := 3
  /** The opening line of a market has a domain of its own, outside the named ones. */
  const OPENING_LINE: Word := 99

  // ---- the steps of the mixer, each beside the step that undoes it ----

  function PlusGamma(x: Word): Word { x + 0x9E3779B97F4A7C15 }
  function MinusGamma(y: Word): Word { y - 0x9E3779B97F4A7C15 }
  function Fold30(y: Word): Word { y ^ (y >> 30) }
  function Unfold30(y: Word): Word { y ^ (y >> 30) ^ (y >> 60) }
  function TimesA(y: Word): Word { y * 0xBF58476D1CE4E5B9 }
  function UntimesA(y: Word): Word { y * 0x96DE1B173F119089 }
  function Fold27(y: Word): Word { y ^ (y >> 27) }
  function Unfold27(y: Word): Word { y ^ (y >> 27) ^ (y >> 54) }
  function TimesB(y: Word): Word { y * 0x94D049BB133111EB }
  function UntimesB(y: Word): Word { y * 0x319642B2D24D8EC3 }
  function Fold31(y: Word): Word { y ^ (y >> 31) }
  function Unfold31(y: Word): Word { y ^ (y >> 31) ^ (y >> 62) }

  function SplitMix64(x: Word): Word {
    Fold31(TimesB(Fold27(TimesA(Fold30(PlusGamma(x))))))
  }

  function Unmix64(s: Word): Word {
    MinusGamma(Unfold30(UntimesA(Unfold27(UntimesB(Unfold31(s))))))
  }

  function DeriveSeed(master: Word, domain: Word, index: Word): Word {
    SplitMix64(Combine(master, SplitMix64(Stream(domain, index))))
  }

  function Combine(master: Word, s: Word): Word { master ^ s }

  /** What of the domain and the index goes into the seed. */
  function Stream(domain: Word, index: Word): Word { domain * 0x1000193 + index }

  lemma GammaUndone(x: Word)
    ensures MinusGamma(PlusGamma(x)) == x && PlusGamma(MinusGamma(x)) == x
  {
    assert MinusGamma(x + 0x9E3779B97F4A7C15) == x && PlusGamma(x - 0x9E3779B97F4A7C15) == x;
  }

  lemma FoldsUndone(y: Word)
    ensures Unfold30(Fold30(y)) == y && Fold30(Unfold30(y)) == y
    ensures Unfold27(Fold27(y)) == y && Fold27(Unfold27(y)) == y
    ensures Unfold31(Fold31(y)) == y && Fold31(Unfold31(y)) == y
  {
    assert Unfold30(y ^ (y >> 30)) == y && Fold30(y ^ (y >> 30) ^ (y >> 60)) == y;
    assert Unfold27(y ^ (y >> 27)) == y && Fold27(y ^ (y >> 27) ^ (y >> 54)) == y;
    assert Unfold31(y ^ (y >> 31)) == y && Fold31(y ^ (y >> 31) ^ (y >> 62)) == y;
  }

  /** The odd factors have inverses modulo 2^64. */
  lemma ProductsUndone(y: Word)
    ensures UntimesA(TimesA(y)) == y && TimesA(UntimesA(y)) == y
    ensures UntimesB(TimesB(y)) == y && TimesB(UntimesB(y)) == y
  {
    assert UntimesA(y * 0xBF58476D1CE4E5B9) == y && TimesA(y * 0x96DE1B173F119089) == y;
    assert UntimesB(y * 0x94D049BB133111EB) == y && TimesB(y * 0x319642B2D24D8EC3) == y;
  }

  /** Running the mixer backwards gives the word it started from ... */
  lemma MixUndone(x: Word)
    ensures Unmix64(SplitMix64(x)) == x
  {
    var y := PlusGamma(x);
    GammaUndone(x);
    FoldsUndone(y);
    ProductsUndone(Fold30(y));
    FoldsUndone(TimesA(Fold30(y)));
    ProductsUndone(Fold27(TimesA(Fold30(y))));
    FoldsUndone(TimesB(Fold27(TimesA(Fold30(y)))));
  }

  /** ... and every word is reached: together, a bijection. */
  lemma MixReachesAll(s: Word)
    ensures SplitMix64(Unmix64(s)) == s
  {
    var u := Unfold31(s);
    FoldsUndone(s);
    ProductsUndone(u);
    FoldsUndone(UntimesB(u));
    ProductsUndone(Unfold27(UntimesB(u)));
    FoldsUndone(UntimesA(Unfold27(UntimesB(u))));
    GammaUndone(Unfold30(UntimesA(Unfold27(UntimesB(u)))));
  }

  lemma MixInjective(x: Word, y: Word)
    ensures SplitMix64(x) == SplitMix64(y) ==> x == y
  {
    MixUndone(x);
    MixUndone(y);
  }

  lemma CombineUndone(m: Word, s: Word)
    ensures Combine(m, Combine(m, s)) == s && Combine(m, Combine(s, m)) == s
  {
    assert Combine(m, m ^ s) == s && Combine(m, s ^ m) == s;
  }

  lemma CombineInjective(m: Word, s: Word, s': Word)
    ensures Combine(m, s) == Combine(m, s') ==> s == s'
    ensures Combine(s, m) == Combine(s', m) ==> s == s'
  {
    CombineUndone(m, s);
    CombineUndone(m, s');
  }

  /** Under one master, two seeds agree exactly when domain * 0x1000193 + index agree modulo 2^64. */
  lemma SeedsAgreeIffStreamsDo(master: Word, d: Word, i: Word, d': Word, i': Word)
    ensures DeriveSeed(master, d, i) == DeriveSeed(master, d', i') <==> Stream(d, i) == Stream(d', i')
  {
    var t, t' := Stream(d, i), Stream(d', i');
    SeedsOfStreams(master, t, t');
  }

  lemma SeedsOfStreams(master: Word, t: Word, t': Word)
    ensures SplitMix64(Combine(master, SplitMix64(t))) == SplitMix64(Combine(master, SplitMix64(t'))) ==> t == t'
  {
    var s, s' := SplitMix64(t), SplitMix64(t');
    MixInjective(t, t');
    CombineInjective(master, s, s');
    MixInjective(Combine(master, s), Combine(master, s'));
  }

  /** Two masters never share a seed for the same stream. */
  lemma MastersDiffer(m: Word, m': Word, d: Word, i: Word)
    ensures DeriveSeed(m, d, i) == DeriveSeed(m', d, i) ==> m == m'
  {
    var s := SplitMix64(Stream(d, i));
    MixInjective(Combine(m, s), Combine(m', s));
    CombineInjective(s, m, m');
  }

  /** Seeds of any two masters agree exactly when the masters differ as the mixed streams do. */
  lemma SeedsAgreeIff(m: Word, m': Word, d: Word, i: Word, d': Word, i': Word, s: Word, s': Word)
    requires s == SplitMix64(Stream(d, i)) && s' == SplitMix64(Stream(d', i'))
    ensures DeriveSeed(m, d, i) == DeriveSeed(m', d', i') <==> m ^ m' == s ^ s'
  {
    MixedAgreeIff(m, m', s, s');
  }

  lemma MixedAgreeIff(m: Word, m': Word, s: Word, s': Word)
    ensures SplitMix64(Combine(m, s)) == SplitMix64(Combine(m', s')) <==> m ^ m' == s ^ s'
  {
    MixInjective(Combine(m, s), Combine(m', s'));
    SameDifference(m, m', s, s');
  }

  lemma SameDifference(m: Word, m': Word, s: Word, s': Word)
    ensures Combine(m, s) == Combine(m', s') <==> m ^ m' == s ^ s'
  {
    var x, x', a, b := Combine(m, s), Combine(m', s'), Combine(m, m'), Combine(s, s');
    assert Combine(x, x') == Combine(a, b) by { Regrouped(m, m', s, s'); }
    assert Combine(x, x') == 0 <==> x == x' by { DifferenceIsZero(x, x'); }
    assert Combine(a, b) == 0 <==> a == b by { DifferenceIsZero(a, b); }
  }

  lemma Regrouped(m: Word, m': Word, s: Word, s': Word)
    ensures Combine(m ^ s, m' ^ s') == Combine(m ^ m', s ^ s')
  {
  }

  lemma DifferenceIsZero(a: Word, b: Word)
    ensures Combine(a, b) == 0 <==> a == b
  {
    CombineUndone(b, a);
    CombineUndone(b, b);
    SelfCancels(b);
  }

  lemma SelfCancels(x: Word)
    ensures Combine(x, x) == 0
  {
  }

  /** The first three outputs of the published generator started from zero: it adds the same constant to its state every
      time and mixes the sum. */
  lemma PublishedMixes()
    ensures SplitMix64(0) == 0xE220A8397B1DCDAF
    ensures SplitMix64(0x9E3779B97F4A7C15) == 0x6E789E6AA1B965F4
    ensures SplitMix64(0x3C6EF372FE94F82A) == 0x06C45D188009454F
  {
  }

  ghost predicate IsDomain(d: Word) { d == 1 || d == 2 || d == 3 || d == 99 }

  /** Every stream of every component has its own seed: the four domains, any index below 0x1000193. */
  lemma SeedsNeverCollide(master: Word, d: Word, i: Word, d': Word, i': Word)
    requires IsDomain(d) && IsDomain(d') && i < 0x1000193 && i' < 0x1000193
    ensures DeriveSeed(master, d, i) == DeriveSeed(master, d', i') <==> d == d' && i == i'
  {
    SeedsAgreeIffStreamsDo(master, d, i, d', i');
    if Stream(d, i) == Stream(d', i') {
      StreamsDiffer(d, i, d', i');
    }
  }

  lemma StreamsDiffer(d: Word, i: Word, d': Word, i': Word)
    requires IsDomain(d) && IsDomain(d') && i < 0x1000193 && i' < 0x1000193
    requires Stream(d, i) == Stream(d', i')
    ensures d == d' && i == i'
  {
    SameDomain(d, i, d', i');
    SameIndex(d, i, i');
  }

  lemma SameDomain(d: Word, i: Word, d': Word, i': Word)
    requires i < 0x1000193 && i' < 0x1000193
    requires IsDomain(d) && IsDomain(d')
    requires Stream(d, i) == Stream(d', i')
    ensures d == d'
  {
  }

  lemma SameIndex(d: Word, i: Word, i': Word)
    requires Stream(d, i) == Stream(d, i')
    ensures i == i'
  {
    SumsAgree(d, i, d, i');
  }

  lemma SumsAgree(d: Word, i: Word, d': Word, i': Word)
    requires Stream(d, i) == Stream(d', i')
    ensures d * 0x1000193 + i == d' * 0x1000193 + i'
  {
  }

  /** The bound on the index is needed: just above it two domains share a seed. */
  lemma IndexBoundIsNeeded(master: Word)
    ensures DeriveSeed(master, LATENT_MARKET, DOMAIN_FACTOR) == DeriveSeed(master, BOOKMAKER, 0)
  {
    SeedsAgreeIffStreamsDo(master, LATENT_MARKET, DOMAIN_FACTOR, BOOKMAKER, 0);
  }

  // ---- the seeds one simulator run uses ----

  /** Market numbers fit in sixteen bits, as on the wire. */
  type Number = bv16

  /** The number of books in the roster. */
  const BOOKS: Number := 5

  /** What a seed is for: a market's opening line, its price process, a book's noise on it, its settlement. */
  datatype Purpose =
    Opening(market: Number) | Latent(market: Number) | Quoting(market: Number, book: Number) | Settling(market: Number)

  function Domain(p: Purpose): Word {
    match p
    case Opening(_) => OPENING_LINE
    case Latent(_) => LATENT_MARKET
    case Quoting(_, _) => BOOKMAKER
    case Settling(_) => SETTLEMENT
  }

  function QuotingIndex(m: Number, b: Number): Word { (m as Word) * 1000 + (b as Word) }

  function Index(p: Purpose): Word {
    match p
    case Opening(m) => m as Word
    case Latent(m) => m as Word
    case Quoting(m, b) => QuotingIndex(m, b)
    case Settling(m) => m as Word
  }

  function SeedFor(master: Word, p: Purpose): Word {
    DeriveSeed(master, Domain(p), Index(p))
  }

  ghost predicate InRun(p: Purpose, markets: Number) {
    p.market < markets && (p.Quoting? ==> p.book < BOOKS)
  }

  ghost predicate AllSeedsDiffer(master: Word, markets: Number) {
    forall p, p' :: InRun(p, markets) && InRun(p', markets) && SeedFor(master, p) == SeedFor(master, p') ==> p == p'
  }

  /** The largest run in which no two uses share a seed. */
  const SAFE_MARKETS: Number := 16778

  /** A run's seeds are all different exactly when it has at most 16778 markets. In a larger run the index of a book's
      seed, market * 1000 + book, outgrows the spacing of the domains. */
  lemma RunSeedsDifferIff(master: Word, markets: Number)
    ensures AllSeedsDiffer(master, markets) <==> markets <= SAFE_MARKETS
  {
    if markets <= SAFE_MARKETS {
      forall p, p' | InRun(p, markets) && InRun(p', markets) && SeedFor(master, p) == SeedFor(master, p')
        ensures p == p'
      {
        SameSeedSameUse(master, p, p', markets);
      }
    } else {
      QuotingMeetsSettling(master);
      assert InRun(Quoting(16778, 0), markets) && InRun(Settling(381), markets);
    }
  }

  /** The first collision: book 0 of market 16778 and the settlement of market 381. */
  lemma QuotingMeetsSettling(master: Word)
    ensures SeedFor(master, Quoting(16778, 0)) == SeedFor(master, Settling(381))
  {
    SeedsAgreeIffStreamsDo(master, BOOKMAKER, 16778000, SETTLEMENT, 381);
  }

  lemma SameSeedSameUse(master: Word, p: Purpose, p': Purpose, markets: Number)
    requires InRun(p, markets) && InRun(p', markets) && markets <= SAFE_MARKETS
    requires SeedFor(master, p) == SeedFor(master, p')
    ensures p == p'
  {
    IndexInRange(p, markets);
    IndexInRange(p', markets);
    SeedsNeverCollide(master, Domain(p), Index(p), Domain(p'), Index(p'));
    SameIndexSameUse(p, p', markets);
  }

  lemma SameIndexSameUse(p: Purpose, p': Purpose, markets: Number)
    requires InRun(p, markets) && InRun(p', markets) && markets <= SAFE_MARKETS
    requires Domain(p) == Domain(p') && Index(p) == Index(p')
    ensures p == p'
  {
    SameKind(p, p');
    if p.Quoting? { QuotingReadsBack(p, p', markets); }
  }

  lemma SameKind(p: Purpose, p': Purpose)
    requires Domain(p) == Domain(p') && Index(p) == Index(p')
    ensures p.Quoting? == p'.Quoting? && (p == p' || p.Quoting?)
  {
  }

  lemma QuotingReadsBack(p: Purpose, p': Purpose, markets: Number)
    requires InRun(p, markets) && InRun(p', markets) && p.Quoting? && p'.Quoting? && Index(p) == Index(p')
    ensures p == p'
  {
    var q := BookAt(p.market, p.book);
    var q' := BookAt(p'.market, p'.book);
  }

  /** The market and book an index came from. */
  ghost function Origin(index: Word): (Number, Number) {
    if exists m: Number, b: Number :: b < BOOKS && QuotingIndex(m, b) == index then
      var m: Number, b: Number :| b < BOOKS && QuotingIndex(m, b) == index;
      (m, b)
    else (0, 0)
  }

  lemma BookAt(m: Number, b: Number) returns (q: (Number, Number))
    requires b < BOOKS
    ensures q == Origin(QuotingIndex(m, b)) == (m, b)
  {
    q := Origin(QuotingIndex(m, b));
    IndexInjective(m, b, q.0, q.1);
  }

  lemma IndexInjective(m: Number, b: Number, n: Number, c: Number)
    requires b < BOOKS && c < BOOKS && QuotingIndex(m, b) == QuotingIndex(n, c)
    ensures m == n && b == c
  {
  }

  lemma IndexInRange(p: Purpose, markets: Number)
    requires InRun(p, markets) && markets <= SAFE_MARKETS
    ensures Index(p) < DOMAIN_FACTOR
  {
    if p.Quoting? { QuotingIndexInRange(p.market, p.book); }
  }

  lemma QuotingIndexInRange(m: Number, b: Number)
    requires m < SAFE_MARKETS && b < BOOKS
    ensures QuotingIndex(m, b) < DOMAIN_FACTOR
  {
  }
}

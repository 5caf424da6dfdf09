/** The engine's run: group the records by timestamp, and price every market once per group. */
module EngineLoop {
  import opened Basics
  import opened Messages
  import opened BookTable
  import opened EngineConfig
  import opened EngineTick
  import Consensus
  import ReplayHash

  // ---- the specification: maximal runs of equal timestamps ----

  /** A group of records: its timestamp, and how many records there are up to its end. */
  datatype Group = Group(ts: u64, end: nat)

  function Groups(us: seq<OddsUpdate>): (gs: seq<Group>)
    ensures us != [] ==> gs != [] && gs[|gs| - 1] == Group(us[|us| - 1].simTimestamp, |us|)
  {
    if us == [] then []
    else
      var n := |us| - 1;
      var before, g := Groups(us[..n]), Group(us[n].simTimestamp, n + 1);
      if n > 0 && us[n - 1].simTimestamp == g.ts then before[..|before| - 1] + [g] else before + [g]
  }

  /** The groups that are certainly complete: all but the last. */
  function Closed(us: seq<OddsUpdate>): seq<Group> {
    var gs := Groups(us);
    if gs == [] then [] else gs[..|gs| - 1]
  }

  /** A group ends exactly where the timestamp changes, or the records do. */
  predicate EndsAt(us: seq<OddsUpdate>, e: nat) {
    0 < e <= |us| && (e == |us| || us[e].simTimestamp != us[e - 1].simTimestamp)
  }

  predicate IsRun(us: seq<OddsUpdate>, g: Group) {
    EndsAt(us, g.end) && g.ts == us[g.end - 1].simTimestamp
  }

  ghost predicate Rising(gs: seq<Group>) { forall i, j :: 0 <= i < j < |gs| ==> gs[i].end < gs[j].end }

  ghost predicate AllRuns(us: seq<OddsUpdate>, gs: seq<Group>) { forall i :: 0 <= i < |gs| ==> IsRun(us, gs[i]) }

  /** The groups are runs of equal timestamps, each once, in order ... */
  lemma {:induction false} GroupsAreRuns(us: seq<OddsUpdate>)
    ensures AllRuns(us, Groups(us)) && Rising(Groups(us))
  {
    if us != [] {
      var n := |us| - 1;
      var gs, g := Groups(us[..n]), Group(us[n].simTimestamp, n + 1);
      GroupsAreRuns(us[..n]);
      if n == 0 {
        assert Groups(us) == [g];
      } else {
        RunsExtend(us, n, gs);
        if us[n - 1].simTimestamp == g.ts {
          OneMoreRun(us, gs[..|gs| - 1], g, n);
        } else {
          OneMoreRun(us, gs, g, n);
        }
      }
    }
  }

  lemma OneMoreRun(us: seq<OddsUpdate>, gs: seq<Group>, g: Group, n: nat)
    requires AllRuns(us, gs) && Rising(gs) && IsRun(us, g) && (gs == [] || gs[|gs| - 1].end <= n) && n < g.end
    ensures AllRuns(us, gs + [g]) && Rising(gs + [g])
  {
  }

  lemma RunsExtend(us: seq<OddsUpdate>, n: nat, gs: seq<Group>)
    requires 0 < n && |us| == n + 1 && gs != [] && AllRuns(us[..n], gs) && Rising(gs)
    requires gs[|gs| - 1] == Group(us[n - 1].simTimestamp, n)
    ensures AllRuns(us, gs[..|gs| - 1])
    ensures us[n - 1].simTimestamp != us[n].simTimestamp ==> AllRuns(us, gs)
  {
    forall i | 0 <= i < |gs| - 1 ensures IsRun(us, gs[i]) {
      assert IsRun(us[..n], gs[i]) && gs[i].end < gs[|gs| - 1].end;
    }
  }

  /** ... and they are maximal: every place where a run ends is there. */
  lemma {:induction false} GroupsAreMaximal(us: seq<OddsUpdate>, e: nat)
    requires EndsAt(us, e)
    ensures exists i :: 0 <= i < |Groups(us)| && Groups(us)[i].end == e
  {
    var n := |us| - 1;
    var gs, all := Groups(us[..n]), Groups(us);
    if e == |us| {
      assert all[|all| - 1].end == e;
    } else {
      GroupsAreMaximal(us[..n], e);
      var i :| 0 <= i < |gs| && gs[i].end == e;
      if i == |gs| - 1 {
        assert e == n;
      }
      assert all[i] == gs[i];
    }
  }

  lemma ClosedStep(us: seq<OddsUpdate>, k: nat)
    requires k < |us|
    ensures Closed(us[..k + 1]) ==
      if k > 0 && us[k - 1].simTimestamp != us[k].simTimestamp then Closed(us[..k]) + [Group(us[k - 1].simTimestamp, k)]
      else Closed(us[..k])
  {
    assert us[..k + 1][..k] == us[..k];
    if k > 0 {
      var gs := Groups(us[..k]);
      assert gs == gs[..|gs| - 1] + [gs[|gs| - 1]];
    }
  }

  lemma AllClosed(us: seq<OddsUpdate>)
    requires us != []
    ensures Groups(us) == Closed(us) + [Group(us[|us| - 1].simTimestamp, |us|)]
  {
  }

  // ---- what a run leaves behind ----

  /** Everything that went into one market at one tick, and what came out. */
  datatype Entry = Entry(group: Group, market: nat, settings: Settings, quotes: seq<CleanQuote>,
                         inputs: seq<Consensus.BookInput>, fair: Consensus.ConsensusResult, best: BestOdds,
                         bets: seq<BetRecord>)

  /** The best prices are those of the fresh quotes, and the bets, if any are wanted, follow from them and the price. */
  ghost predicate BetsFollow(betting: bool, e: Entry) {
    AreBest(e.quotes, e.group.ts, StaleAfter(e.settings), e.best) &&
    if betting && e.fair.hasFairPrice then BetsFrom(e.settings, e.group.ts, e.market, e.fair, e.best, e.bets)
    else e.bets == []
  }

  /** The price is the consensus of the books' inputs, and the bets follow from it. */
  ghost predicate SoundEntry(lib: Library, betting: bool, e: Entry) {
    AllInputs(lib, e.settings, e.group.ts, e.quotes, e.inputs) && Consensus.IsFairPrice(e.inputs, e.fair) &&
    BetsFollow(betting, e)
  }

  /** The entry of market m for a group: priced from the quotes after all records of the group. */
  ghost predicate EntryFor(lib: Library, betting: bool, us: seq<OddsUpdate>, books: nat, g: Group, m: nat,
                           s: Settings, e: Entry)
    requires g.end <= |us| && Clean(Receipts(us))
  {
    e.group == g && e.market == m && e.settings == s && SoundEntry(lib, betting, e) &&
    (CleanPrefix(us, g.end); e.quotes == QuotesAfter(Receipts(us[..g.end]), m, books))
  }

  lemma CleanPrefix(us: seq<OddsUpdate>, k: nat)
    requires k <= |us| && Clean(Receipts(us))
    ensures Clean(Receipts(us[..k])) && Receipts(us[..k]) == Receipts(us)[..k]
  {
  }

  /** The settings once the commands that came in before each of the first n groups have been applied. */
  function SettingsAfter(s: Settings, arrivals: nat -> seq<Command>, locked: bool, n: nat): Settings {
    if n == 0 then s else AfterCommands(SettingsAfter(s, arrivals, locked, n - 1), arrivals(n - 1), locked)
  }

  /** One entry for every market. */
  ghost predicate GroupDone(lib: Library, betting: bool, us: seq<OddsUpdate>, books: nat, markets: nat, g: Group,
                            s: Settings, es: seq<Entry>)
    requires g.end <= |us| && Clean(Receipts(us))
  {
    |es| == markets && forall m :: 0 <= m < markets ==> EntryFor(lib, betting, us, books, g, m, s, es[m])
  }

  lemma OneMoreDone(lib: Library, betting: bool, us: seq<OddsUpdate>, books: nat, m: nat, g: Group, s: Settings,
                    es: seq<Entry>, e: Entry)
    requires g.end <= |us| && Clean(Receipts(us)) && GroupDone(lib, betting, us, books, m, g, s, es)
    requires EntryFor(lib, betting, us, books, g, m, s, e)
    ensures GroupDone(lib, betting, us, books, m + 1, g, s, es + [e])
  {
  }

  function BetsIn(es: seq<Entry>): seq<BetRecord> {
    if es == [] then [] else BetsIn(es[..|es| - 1]) + es[|es| - 1].bets
  }

  function Priced(es: seq<Entry>): nat {
    if es == [] then 0 else Priced(es[..|es| - 1]) + if es[|es| - 1].fair.hasFairPrice then 1 else 0
  }

  function AllBets(journal: seq<seq<Entry>>): seq<BetRecord> {
    if journal == [] then [] else AllBets(journal[..|journal| - 1]) + BetsIn(journal[|journal| - 1])
  }

  function AllPriced(journal: seq<seq<Entry>>): nat {
    if journal == [] then 0 else AllPriced(journal[..|journal| - 1]) + Priced(journal[|journal| - 1])
  }

  // ---- the replay digest ----

  function MarketBytes(m: nat): seq<bv8> { ReplayHash.BytesOf(m % 0x1_0000) }

  function CountByte(n: Consensus.Count): bv8 { n as bv8 }

  function NumberBytes(bits: real -> EightBytes, p: seq<real>): seq<bv8> {
    if p == [] then [] else NumberBytes(bits, p[..|p| - 1]) + bits(p[|p| - 1])
  }

  /** What a priced market adds to the digest: its number, how many outcomes, and their probabilities. */
  function Trace(bits: real -> EightBytes, m: nat, fair: Consensus.ConsensusResult): seq<bv8> {
    if fair.hasFairPrice then MarketBytes(m) + [CountByte(fair.count)] + NumberBytes(bits, fair.prob[..fair.count])
    else []
  }

  function Traces(bits: real -> EightBytes, es: seq<Entry>): seq<bv8> {
    if es == [] then [] else Traces(bits, es[..|es| - 1]) + Trace(bits, es[|es| - 1].market, es[|es| - 1].fair)
  }

  function AllTraces(bits: real -> EightBytes, journal: seq<seq<Entry>>): seq<bv8> {
    if journal == [] then [] else AllTraces(bits, journal[..|journal| - 1]) + Traces(bits, journal[|journal| - 1])
  }

  /** Only a run that is asked for its digest takes one. */
  function DigestAfter(taken: bool, state: ReplayHash.Word, data: seq<bv8>): ReplayHash.Word {
    if taken then ReplayHash.Digest(state, data) else state
  }

  lemma DigestTwice(taken: bool, state: ReplayHash.Word, a: seq<bv8>, b: seq<bv8>)
    ensures DigestAfter(taken, DigestAfter(taken, state, a), b) == DigestAfter(taken, state, a + b)
  {
    ReplayHash.DigestConcat(state, a, b);
  }

  /** The market number, the count and the probabilities go in one after the other. */
  method MixPrice(hash: ReplayHash.Hash, bits: real -> EightBytes, m: nat, fair: Consensus.ConsensusResult)
    requires fair.hasFairPrice
    modifies hash
    ensures hash.state == ReplayHash.Digest(old(hash.state), Trace(bits, m, fair))
  {
    ghost var start, p := hash.state, fair.prob[..fair.count];
    ghost var head := MarketBytes(m) + [CountByte(fair.count)];
    hash.MixU16(m % 0x1_0000);
    hash.MixBytes([CountByte(fair.count)]);
    ReplayHash.DigestConcat(start, MarketBytes(m), [CountByte(fair.count)]);
    assert p[..0] == [] && head + [] == head;
    var i := 0;
    while i < fair.count
      invariant 0 <= i <= fair.count
      invariant hash.state == ReplayHash.Digest(start, head + NumberBytes(bits, p[..i]))
    {
      hash.MixBytes(bits(fair.prob[i]));
      OneMoreNumber(bits, p, i);
      ReplayHash.DigestConcat(start, head + NumberBytes(bits, p[..i]), bits(p[i]));
      Assoc(head, NumberBytes(bits, p[..i]), bits(p[i]));
      i := i + 1;
    }
    assert p[..i] == p;
  }

  lemma OneMoreNumber(bits: real -> EightBytes, p: seq<real>, i: nat)
    requires i < |p|
    ensures NumberBytes(bits, p[..i + 1]) == NumberBytes(bits, p[..i]) + bits(p[i])
  {
    assert p[..i + 1][..i] == p[..i];
  }

  class Engine {
    const lib: Library
    const markets: nat
    const betting: bool
    const locked: bool
    const table: Table
    const cfg: LiveConfig
    const inputs: array<Consensus.BookInput>
    const hash: ReplayHash.Hash
    var consensusCount: nat
    var noPriceCount: nat
    var betsPlaced: nat
    var bets: seq<BetRecord>

    ghost predicate Valid()
      reads this, table, table.slots
    {
      lib.Valid() && table.Valid() && Clean(table.history) && markets <= table.markets &&
      inputs.Length <= table.books &&
      betsPlaced == |bets|
    }

    constructor (lib: Library, markets: nat, books: nat, settings: Settings, betting: bool, locked: bool)
      requires lib.Valid() && markets <= 1024 && books <= 16
      ensures Valid() && fresh(table) && fresh(table.slots) && fresh(cfg) && fresh(inputs) && fresh(hash)
      ensures this.lib == lib && this.markets == markets && inputs.Length == books && this.betting == betting
      ensures this.locked == locked
      ensures table.history == [] && consensusCount == noPriceCount == 0 && bets == []
      ensures cfg.Value() == settings.(changes := 0) && hash.state == ReplayHash.OFFSET_BASIS
    {
      this.lib, this.markets, this.betting, this.locked := lib, markets, betting, locked;
      table := new Table(1024, 16);
      cfg := new LiveConfig(settings.staleMs, settings.kellyFraction, settings.maxExposure, settings.devigMethod);
      inputs := new Consensus.BookInput[books](_ => Consensus.NO_INPUT);
      hash := new ReplayHash.Hash();
      consensusCount, noPriceCount, betsPlaced, bets := 0, 0, 0, [];
    }

    /** Price one market and size its bets. */
    method ProcessMarket(g: Group, m: nat) returns (ghost e: Entry)
      requires Valid() && m < markets
      modifies hash, inputs, `consensusCount, `noPriceCount, `betsPlaced, `bets
      ensures Valid() && SoundEntry(lib, betting, e)
      ensures e.group == g && e.market == m && e.settings == cfg.Value()
      ensures e.quotes == QuotesAfter(table.history, m, inputs.Length)
      ensures AllFollow(e.settings, g.ts, e.quotes, e.inputs)
      ensures forall f: nat :: Consensus.IsFirst(e.inputs, f) ==> Consensus.Averages(e.inputs, f, e.fair)
      ensures bets == old(bets) + e.bets
      ensures hash.state == DigestAfter(locked, old(hash.state), Trace(lib.bits, m, e.fair))
      ensures consensusCount == old(consensusCount) + if e.fair.hasFairPrice then 1 else 0
      ensures noPriceCount == old(noPriceCount) + if e.fair.hasFairPrice then 0 else 1
    {
      var s := cfg.Value();
      var best := CollectBooks(lib, s, table, m, g.ts, inputs);
      var fair := Consensus.FairPrice(inputs[..]);
      var placed := TakePrice(g.ts, m, s, fair, best);
      e := Entry(g, m, s, QuotesAfter(table.history, m, inputs.Length), inputs[..], fair, best, placed);
    }

    /** Count the price, bet on it if bets are wanted, and put it into the digest if one is taken. */
    method TakePrice(ts: u64, m: nat, s: Settings, fair: Consensus.ConsensusResult, best: BestOdds)
      returns (placed: seq<BetRecord>)
      requires betsPlaced == |bets|
      modifies hash, `consensusCount, `noPriceCount, `betsPlaced, `bets
      ensures if betting && fair.hasFairPrice then BetsFrom(s, ts, m, fair, best, placed) else placed == []
      ensures bets == old(bets) + placed && betsPlaced == |bets|
      ensures hash.state == DigestAfter(locked, old(hash.state), Trace(lib.bits, m, fair))
      ensures consensusCount == old(consensusCount) + if fair.hasFairPrice then 1 else 0
      ensures noPriceCount == old(noPriceCount) + if fair.hasFairPrice then 0 else 1
    {
      placed := [];
      if !fair.hasFairPrice {
        noPriceCount := noPriceCount + 1;
        return;
      }
      consensusCount := consensusCount + 1;
      if betting {
        placed := SizeBets(s, ts, m, fair, best);
        bets := bets + placed;
        betsPlaced := betsPlaced + |placed|;
      }
      if locked { MixPrice(hash, lib.bits, m, fair); }
    }

    /** The same, told against the records rather than the table. */
    method PriceMarket(g: Group, m: nat, ghost us: seq<OddsUpdate>) returns (ghost e: Entry)
      requires Valid() && m < markets && AppliedUpTo(us, g.end)
      modifies hash, inputs, `consensusCount, `noPriceCount, `betsPlaced, `bets
      ensures Valid() && EntryFor(lib, betting, us, inputs.Length, g, m, cfg.Value(), e)
      ensures bets == old(bets) + e.bets
      ensures hash.state == DigestAfter(locked, old(hash.state), Trace(lib.bits, m, e.fair))
      ensures consensusCount == old(consensusCount) + if e.fair.hasFairPrice then 1 else 0
      ensures noPriceCount == old(noPriceCount) + if e.fair.hasFairPrice then 0 else 1
    {
      CleanPrefix(us, g.end);
      e := ProcessMarket(g, m);
    }

    /** The table has seen exactly the first n of the records. */
    ghost predicate AppliedUpTo(us: seq<OddsUpdate>, n: nat)
      reads table
    {
      n <= |us| && Clean(Receipts(us)) && table.history == Receipts(us[..n])
    }

    ghost predicate Tallied(before: seq<BetRecord>, priced: nat, total: nat, start: ReplayHash.Word, es: seq<Entry>)
      reads `bets, `consensusCount, `noPriceCount, hash
    {
      bets == before + BetsIn(es) && consensusCount == priced + Priced(es) &&
      consensusCount + noPriceCount == total + |es| &&
      hash.state == DigestAfter(locked, start, Traces(lib.bits, es))
    }

    /** One group: apply the commands that came in, then price every market once. */
    method ProcessTick(g: Group, commands: seq<Command>, ghost us: seq<OddsUpdate>) returns (ghost es: seq<Entry>)
      requires Valid() && AppliedUpTo(us, g.end)
      modifies cfg, hash, inputs, `consensusCount, `noPriceCount, `betsPlaced, `bets
      ensures Valid() && cfg.Value() == AfterCommands(old(cfg.Value()), commands, locked)
      ensures GroupDone(lib, betting, us, inputs.Length, markets, g, cfg.Value(), es)
      ensures Tallied(old(bets), old(consensusCount), old(consensusCount + noPriceCount), old(hash.state), es)
    {
      cfg.ApplyAll(commands, locked);
      es := PriceAll(g, us);
    }

    /** The next market's turn. */
    method PriceNext(g: Group, m: nat, ghost us: seq<OddsUpdate>, ghost es: seq<Entry>,
                     ghost before: seq<BetRecord>, ghost priced: nat, ghost total: nat, ghost start: ReplayHash.Word)
      returns (ghost more: seq<Entry>)
      requires Valid() && AppliedUpTo(us, g.end) && m < markets && Tallied(before, priced, total, start, es)
      requires GroupDone(lib, betting, us, inputs.Length, m, g, cfg.Value(), es)
      modifies hash, inputs, `consensusCount, `noPriceCount, `betsPlaced, `bets
      ensures Valid() && Tallied(before, priced, total, start, more)
      ensures GroupDone(lib, betting, us, inputs.Length, m + 1, g, cfg.Value(), more)
    {
      ghost var e := PriceMarket(g, m, us);
      more := es + [e];
      OneMoreEntry(before, es, e);
      OneMoreTrace(lib.bits, locked, start, es, e);
      OneMoreDone(lib, betting, us, inputs.Length, m, g, cfg.Value(), es, e);
    }

    method PriceAll(g: Group, ghost us: seq<OddsUpdate>) returns (ghost es: seq<Entry>)
      requires Valid() && AppliedUpTo(us, g.end)
      modifies hash, inputs, `consensusCount, `noPriceCount, `betsPlaced, `bets
      ensures Valid() && GroupDone(lib, betting, us, inputs.Length, markets, g, cfg.Value(), es)
      ensures Tallied(old(bets), old(consensusCount), old(consensusCount + noPriceCount), old(hash.state), es)
    {
      ghost var before, priced, total, start := bets, consensusCount, consensusCount + noPriceCount, hash.state;
      es := [];
      assert bets + [] == bets;
      var m := 0;
      while m < markets
        invariant m <= markets && Valid() && GroupDone(lib, betting, us, inputs.Length, m, g, cfg.Value(), es)
        invariant Tallied(before, priced, total, start, es)
      {
        es := PriceNext(g, m, us, es, before, priced, total, start);
        m := m + 1;
      }
    }

    /** The counters and the bet log are those of the journal. */
    ghost predicate Booked(journal: seq<seq<Entry>>)
      reads `bets, `consensusCount, `noPriceCount, hash
    {
      bets == AllBets(journal) && consensusCount == AllPriced(journal) &&
      consensusCount + noPriceCount == |journal| * markets &&
      hash.state == DigestAfter(locked, ReplayHash.OFFSET_BASIS, AllTraces(lib.bits, journal))
    }

    /** What one more group adds is what its entries tally up to. */
    lemma BookedOneMore(journal: seq<seq<Entry>>, es: seq<Entry>)
      requires |es| == markets
      requires Tallied(AllBets(journal), AllPriced(journal), |journal| * markets,
                       DigestAfter(locked, ReplayHash.OFFSET_BASIS, AllTraces(lib.bits, journal)), es)
      ensures Booked(journal + [es])
    {
      OneMoreGroup(journal, es);
      OneMoreTimes(|journal|, markets);
      OneMoreGroupTrace(lib.bits, locked, journal, es);
    }

    /** The run up to here: these groups are in the journal, and the settings are those after their commands. */
    ghost predicate Underway(us: seq<OddsUpdate>, s: Settings, arrivals: nat -> seq<Command>, gs: seq<Group>,
                             journal: seq<seq<Entry>>)
      requires Clean(Receipts(us))
      reads `bets, `consensusCount, `noPriceCount, hash, cfg
    {
      JournalFor(lib, betting, locked, us, inputs.Length, markets, s, arrivals, gs, journal) && Booked(journal) &&
      cfg.Value() == SettingsAfter(s, arrivals, locked, |gs|)
    }

    method FinishGroup(g: Group, n: nat, arrivals: nat -> seq<Command>, ghost us: seq<OddsUpdate>, ghost s: Settings,
                       ghost gs: seq<Group>, ghost journal: seq<seq<Entry>>)
      returns (ghost longer: seq<seq<Entry>>)
      requires Valid() && AppliedUpTo(us, g.end) && n == |gs| && Underway(us, s, arrivals, gs, journal)
      modifies cfg, hash, inputs, `consensusCount, `noPriceCount, `betsPlaced, `bets
      ensures Valid() && Underway(us, s, arrivals, gs + [g], longer)
    {
      ghost var es := ProcessTick(g, arrivals(n), us);
      longer := journal + [es];
      BookedOneMore(journal, es);
      assert cfg.Value() == SettingsAfter(s, arrivals, locked, n + 1);
      PageDone(lib, betting, locked, us, inputs.Length, markets, s, arrivals, n, g, cfg.Value(), es);
      JournalOneMore(lib, betting, locked, us, inputs.Length, markets, s, arrivals, gs, journal, g, es);
    }

    /** The engine's loop: every maximal run of equal timestamps is processed exactly once, after all its records have
        been applied; each market then gets one entry, and the counters and the bet log add up to the entries. */
    method Run(us: seq<OddsUpdate>, arrivals: nat -> seq<Command>) returns (ghost journal: seq<seq<Entry>>)
      requires Valid() && Clean(Receipts(us)) && table.history == [] && bets == []
      requires consensusCount == noPriceCount == 0
      requires hash.state == ReplayHash.OFFSET_BASIS
      modifies this, table, table.slots, cfg, hash, inputs
      ensures Valid() && AppliedUpTo(us, |us|)
      ensures Underway(us, old(cfg.Value()), arrivals, Groups(us), journal)
    {
      ghost var s := cfg.Value();
      journal := [];
      var haveTick, curTs: u64, n, k := false, 0, 0, 0;
      assert us[..0] == [];
      while k < |us|
        invariant Between(us, k, haveTick, curTs, n) && Underway(us, s, arrivals, Closed(us[..k]), journal)
      {
        n, journal := NextRecord(us, k, haveTick, curTs, n, arrivals, s, journal);
        curTs := us[k].simTimestamp;
        haveTick := true;
        k := k + 1;
      }
      journal := LastGroup(us, haveTick, curTs, n, arrivals, s, journal);
    }

    /** The last group ends with the records. */
    method LastGroup(us: seq<OddsUpdate>, haveTick: bool, curTs: u64, n: nat, arrivals: nat -> seq<Command>,
                     ghost s: Settings, ghost journal: seq<seq<Entry>>)
      returns (ghost longer: seq<seq<Entry>>)
      requires Between(us, |us|, haveTick, curTs, n) && Underway(us, s, arrivals, Closed(us[..|us|]), journal)
      modifies cfg, hash, inputs, `consensusCount, `noPriceCount, `betsPlaced, `bets
      ensures Valid() && AppliedUpTo(us, |us|) && Underway(us, s, arrivals, Groups(us), longer)
    {
      assert us[..|us|] == us;
      longer := journal;
      if haveTick {
        AllClosed(us);
        longer := FinishGroup(Group(curTs, |us|), n, arrivals, us, s, Closed(us), journal);
      }
    }

    /** Between two records: the table has the first k, and the loop's variables describe the last of them. */
    ghost predicate Between(us: seq<OddsUpdate>, k: nat, haveTick: bool, curTs: u64, n: nat)
      reads this, table, table.slots
    {
      Valid() && AppliedUpTo(us, k) && n == |Closed(us[..k])| && haveTick == (k > 0) &&
      (k > 0 ==> curTs == us[k - 1].simTimestamp)
    }

    method NextRecord(us: seq<OddsUpdate>, k: nat, haveTick: bool, curTs: u64, n: nat,
                      arrivals: nat -> seq<Command>, ghost s: Settings, ghost journal: seq<seq<Entry>>)
      returns (n': nat, ghost longer: seq<seq<Entry>>)
      requires k < |us| && Between(us, k, haveTick, curTs, n) && Underway(us, s, arrivals, Closed(us[..k]), journal)
      modifies this, table, table.slots, cfg, hash, inputs
      ensures Between(us, k + 1, true, us[k].simTimestamp, n') && Underway(us, s, arrivals, Closed(us[..k + 1]), longer)
    {
      if haveTick {
        n', longer := CloseIfDue(us, k, curTs, n, arrivals, s, journal);
      } else {
        ClosedStep(us, k);
        n', longer := n, journal;
      }
      TakeIn(us, k);
    }

    /** A record with another timestamp closes the group before it. */
    method CloseIfDue(us: seq<OddsUpdate>, k: nat, curTs: u64, n: nat, arrivals: nat -> seq<Command>, ghost s: Settings,
                      ghost journal: seq<seq<Entry>>)
      returns (n': nat, ghost longer: seq<seq<Entry>>)
      requires 0 < k < |us| && Valid() && AppliedUpTo(us, k) && curTs == us[k - 1].simTimestamp
      requires n == |Closed(us[..k])|
      requires Underway(us, s, arrivals, Closed(us[..k]), journal)
      modifies cfg, hash, inputs, `consensusCount, `noPriceCount, `betsPlaced, `bets
      ensures Valid() && n' == |Closed(us[..k + 1])| && Underway(us, s, arrivals, Closed(us[..k + 1]), longer)
    {
      ClosedStep(us, k);
      n', longer := n, journal;
      if us[k].simTimestamp != curTs {
        longer := FinishGroup(Group(curTs, k), n, arrivals, us, s, Closed(us[..k]), journal);
        n' := n + 1;
      }
    }

    method TakeIn(us: seq<OddsUpdate>, k: nat)
      requires Valid() && k < |us| && AppliedUpTo(us, k)
      modifies table, table.slots
      ensures Valid() && AppliedUpTo(us, k + 1)
    {
      var applied := table.Apply(us[k], us[k].simTimestamp);
      assert us[..k + 1] == us[..k] + [us[k]];
      assert Receipts(us[..k + 1]) == Receipts(us[..k]) + [Receipt(us[k], us[k].simTimestamp)];
      CleanPrefix(us, k + 1);
    }
  }

  lemma OneMoreGroup(journal: seq<seq<Entry>>, es: seq<Entry>)
    ensures AllBets(journal + [es]) == AllBets(journal) + BetsIn(es)
    ensures AllPriced(journal + [es]) == AllPriced(journal) + Priced(es)
  {
    assert (journal + [es])[..|journal|] == journal;
  }

  lemma OneMoreTimes(n: nat, markets: nat)
    ensures (n + 1) * markets == n * markets + markets
  {
  }

  /** A journal: for each group, an entry for each market, with the settings then in force. */
  ghost predicate JournalFor(lib: Library, betting: bool, locked: bool, us: seq<OddsUpdate>, books: nat, markets: nat,
                             s: Settings, arrivals: nat -> seq<Command>, gs: seq<Group>, journal: seq<seq<Entry>>)
    requires Clean(Receipts(us))
  {
    AllPages(Pages(lib, betting, locked, us, books, markets, s, arrivals), gs, journal)
  }

  /** Which pages may stand for which group. */
  ghost function Pages(lib: Library, betting: bool, locked: bool, us: seq<OddsUpdate>, books: nat, markets: nat,
                       s: Settings, arrivals: nat -> seq<Command>): (nat, Group, seq<Entry>) -> bool
    requires Clean(Receipts(us))
  {
    (t: nat, g: Group, es: seq<Entry>) => PageFor(lib, betting, locked, us, books, markets, s, arrivals, t, g, es)
  }

  ghost predicate AllPages(page: (nat, Group, seq<Entry>) -> bool, gs: seq<Group>, journal: seq<seq<Entry>>) {
    |journal| == |gs| && forall t: nat :: t < |gs| ==> page(t, gs[t], journal[t])
  }

  lemma OneMorePage(page: (nat, Group, seq<Entry>) -> bool, gs: seq<Group>, journal: seq<seq<Entry>>, g: Group,
                    es: seq<Entry>)
    requires AllPages(page, gs, journal) && page(|gs|, g, es)
    ensures AllPages(page, gs + [g], journal + [es])
  {
  }

  lemma PageOf(lib: Library, betting: bool, locked: bool, us: seq<OddsUpdate>, books: nat, markets: nat,
               s: Settings, arrivals: nat -> seq<Command>, gs: seq<Group>, journal: seq<seq<Entry>>, t: nat)
    requires Clean(Receipts(us)) && JournalFor(lib, betting, locked, us, books, markets, s, arrivals, gs, journal)
    requires t < |gs|
    ensures |journal| == |gs| && PageFor(lib, betting, locked, us, books, markets, s, arrivals, t, gs[t], journal[t])
  {
    assert Pages(lib, betting, locked, us, books, markets, s, arrivals)(t, gs[t], journal[t]);
  }

  /** What the journal holds for the t-th group. */
  ghost predicate PageFor(lib: Library, betting: bool, locked: bool, us: seq<OddsUpdate>, books: nat, markets: nat,
                          s: Settings, arrivals: nat -> seq<Command>, t: nat, g: Group, es: seq<Entry>)
    requires Clean(Receipts(us))
  {
    g.end <= |us| && GroupDone(lib, betting, us, books, markets, g, SettingsAfter(s, arrivals, locked, t + 1), es)
  }

  lemma PageDone(lib: Library, betting: bool, locked: bool, us: seq<OddsUpdate>, books: nat, markets: nat, s: Settings,
                 arrivals: nat -> seq<Command>, t: nat, g: Group, s': Settings, es: seq<Entry>)
    requires g.end <= |us| && Clean(Receipts(us)) && s' == SettingsAfter(s, arrivals, locked, t + 1)
    requires GroupDone(lib, betting, us, books, markets, g, s', es)
    ensures PageFor(lib, betting, locked, us, books, markets, s, arrivals, t, g, es)
  {
  }

  lemma {:induction false} JournalOneMore(lib: Library, betting: bool, locked: bool, us: seq<OddsUpdate>, books: nat,
                                          markets: nat, s: Settings, arrivals: nat -> seq<Command>, gs: seq<Group>,
                                          journal: seq<seq<Entry>>, g: Group, es: seq<Entry>)
    requires Clean(Receipts(us)) && JournalFor(lib, betting, locked, us, books, markets, s, arrivals, gs, journal)
    requires PageFor(lib, betting, locked, us, books, markets, s, arrivals, |gs|, g, es)
    ensures JournalFor(lib, betting, locked, us, books, markets, s, arrivals, gs + [g], journal + [es])
  {
    OneMorePage(Pages(lib, betting, locked, us, books, markets, s, arrivals), gs, journal, g, es);
  }

  lemma OneMoreEntry(before: seq<BetRecord>, es: seq<Entry>, e: Entry)
    ensures before + BetsIn(es + [e]) == before + BetsIn(es) + e.bets
    ensures Priced(es + [e]) == Priced(es) + if e.fair.hasFairPrice then 1 else 0
  {
    assert (es + [e])[..|es|] == es;
    assert before + (BetsIn(es) + e.bets) == before + BetsIn(es) + e.bets;
  }

  lemma OneMoreTrace(bits: real -> EightBytes, taken: bool, start: ReplayHash.Word, es: seq<Entry>, e: Entry)
    ensures DigestAfter(taken, DigestAfter(taken, start, Traces(bits, es)), Trace(bits, e.market, e.fair)) ==
      DigestAfter(taken, start, Traces(bits, es + [e]))
  {
    assert (es + [e])[..|es|] == es;
    DigestTwice(taken, start, Traces(bits, es), Trace(bits, e.market, e.fair));
  }

  lemma OneMoreGroupTrace(bits: real -> EightBytes, taken: bool, journal: seq<seq<Entry>>, es: seq<Entry>)
    ensures
      DigestAfter(taken, DigestAfter(taken, ReplayHash.OFFSET_BASIS, AllTraces(bits, journal)), Traces(bits, es)) ==
      DigestAfter(taken, ReplayHash.OFFSET_BASIS, AllTraces(bits, journal + [es]))
  {
    assert (journal + [es])[..|journal|] == journal;
    DigestTwice(taken, ReplayHash.OFFSET_BASIS, AllTraces(bits, journal), Traces(bits, es));
  }
}

/** What holds of every run of the engine, read off its journal. */
module EngineTheorems {
  import opened Basics
  import opened Messages
  import opened BookTable
  import opened EngineConfig
  import opened EngineTick
  import opened EngineLoop
  import Consensus
  import Generator
  import GeneratedSessions
  import Sums
  import ReplayHash

  /** The entry of group t and market m of a run. */
  ghost predicate InJournal(lib: Library, betting: bool, locked: bool, us: seq<OddsUpdate>, books: nat,
                            markets: nat, s: Settings,
                            arrivals: nat -> seq<Command>, journal: seq<seq<Entry>>, t: nat, m: nat)
    requires Clean(Receipts(us))
  {
    JournalFor(lib, betting, locked, us, books, markets, s, arrivals, Groups(us), journal) && t < |Groups(us)| &&
    m < markets
  }

  /** Every bet ever logged is on an outcome of a priced market, with a positive stake, at the consensus probability and
      at the best fresh price, which is at least 1.001; per market and tick the stakes stay within the exposure limit
      then in force, whatever commands came in before. */
  lemma EveryBetIsSound(lib: Library, betting: bool, locked: bool, us: seq<OddsUpdate>, books: nat, markets: nat,
                        s: Settings, arrivals: nat -> seq<Command>, journal: seq<seq<Entry>>, t: nat, m: nat)
    requires Clean(Receipts(us)) && InJournal(lib, betting, locked, us, books, markets, s, arrivals, journal, t, m)
    ensures |journal| == |Groups(us)| && |journal[t]| == markets
    ensures var e, g := journal[t][m], Groups(us)[t];
      AllSound(e.bets, g.ts, m, e.fair, e.best) && OneEach(e.bets, e.fair.count) &&
      (e.bets == [] || Sums.Sum(StakesOf(e.bets)) <= SettingsAfter(s, arrivals, locked, t + 1).maxExposure)
  {
    PageOf(lib, betting, locked, us, books, markets, s, arrivals, Groups(us), journal, t);
    var e := journal[t][m];
    assert EntryFor(lib, betting, us, books, Groups(us)[t], m, SettingsAfter(s, arrivals, locked, t + 1), e);
    if betting && e.fair.hasFairPrice {
      BetsWithinExposure(e.settings, e.group.ts, m, e.fair, e.best, e.bets);
    }
  }

  /** The price taken is one some book offers right now, and no book offers better. */
  lemma BetTakesBestPrice(qs: seq<CleanQuote>, ts: u64, staleAfter: u64, best: BestOdds, i: nat)
    requires AreBest(qs, ts, staleAfter, best) && i < MAX_OUTCOMES && best[i] >= MIN_ODDS_MILLI
    ensures exists b ::
      0 <= b < |qs| && !Stale(qs[b], ts, staleAfter) && i < qs[b].outcomeCount && qs[b].oddsMilli[i] == best[i]
    ensures forall b ::
      0 <= b < |qs| && !Stale(qs[b], ts, staleAfter) && i < qs[b].outcomeCount ==> qs[b].oddsMilli[i] <= best[i]
  {
    var b :| 0 <= b < |qs| && Offered(qs[b], ts, staleAfter, i) == best[i];
    assert qs[b].oddsMilli[i] == best[i];
    forall c | 0 <= c < |qs| && !Stale(qs[c], ts, staleAfter) && i < qs[c].outcomeCount
      ensures qs[c].oddsMilli[i] <= best[i]
    {
      assert Offered(qs[c], ts, staleAfter, i) <= best[i];
    }
  }

  /** Book b is fresh, and its devigged quote is among those averaged. */
  ghost predicate Contributes(e: Entry, b: nat) {
    b < |e.quotes| == |e.inputs| && !Stale(e.quotes[b], e.group.ts, StaleAfter(e.settings)) &&
    Consensus.Eligible(e.inputs[b]) && e.inputs[b] in Consensus.Chosen(e.inputs)
  }

  ghost predicate BoundsBelow(e: Entry, k: nat, b: nat)
    requires k < MAX_OUTCOMES
  {
    Contributes(e, b) && e.inputs[b].prob[k] <= e.fair.prob[k]
  }

  ghost predicate BoundsAbove(e: Entry, k: nat, b: nat)
    requires k < MAX_OUTCOMES
  {
    Contributes(e, b) && e.fair.prob[k] <= e.inputs[b].prob[k]
  }

  /** A consensus probability lies between those of two fresh books that were devigged by the method in force and count
      towards it. */
  lemma PriceLiesAmongBooks(lib: Library, betting: bool, e: Entry, k: nat)
    requires SoundEntry(lib, betting, e) && e.fair.hasFairPrice && k < e.fair.count
    ensures (exists b :: BoundsBelow(e, k, b)) && exists b :: BoundsAbove(e, k, b)
  {
    var chosen := Consensus.Chosen(e.inputs);
    assert Consensus.IsAverage(chosen, k, e.fair.prob[k]);
    var i :| 0 <= i < |chosen| && Consensus.Opinions(chosen, k)[i] <= e.fair.prob[k];
    var j :| 0 <= j < |chosen| && e.fair.prob[k] <= Consensus.Opinions(chosen, k)[j];
    var b := FreshSource(lib, e, chosen[i]);
    var c := FreshSource(lib, e, chosen[j]);
    assert BoundsBelow(e, k, b) && BoundsAbove(e, k, c);
  }

  lemma FreshSource(lib: Library, e: Entry, input: Consensus.BookInput) returns (b: nat)
    requires AllInputs(lib, e.settings, e.group.ts, e.quotes, e.inputs) && input in e.inputs
    requires Consensus.Eligible(input)
    ensures b < |e.quotes| && e.inputs[b] == input && !Stale(e.quotes[b], e.group.ts, StaleAfter(e.settings))
  {
    b :| 0 <= b < |e.inputs| && e.inputs[b] == input;
    assert InputFor(lib, e.settings, e.group.ts, e.quotes[b], e.inputs[b]);
  }

  /** While a replay digest is taken the settings of every group are the initial ones. */
  lemma {:induction false} LockedRunKeepsSettings(s: Settings, arrivals: nat -> seq<Command>, n: nat)
    ensures SettingsAfter(s, arrivals, true, n) == s
  {
    if n > 0 {
      LockedRunKeepsSettings(s, arrivals, n - 1);
      LockedNeverChanges(s, arrivals(n - 1));
    }
  }

  /** Two entries for the same quotes at the same time under the same settings have the same price, whether bets are
      wanted or not. */
  lemma SamePrice(lib: Library, betting: bool, betting': bool, e: Entry, e': Entry)
    requires lib.Valid() && SoundEntry(lib, betting, e) && SoundEntry(lib, betting', e')
    requires e.group == e'.group && e.settings == e'.settings && e.quotes == e'.quotes
    ensures e.fair == e'.fair
  {
    forall b | 0 <= b < |e.quotes| ensures e.inputs[b] == e'.inputs[b] {
      assert InputFor(lib, e.settings, e.group.ts, e.quotes[b], e.inputs[b]);
      assert InputFor(lib, e'.settings, e'.group.ts, e'.quotes[b], e'.inputs[b]);
      InputDetermined(lib, e.settings, e.group.ts, e.quotes[b], e.inputs[b], e'.inputs[b]);
    }
    assert e.inputs == e'.inputs;
    Consensus.FairPriceDetermined(e.inputs, e.fair, e'.fair);
  }

  lemma SameBest(qs: seq<CleanQuote>, ts: u64, staleAfter: u64, best: BestOdds, best': BestOdds)
    requires AreBest(qs, ts, staleAfter, best) && AreBest(qs, ts, staleAfter, best')
    ensures best == best'
  {
  }

  /** If both are wanted or both are not, they have the same bets as well. */
  lemma SameBets(betting: bool, e: Entry, e': Entry)
    requires BetsFollow(betting, e) && BetsFollow(betting, e') && e.fair == e'.fair
    requires e.group == e'.group && e.market == e'.market && e.settings == e'.settings && e.quotes == e'.quotes
    ensures e.bets == e'.bets
  {
    SameBest(e.quotes, e.group.ts, StaleAfter(e.settings), e.best, e'.best);
    if betting && e.fair.hasFairPrice {
      BetsDetermined(e.settings, e.group.ts, e.market, e.fair, e.best, e.bets, e'.bets);
    }
  }

  /** The pages of two runs for the same group put the same bytes into the digest, and log the same bets. */
  lemma SamePage(lib: Library, betting: bool, betting': bool, us: seq<OddsUpdate>, books: nat, markets: nat,
                 g: Group, s: Settings, es: seq<Entry>, es': seq<Entry>)
    requires lib.Valid() && Clean(Receipts(us)) && g.end <= |us|
    requires GroupDone(lib, betting, us, books, markets, g, s, es)
    requires GroupDone(lib, betting', us, books, markets, g, s, es')
    ensures Traces(lib.bits, es) == Traces(lib.bits, es') && (betting == betting' ==> BetsIn(es) == BetsIn(es'))
  {
    forall m | 0 <= m < markets ensures es[m].market == es'[m].market && es[m].fair == es'[m].fair {
      assert EntryFor(lib, betting, us, books, g, m, s, es[m]) && EntryFor(lib, betting', us, books, g, m, s, es'[m]);
      SamePrice(lib, betting, betting', es[m], es'[m]);
    }
    SameTraces(lib.bits, es, es');
    if betting == betting' {
      forall m | 0 <= m < markets ensures es[m].bets == es'[m].bets {
        assert EntryFor(lib, betting, us, books, g, m, s, es[m]) && EntryFor(lib, betting, us, books, g, m, s, es'[m]);
        SameBets(betting, es[m], es'[m]);
      }
      SameBetsIn(es, es');
    }
  }

  lemma {:induction false} SameBetsIn(es: seq<Entry>, es': seq<Entry>)
    requires |es| == |es'| && forall m :: 0 <= m < |es| ==> es[m].bets == es'[m].bets
    ensures BetsIn(es) == BetsIn(es')
  {
    if es != [] {
      SameBetsIn(es[..|es| - 1], es'[..|es'| - 1]);
    }
  }

  lemma {:induction false} SameAllBets(journal: seq<seq<Entry>>, journal': seq<seq<Entry>>)
    requires |journal| == |journal'| && forall t :: 0 <= t < |journal| ==> BetsIn(journal[t]) == BetsIn(journal'[t])
    ensures AllBets(journal) == AllBets(journal')
  {
    if journal != [] {
      SameAllBets(journal[..|journal| - 1], journal'[..|journal'| - 1]);
    }
  }

  lemma {:induction false} SameTraces(bits: real -> EightBytes, es: seq<Entry>, es': seq<Entry>)
    requires |es| == |es'| && forall m :: 0 <= m < |es| ==> es[m].market == es'[m].market && es[m].fair == es'[m].fair
    ensures Traces(bits, es) == Traces(bits, es')
  {
    if es != [] {
      SameTraces(bits, es[..|es| - 1], es'[..|es'| - 1]);
    }
  }

  lemma {:induction false} SameAllTraces(bits: real -> EightBytes, journal: seq<seq<Entry>>, journal': seq<seq<Entry>>)
    requires |journal| == |journal'|
    requires forall t :: 0 <= t < |journal| ==> Traces(bits, journal[t]) == Traces(bits, journal'[t])
    ensures AllTraces(bits, journal) == AllTraces(bits, journal')
  {
    if journal != [] {
      SameAllTraces(bits, journal[..|journal| - 1], journal'[..|journal'| - 1]);
    }
  }

  /** Replay: two runs over the same records from the same settings that take a digest take the same one,
      whatever commands arrive at either of them and whether or not they bet; if both bet, they log the same bets. */
  lemma ReplayDetermined(lib: Library, betting: bool, betting': bool, us: seq<OddsUpdate>, books: nat, markets: nat,
                         s: Settings, arrivals: nat -> seq<Command>, arrivals': nat -> seq<Command>,
                         journal: seq<seq<Entry>>, journal': seq<seq<Entry>>)
    requires lib.Valid() && Clean(Receipts(us))
    requires JournalFor(lib, betting, true, us, books, markets, s, arrivals, Groups(us), journal)
    requires JournalFor(lib, betting', true, us, books, markets, s, arrivals', Groups(us), journal')
    ensures AllTraces(lib.bits, journal) == AllTraces(lib.bits, journal')
    ensures betting == betting' ==> AllBets(journal) == AllBets(journal')
  {
    var gs := Groups(us);
    AsManyPages(lib, betting, true, us, books, markets, s, arrivals, gs, journal);
    AsManyPages(lib, betting', true, us, books, markets, s, arrivals', gs, journal');
    forall t | 0 <= t < |journal|
      ensures Traces(lib.bits, journal[t]) == Traces(lib.bits, journal'[t])
      ensures betting == betting' ==> BetsIn(journal[t]) == BetsIn(journal'[t])
    {
      SamePageAt(lib, betting, betting', us, books, markets, s, arrivals, arrivals', gs, journal, journal', t);
    }
    SameAllTraces(lib.bits, journal, journal');
    if betting == betting' { SameAllBets(journal, journal'); }
  }

  lemma AsManyPages(lib: Library, betting: bool, locked: bool, us: seq<OddsUpdate>, books: nat, markets: nat,
                    s: Settings, arrivals: nat -> seq<Command>, gs: seq<Group>, journal: seq<seq<Entry>>)
    requires Clean(Receipts(us)) && JournalFor(lib, betting, locked, us, books, markets, s, arrivals, gs, journal)
    ensures |journal| == |gs|
  {
  }

  lemma SamePageAt(lib: Library, betting: bool, betting': bool, us: seq<OddsUpdate>, books: nat, markets: nat,
                   s: Settings, arrivals: nat -> seq<Command>, arrivals': nat -> seq<Command>, gs: seq<Group>,
                   journal: seq<seq<Entry>>, journal': seq<seq<Entry>>, t: nat)
    requires lib.Valid() && Clean(Receipts(us)) && t < |gs| == |journal| == |journal'|
    requires JournalFor(lib, betting, true, us, books, markets, s, arrivals, gs, journal)
    requires JournalFor(lib, betting', true, us, books, markets, s, arrivals', gs, journal')
    ensures Traces(lib.bits, journal[t]) == Traces(lib.bits, journal'[t])
    ensures betting == betting' ==> BetsIn(journal[t]) == BetsIn(journal'[t])
  {
    PageOf(lib, betting, true, us, books, markets, s, arrivals, gs, journal, t);
    PageOf(lib, betting', true, us, books, markets, s, arrivals', gs, journal', t);
    LockedRunKeepsSettings(s, arrivals, t + 1);
    LockedRunKeepsSettings(s, arrivals', t + 1);
    SamePage(lib, betting, betting', us, books, markets, gs[t], s, journal[t], journal'[t]);
  }

  /** Different numbers are laid out differently. */
  ghost predicate Injective(bits: real -> EightBytes) { forall x, y :: bits(x) == bits(y) ==> x == y }

  lemma {:induction false} NumbersTakeEightBytes(bits: real -> EightBytes, p: seq<real>)
    ensures |NumberBytes(bits, p)| == 8 * |p|
  {
    if p != [] { NumbersTakeEightBytes(bits, p[..|p| - 1]); }
  }

  lemma {:induction false} NumbersReadBack(bits: real -> EightBytes, p: seq<real>, p': seq<real>)
    requires Injective(bits) && |p| == |p'| && NumberBytes(bits, p) == NumberBytes(bits, p')
    ensures p == p'
  {
    if p != [] {
      var m := |p| - 1;
      NumbersTakeEightBytes(bits, p[..m]);
      NumbersTakeEightBytes(bits, p'[..m]);
      SplitAtSame(NumberBytes(bits, p[..m]), bits(p[m]), NumberBytes(bits, p'[..m]), bits(p'[m]));
      NumbersReadBack(bits, p[..m], p'[..m]);
      assert bits(p[m]) == bits(p'[m]) && p[m] == p'[m];
      assert p == p[..m] + [p[m]] && p' == p'[..m] + [p'[m]];
    }
  }

  lemma SplitAtSame(a: seq<bv8>, b: seq<bv8>, a': seq<bv8>, b': seq<bv8>)
    requires |a| == |a'| && a + b == a' + b'
    ensures a == a' && b == b'
  {
    assert a == (a + b)[..|a|] && b == (a + b)[|a|..] && a' == (a' + b')[..|a|] && b' == (a' + b')[|a|..];
  }

  /** What a priced market adds to the digest tells its number modulo 2^16, how many outcomes it has, and their
      probabilities. */
  lemma TraceTellsPrice(bits: real -> EightBytes, m: nat, fair: Consensus.ConsensusResult, m': nat,
                        fair': Consensus.ConsensusResult)
    requires Injective(bits) && fair.hasFairPrice && fair'.hasFairPrice
    requires Trace(bits, m, fair) == Trace(bits, m', fair')
    ensures m % 0x1_0000 == m' % 0x1_0000 && fair.count == fair'.count
    ensures fair.prob[..fair.count] == fair'.prob[..fair'.count]
  {
    var p, p' := fair.prob[..fair.count], fair'.prob[..fair'.count];
    var head, head' := MarketBytes(m) + [CountByte(fair.count)], MarketBytes(m') + [CountByte(fair'.count)];
    TraceParts(bits, m, fair);
    TraceParts(bits, m', fair');
    SplitAtSame(head, NumberBytes(bits, p), head', NumberBytes(bits, p'));
    SplitAtSame(MarketBytes(m), [CountByte(fair.count)], MarketBytes(m'), [CountByte(fair'.count)]);
    ReplayHash.BytesIdentify(m % 0x1_0000, m' % 0x1_0000);
    CountReadBack(fair.count, fair'.count);
    NumbersReadBack(bits, p, p');
  }

  lemma TraceParts(bits: real -> EightBytes, m: nat, fair: Consensus.ConsensusResult)
    requires fair.hasFairPrice
    ensures |MarketBytes(m)| == 2
    ensures Trace(bits, m, fair) ==
      MarketBytes(m) + [CountByte(fair.count)] + NumberBytes(bits, fair.prob[..fair.count])
  {
    ReplayHash.ByteParts(m % 0x1_0000);
  }

  lemma CountReadBack(n: Consensus.Count, n': Consensus.Count)
    requires [CountByte(n)] == [CountByte(n')]
    ensures n == n'
  {
    ByteRoundTrip(n);
    ByteRoundTrip(n');
    assert [CountByte(n)][0] == [CountByte(n')][0];
  }

  /** Settings that start in range stay in range at every group, whatever commands arrive when. */
  lemma {:induction false} SettingsStayInRange(s: Settings, arrivals: nat -> seq<Command>, locked: bool, n: nat)
    requires SettingsInRange(s)
    ensures SettingsInRange(SettingsAfter(s, arrivals, locked, n))
  {
    if n > 0 {
      SettingsStayInRange(s, arrivals, locked, n - 1);
      CommandsKeepRange(SettingsAfter(s, arrivals, locked, n - 1), arrivals(n - 1), locked);
    }
  }

  /** All commands that came in before each of the first n groups, in order. */
  function CommandsBefore(arrivals: nat -> seq<Command>, n: nat): seq<Command> {
    if n == 0 then [] else CommandsBefore(arrivals, n - 1) + arrivals(n - 1)
  }

  lemma {:induction false} SettingsAreOfCommands(s: Settings, arrivals: nat -> seq<Command>, locked: bool, n: nat)
    ensures SettingsAfter(s, arrivals, locked, n) == AfterCommands(s, CommandsBefore(arrivals, n), locked)
  {
    if n > 0 {
      SettingsAreOfCommands(s, arrivals, locked, n - 1);
      CommandsJoined(s, CommandsBefore(arrivals, n - 1), arrivals(n - 1), locked);
    }
  }

  /** The i-th of the commands sets the key, and none after it does. */
  ghost predicate LastWord(cs: seq<Command>, i: nat, key: string) {
    i < |cs| && Sets(cs[i], key) && forall j :: i < j < |cs| ==> !Sets(cs[j], key)
  }

  /** A command is in force from the group it arrives before until a later one sets the same key: of all commands that
      came in before a group was priced, the last that sets a key decides that setting there. */
  lemma LastCommandInForce(lib: Library, betting: bool, us: seq<OddsUpdate>, books: nat, markets: nat, s: Settings,
                           arrivals: nat -> seq<Command>, journal: seq<seq<Entry>>, t: nat, m: nat, i: nat,
                           key: string)
    requires Clean(Receipts(us)) && InJournal(lib, betting, false, us, books, markets, s, arrivals, journal, t, m)
    requires LastWord(CommandsBefore(arrivals, t + 1), i, key)
    ensures |journal| == |Groups(us)| && |journal[t]| == markets
    ensures Granted(journal[t][m].settings, CommandsBefore(arrivals, t + 1)[i], key)
  {
    SettingsOfEntry(lib, betting, false, us, books, markets, s, arrivals, journal, t, m);
    LastWordDecides(s, arrivals, t + 1, i, key);
  }

  lemma SettingsOfEntry(lib: Library, betting: bool, locked: bool, us: seq<OddsUpdate>, books: nat, markets: nat,
                        s: Settings, arrivals: nat -> seq<Command>, journal: seq<seq<Entry>>, t: nat, m: nat)
    requires Clean(Receipts(us)) && InJournal(lib, betting, locked, us, books, markets, s, arrivals, journal, t, m)
    ensures |journal| == |Groups(us)| && |journal[t]| == markets
    ensures journal[t][m].settings == SettingsAfter(s, arrivals, locked, t + 1)
  {
    PageOf(lib, betting, locked, us, books, markets, s, arrivals, Groups(us), journal, t);
    var s' := SettingsAfter(s, arrivals, locked, t + 1);
    assert EntryFor(lib, betting, us, books, Groups(us)[t], m, s', journal[t][m]);
  }

  lemma LastWordDecides(s: Settings, arrivals: nat -> seq<Command>, n: nat, i: nat, key: string)
    requires LastWord(CommandsBefore(arrivals, n), i, key)
    ensures Granted(SettingsAfter(s, arrivals, false, n), CommandsBefore(arrivals, n)[i], key)
  {
    SettingsAreOfCommands(s, arrivals, false, n);
    LastCommandDecides(s, CommandsBefore(arrivals, n), i, key);
  }

  /** u is a record for the slot among the first n, with the highest number of them, and none before it as high. */
  ghost predicate NewestRecord(us: seq<OddsUpdate>, n: nat, market: nat, book: nat, i: nat) {
    i < n <= |us| && Names(us[i], market, book) &&
    forall j :: 0 <= j < n && Names(us[j], market, book) ==>
      us[j].seqNo <= us[i].seqNo && (j < i ==> us[j].seqNo < us[i].seqNo)
  }

  /** The quote is the newest record for the slot among the first n, or there is no such record and no quote. */
  ghost predicate IsNewestQuote(us: seq<OddsUpdate>, n: nat, market: nat, book: nat, q: Quote)
    requires n <= |us|
  {
    if forall i :: 0 <= i < n ==> !Names(us[i], market, book) then q.seqNo == 0xFFFF_FFFF_FFFF_FFFF
    else exists i: nat :: NewestRecord(us, n, market, book, i) && QuoteIs(q, us[i])
  }

  ghost predicate QuoteIs(q: Quote, u: OddsUpdate) {
    q.oddsMilli == u.oddsMilli && q.outcomeCount == u.outcomeCount && q.seqNo == u.seqNo &&
    q.recvTimestamp == u.simTimestamp
  }

  /** What a group is priced from: for every market and book the prices, count, number and time of the newest record up
      to the end of the group, which is where the timestamps change. */
  lemma QuotesAreNewest(lib: Library, betting: bool, locked: bool, us: seq<OddsUpdate>, books: nat, markets: nat,
                        s: Settings, arrivals: nat -> seq<Command>, journal: seq<seq<Entry>>, t: nat, m: nat, b: nat,
                        g: Group)
    requires Clean(Receipts(us)) && InJournal(lib, betting, locked, us, books, markets, s, arrivals, journal, t, m)
    requires b < books && g == Groups(us)[t] && forall i :: 0 <= i < |us| ==> us[i].seqNo < 0xFFFF_FFFF_FFFF_FFFF
    ensures |journal| == |Groups(us)| && |journal[t]| == markets && |journal[t][m].quotes| == books
    ensures 0 < g.end <= |us| && us[g.end - 1].simTimestamp == g.ts
    ensures g.end < |us| ==> us[g.end].simTimestamp != g.ts
    ensures IsNewestQuote(us, g.end, m, b, journal[t][m].quotes[b])
  {
    PageOf(lib, betting, locked, us, books, markets, s, arrivals, Groups(us), journal, t);
    assert EntryFor(lib, betting, us, books, g, m, SettingsAfter(s, arrivals, locked, t + 1), journal[t][m]);
    GroupsAreRuns(us);
    QuoteAfterPrefix(us, g.end, m, b);
  }

  lemma QuoteAfterPrefix(us: seq<OddsUpdate>, n: nat, m: nat, b: nat)
    requires n <= |us| && forall i :: 0 <= i < |us| ==> us[i].seqNo < 0xFFFF_FFFF_FFFF_FFFF
    ensures IsNewestQuote(us, n, m, b, SlotAfter(Receipts(us[..n]), m, b))
  {
    var h := Receipts(us[..n]);
    var q := SlotAfter(h, m, b);
    SlotFieldByField(h, m, b);
    forall i | 0 <= i < n ensures h[i].update == us[i] && h[i].recvNs == us[i].simTimestamp {}
    if exists i: nat :: Shows(h, m, b, q, i) {
      var i: nat :| Shows(h, m, b, q, i);
      assert NewestRecord(us, n, m, b, i) && QuoteIs(q, us[i]);
    }
  }

  /** Generated sessions are records the engine can take. */
  lemma GeneratedIsClean(w: Generator.World, ticks: nat, us: seq<OddsUpdate>)
    requires w.Valid() && Generator.AllGenuine(w, us, Generator.TicksUpTo(w, ticks))
    ensures Clean(Receipts(us))
  {
    forall i | 0 <= i < |us| ensures us[i].outcomeCount <= MAX_OUTCOMES {
      assert Generator.Genuine(w, us[i], Generator.TicksUpTo(w, ticks)[i]);
    }
  }

  /** From world to digest: two sessions generated from the same world, each replayed by an engine with the same
      settings, end with the same digest, and log the same bets if both bet. */
  lemma SameWorldSameDigest(w: Generator.World, ticks: nat, us: seq<OddsUpdate>, us': seq<OddsUpdate>,
                            lib: Library, betting: bool, betting': bool, books: nat, s: Settings,
                            arrivals: nat -> seq<Command>, arrivals': nat -> seq<Command>,
                            journal: seq<seq<Entry>>, journal': seq<seq<Entry>>)
    requires w.Valid() && lib.Valid()
    requires Generator.AllGenuine(w, us, Generator.TicksUpTo(w, ticks))
    requires Generator.AllGenuine(w, us', Generator.TicksUpTo(w, ticks))
    requires
      (GeneratedIsClean(w, ticks, us);
       JournalFor(lib, betting, true, us, books, w.markets, s, arrivals, Groups(us), journal))
    requires
      (GeneratedIsClean(w, ticks, us');
       JournalFor(lib, betting', true, us', books, w.markets, s, arrivals', Groups(us'), journal'))
    ensures ReplayHash.Digest(ReplayHash.OFFSET_BASIS, AllTraces(lib.bits, journal)) ==
      ReplayHash.Digest(ReplayHash.OFFSET_BASIS, AllTraces(lib.bits, journal'))
    ensures betting == betting' ==> AllBets(journal) == AllBets(journal')
  {
    GeneratedIsClean(w, ticks, us);
    GeneratedSessions.GenerationDetermined(w, ticks, us, us');
    ReplayDetermined(lib, betting, betting', us, books, w.markets, s, arrivals, arrivals', journal, journal');
  }

  /** The engine program: refuse a feed too large for the table, otherwise run over all its records. */
  method RunEngine(lib: Library, markets: u32, books: u32, settings: Settings, betting: bool, locked: bool,
                   us: seq<OddsUpdate>, arrivals: nat -> seq<Command>)
    returns (refused: bool, consensusCount: nat, noPriceCount: nat, bets: seq<BetRecord>, digest: ReplayHash.Word,
             ghost journal: seq<seq<Entry>>)
    requires lib.Valid() && Clean(Receipts(us))
    ensures refused <==> markets > 1024 || books > 16
    ensures !refused ==>
      JournalFor(lib, betting, locked, us, books, markets, settings.(changes := 0), arrivals, Groups(us), journal)
    ensures !refused ==> consensusCount == AllPriced(journal) && consensusCount + noPriceCount == |Groups(us)| * markets
    ensures !refused ==> bets == AllBets(journal)
    ensures !refused && locked ==> digest == ReplayHash.Digest(ReplayHash.OFFSET_BASIS, AllTraces(lib.bits, journal))
  {
    journal := [];
    refused := markets > 1024 || books > 16;
    consensusCount, noPriceCount, bets, digest := 0, 0, [], ReplayHash.OFFSET_BASIS;
    if refused { return; }
    var engine := new Engine(lib, markets, books, settings, betting, locked);
    journal := engine.Run(us, arrivals);
    consensusCount, noPriceCount, bets := engine.consensusCount, engine.noPriceCount, engine.bets;
    digest := engine.hash.state;
  }
}

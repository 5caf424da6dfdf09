# Odds engine: a verified model

This Dafny project models the deterministic core of an odds engine and of the simulator that feeds it, and proves what
they promise. A quote is generated by a simulated book, numbered and batched into datagrams, sent over a network that may
drop, repeat and reorder them, filtered by a sequence-gated table, stripped of its margin, averaged into a consensus price,
and turned into a stake. A WebSocket control channel changes settings on the way, and a replay digest fingerprints the run.

| part | modules |
|---|---|
| margin removal (multiplicative, power, Shin) | `Devig`, `Shin`, `Power` |
| Kelly allocation | `Kelly`, `KellyPrefix`, `KellyAllocator`, `KellyOptimality`, `KellyTheorems`, `KellyExcess` |
| live feed | `UdpFraming`, `UdpSink`, `LossAccounting`, `UdpSource`, `BookTable`, `LiveFeed` |
| control channel | `WsFrames`, `WsStreams`, `WsServer`, `WsClient` |
| generation and its verifier | `Seeding`, `Bookmaker`, `MarginRoundTrip`, `Generator`, `SimMain`, `SessionCheck`, `GeneratedSessions` |
| engine loop | `Consensus`, `EngineConfig`, `EngineTick`, `EngineLoop`, `EngineTheorems`, `MarketTheorems`, `ReplayHash` |
| common | `Basics`, `Messages`, `Reals`, `Sums` |

Code that changes state in the source is imperative here: classes with the source's fields, in-place arrays, loops with
invariants. Each such method is proved against a function or predicate over values, and the theorems are about those. Ghost
fields hold histories only (what was sent, offered, observed or received). Numbers the source keeps in doubles are exact
reals; sequence numbers, timestamps, seeds and hash states have their 64-bit width.

The library functions `sqrt`, `exp`, `log` and `pow` are parameters with stated laws: `sqrt` squares back on non-negative
arguments; `exp` turns sums into products and lies strictly above its tangent at 0; `log` is a right inverse of `exp`; powers
of positive numbers are positive (where the margin falls is proved for a `pow` that also turns products into products, has
pow(x, 1) = x, and falls as the exponent grows when the base is below one). The logarithm in the Kelly
theorems is any function L with L(xy) = L(x) + L(y) and L(x) <= x - 1.

## What the proofs found

- The comment at `engine/Devig.hpp:204-208` says the Shin root is bracketed for every valid input. The bracket stops at
  1 - 1e-9, and near-certain books have their root above it. The exact condition is g(1 - 1e-9) <= 0; every book with odds of
  at least 1.001, the least a quote can carry, meets it.
- The comment at `engine/Devig.hpp:124-126` says the same of `power`. Its doubling search stops at 1024, and the method gives
  up exactly when the probabilities raised to 1024 still total more than one. Odds of at least 1.001 do not prevent that:
  three prices of 1.001 are legal quotes and give up, while one or two such prices never do.
- Seeds stay distinct within a run only up to 16778 markets, while `sim/main.cpp:83` accepts 65535: from then on a book's
  index, market * 1000 + book, reaches the next domain.
- An update numbered 2^64 - 1 is applied but leaves its slot looking empty. In a feed whose numbers identify its updates the
  order of arrival matters exactly when such an update meets a different one for its slot. A generated session contains none
  as long as its numbers fit in 64 bits.
- The receiver's 64-bit accounting is exact across the point where numbers start again only while arrivals stay in step: a
  datagram that comes only after it raises the loss, and once number 2^64 - 1 itself is lost those that follow, numbered below
  the expected one, all count as reordered.
- A datagram of more than 1040 bytes is cut to that length by the receive buffer and then passes for data if it counts 16
  records; every other length that does not fit its header is refused.
- A client that asked for the page can still be upgraded while part of the page waits to be sent
  (`engine/WsServer.hpp:350-352`): it opens, loses the rest of the page, and dies at the first full drain.
- `tools/ws_cmd.py:59-64` drops what a read brings beyond the handshake response. It then reads every frame exactly when its
  reads ended where the response did.

## Model

| member | source | states |
|---|---|---|
| `Devig.NoMargin` | engine/Devig.hpp:93-101 | with a book sum of at most one the raw implied probabilities come back unchanged, flagged as not a distribution |
| `Devig.Multiplicative` | engine/Devig.hpp:104-116 | invalid odds give the zeroed result, no margin gives `NoMargin`; every other book gives an Ok distribution in which each outcome keeps exactly the share q/B, strictly below q, and the shares total one |
| `Devig.EqualSharesUnique` | engine/Devig.hpp:112-112 | those shares are the only ones: no other probabilities are in proportion to q and total one |
| `Devig.StopsOnce` | engine/Devig.hpp:166-184 | a solver loop that stops at the first point within tolerance, or after its iteration limit, has exactly one status and one iteration count |
| `Devig.TiltedLongshot` | engine/Devig.hpp:120-122 | when p/q never falls as q grows, the longest shot gets at most its multiplicative share of the total |
| `Devig.TiltedFavourite` | engine/Devig.hpp:120-122 | and the favourite at least its share |
| `Shin.ShinProbIsRoot` | engine/Devig.hpp:191-197 | the closed form is the unique non-negative root of (1-z)p^2 + zp = q^2/B |
| `Shin.ShinProbRange` | engine/Devig.hpp:224-230 | at every z in [0,1) each probability lies strictly between 0 and the raw implied probability |
| `Shin.ShinProbSlope` | engine/Devig.hpp:224-230 | raising z strictly lowers each probability, by at most half the change in z |
| `Shin.ShinExcessFalls` | engine/Devig.hpp:231-237 | g is strictly decreasing on [0,1) for every book with margin |
| `Shin.ShinExcessSlope` | engine/Devig.hpp:231-237 | for at most four outcomes g falls by at most twice the change in z |
| `Shin.ShinRootUnique` | engine/Devig.hpp:197-197 | g has at most one root |
| `Shin.ShinExcessAtLargeZ` | engine/Devig.hpp:204-208 | g(z) is not positive once z reaches every raw probability |
| `Shin.ShinSymmetricRoot` | engine/Devig.hpp:231-237 | for n equal prices the root is exactly (B-1)/(n-1) and every outcome gets 1/n |
| `Shin.ShinTilted` | engine/Devig.hpp:224-230 | at every z, p/q never falls as q grows |
| `Shin.BracketHalves` | engine/Devig.hpp:258-259 | each step keeps g(lo) >= 0 >= g(hi) and halves the width |
| `Shin.Converged` | engine/Devig.hpp:249-257 | once the width is below the tolerance, the midpoint is within the tolerance |
| `Shin.Bisect` | engine/Devig.hpp:246-260 | the loop stops at the first midpoint within tolerance, after at most m+1 iterations when m halvings of 1-1e-9 are narrower than the tolerance |
| `Shin.Shin` | engine/Devig.hpp:209-265 | guards as in the other methods; the answer is the probabilities at the first midpoint within tolerance; with the default settings it is Ok exactly when g(1-1e-9) <= 0, in at most 51 iterations |
| `Shin.ShinDetermined` | engine/Devig.hpp:209-265 | the contract of `Shin` is complete: any two answers that meet it agree |
| `Shin.ShinAnswer` | engine/Devig.hpp:253-257 | an Ok answer totals one within the tolerance, keeps every p in (0,q), tilts towards favourites, and compares with the multiplicative shares up to (1 + tolerance) and (1 - tolerance) |
| `Shin.BettableOddsAreBracketed` | engine/Devig.hpp:239-244 | for odds of at least 1.001, g(1-1e-9) <= 0, so NotConverged cannot be reached |
| `Shin.NearCertainBookIsNotBracketed` | engine/Devig.hpp:204-208 | two odds of 1.0000000001 are valid and have margin, yet g(1-1e-9) > 0: the claim that every valid input is bracketed is false |
| `Power.Falls` | engine/Devig.hpp:124-126 | f is strictly decreasing from 1 on |
| `Power.Tangent` | engine/Devig.hpp:142-151 | f lies strictly above each of its tangents: strict convexity |
| `Power.StepKeepsBracket` | engine/Devig.hpp:176-183 | every iteration keeps f(lo) > 0 >= f(hi) and lo < k < hi, and the bracket strictly shrinks |
| `Power.PositiveStep` | engine/Devig.hpp:178-183 | once f(k) > 0 the Newton point is taken as it is, lies strictly further right inside the bracket, and has f > 0 again |
| `Power.PositivePhase` | engine/Devig.hpp:166-184 | so from the first such iterate on, for ever, the iterates increase and bisection never happens again |
| `Power.NewtonQuarters` | engine/Devig.hpp:178-179 | in that phase the product of f and the size of its slope falls below a quarter at every step |
| `Power.SearchConverges` | engine/Devig.hpp:163-184 | from every bracket the doubling search can find, one of the first 91 trial points is within 1e-13 |
| `Power.FindTop` | engine/Devig.hpp:155-158 | the doubling search succeeds exactly when f(1024) <= 0 and then returns the first of 2, 4, ..., 1024 at which f is not positive |
| `Power.TopUnique` | engine/Devig.hpp:155-157 | that bracket end is unique |
| `Power.TryPoint` | engine/Devig.hpp:167-183 | one iteration is the step function whose properties are proved above |
| `Power.Solve` | engine/Devig.hpp:163-184 | the loop stops at the first trial point within tolerance, or after the limit |
| `Power.Power` | engine/Devig.hpp:130-189 | guards as in the other methods; with the default settings the answer is Ok exactly when f(1024) <= 0, in at most 91 iterations |
| `Power.PowerDetermined` | engine/Devig.hpp:130-189 | the contract of `Power` is complete: any two answers that meet it agree |
| `Power.PowerTilted` | engine/Devig.hpp:120-122 | for every exponent of at least one, p/q never falls as q grows |
| `Power.PowerAnswer` | engine/Devig.hpp:170-174 | an Ok answer totals one within the tolerance, tilts towards favourites, and compares with the multiplicative shares up to (1 + tolerance) and (1 - tolerance) |
| `Power.WideBooksAreBracketed` | engine/Devig.hpp:155-158 | for any number of outcomes, f(1024) <= 0 whenever 1024 (1 - q) reaches the number of outcomes less one for every q |
| `Power.TwoBettablePricesAreBracketed` | engine/Devig.hpp:155-158 | so one or two odds of at least 1.001 are always bracketed |
| `Power.ThreeShortPricesAreNotBracketed` | engine/Devig.hpp:124-126 | three odds of 1.001, legal quotes with margin, are not: f(1024) > 0, so the claim that bracketing is unconditionally safe is false |
| `Kelly.ReserveUnique` | engine/Kelly.hpp:97-97 | a market has at most one reserve rate R at which the stakes max(0, p - R/o) total 1 - R with a betting set that is no sure thing |
| `Kelly.RelabelStakes` | engine/Kelly.hpp:109-119 | relabelling the outcomes keeps the reserve rate and relabels the stakes |
| `KellyPrefix.AdmissibleDownward` | engine/Kelly.hpp:83-104 | admissible prefix lengths are downward closed, R strictly falls along them, and a member beats the rate with it exactly when it beats the rate without it |
| `KellyPrefix.AdmissibleRateBelowOne` | engine/Kelly.hpp:97-103 | an admissible prefix has R < 1 |
| `KellyPrefix.OutsidersDoNot` | engine/Kelly.hpp:83-104 | with beliefs totalling at most one, no outcome outside the longest admissible prefix beats its rate, also where a prefix was skipped because its denominator is not positive |
| `KellyPrefix.ChosenRateIsReserve` | engine/Kelly.hpp:85-107 | the rate of the longest admissible prefix, or one if there is none, is the reserve rate, and lies in [0,1] |
| `KellyAllocator.SortByEdge` | engine/Kelly.hpp:70-81 | the insertion sort leaves a permutation along which p*o falls and equal values keep their order |
| `KellyAllocator.SortedUnique` | engine/Kelly.hpp:70-81 | there is only one such order |
| `KellyAllocator.Insert` | engine/Kelly.hpp:72-81 | one pass sorts one more entry, keeps the entries, and leaves the rest alone |
| `KellyAllocator.BestPrefix` | engine/Kelly.hpp:87-104 | the downward scan finds the longest admissible prefix and its rate |
| `KellyAllocator.PlaceStakes` | engine/Kelly.hpp:109-119 | each stake lands at its own outcome, with their total and their number |
| `KellyAllocator.ScaleAndCap` | engine/Kelly.hpp:121-129 | fractional scaling and the cap keep the proportions, and the total is the smaller of the scaled total and the cap |
| `KellyAllocator.FloorNeverFires` | engine/Kelly.hpp:115-115 | with beliefs totalling at most one the floor at zero changes nothing |
| `KellyAllocator.PrefixIsKelly` | engine/Kelly.hpp:83-119 | staking the longest admissible prefix of any order of falling p*o is Kelly at the reserve rate, with no order in sight |
| `KellyAllocator.Allocate` | engine/Kelly.hpp:52-133 | nothing is allocated unless there are one to four outcomes with as many prices, no belief is negative, every price is above one, and fraction and cap are positive; otherwise there is a bet exactly when some p*o > 1, whatever the beliefs total; the longest admissible prefix of that order is staked, within the cap; with beliefs totalling at most one the stakes are proportional to the full Kelly stakes and `bets` counts the outcomes that beat the reserve |
| `KellyAllocator.BetsOnAnEdge` | engine/Kelly.hpp:83-107 | a prefix is chosen, and something staked, exactly when one outcome by itself has p*o > 1 |
| `KellyTheorems.AnswerInFull` | engine/Kelly.hpp:109-133 | in plain terms, for beliefs totalling at most one: the total is the Kelly fraction of 1 - R, or the cap if that is less, and it is split in proportion to p - R/o among the outcomes with p*o > R |
| `KellyOptimality.KellyOptimal` | engine/Kelly.hpp:7-18 | for any number of outcomes, beliefs totalling at most one and every portfolio without leverage, the sum of p*W'/W over possible outcomes is at most one, also at R = 0 |
| `KellyOptimality.KellyNearlyOptimal` | engine/Kelly.hpp:7-18 | for beliefs of any total and R > 0 that sum exceeds one by at most the unstaked share of the competitor times what the beliefs exceed one, over R |
| `KellyOptimality.KellyMaximisesLogWealth` | engine/Kelly.hpp:7-18 | hence no solvent portfolio has a higher expected log wealth, beyond what the beliefs fall short of one, for every L with L(xy) = L(x) + L(y) and L(x) <= x - 1 |
| `KellyOptimality.KellyGrows` | engine/Kelly.hpp:7-18 | full Kelly loses at most what the beliefs fall short of one; with beliefs totalling one it never loses |
| `KellyOptimality.FractionKeepsGrowth` | engine/Kelly.hpp:121-129 | staking a fraction c of any solvent portfolio stays solvent and keeps at least c times its expected log growth |
| `KellyTheorems.FullKellyStakes` | engine/Kelly.hpp:109-133 | at Kelly fraction one with a cap that does not bind, the returned stakes are exactly the full Kelly stakes |
| `KellyTheorems.AllocationMaximisesLogWealth` | engine/Kelly.hpp:7-18 | what the allocator returns then is itself such a portfolio and maximises expected log wealth, up to what the beliefs fall short of one |
| `KellyTheorems.StakesAreFraction` | engine/Kelly.hpp:121-129 | for every Kelly fraction up to one and every cap, the returned stakes are one fraction c in [0,1] of the full Kelly stakes, c being the reported total over the full one |
| `KellyTheorems.AllocationKeepsGrowth` | engine/Kelly.hpp:121-133 | so the allocation stays solvent and keeps at least c times the growth of every solvent portfolio without leverage, up to what the beliefs fall short of one |
| `KellyTheorems.RelabelAllocation` | engine/Kelly.hpp:67-81 | relabelling outcomes, ties included, relabels the stakes and changes neither total, rate, cap flag nor number of bets |
| `KellyTheorems.AllocationDetermined` | engine/Kelly.hpp:52-133 | the contract of `Allocate` is complete, whatever the beliefs total: any two answers that meet it agree |
| `KellyExcess.AllocationIsNear` | engine/Kelly.hpp:83-119 | for beliefs totalling 1 + e and a positive rate R, the full stakes total 1 - R, members are staked p - R/o, and no outsider beats R by more than e times the longest odds M |
| `KellyExcess.NearlyOptimal` | engine/Kelly.hpp:7-18 | so against every portfolio without leverage the sum of p*W'/W exceeds one by at most e*M/R |
| `KellyExcess.AllocationNearlyKeepsGrowth` | engine/Kelly.hpp:121-133 | and for every Kelly fraction up to one and every cap the allocation stays solvent and keeps its fraction c of the growth of every solvent portfolio, up to e*(M - R)/R |
| `BookTable.Table.Apply` | engine/BookTable.hpp:44-62 | applied exactly when in range and the slot is empty or the number advances; the slot then shows the update field by field, every other slot is as it was, and each rejection is counted once under its own kind; every slot is then that of the longer history |
| `BookTable.Table.Get` | engine/BookTable.hpp:69-71 | the slot after the history so far |
| `BookTable.Table.IsStale` | engine/BookTable.hpp:78-87 | stale exactly when the number is 2^64-1 or the quote was taken in before now by at least the limit; a write in the future is fresh |
| `BookTable.SlotHoldsNewest` | engine/BookTable.hpp:49-61 | when no update for it is numbered 2^64-1, a slot holds the update with the highest number of all those for it, or nothing |
| `BookTable.SlotFieldByField` | engine/BookTable.hpp:49-61 | field by field: a slot holds the prices, count, number and time of the first receipt with the highest number for its market and book, and is marked empty if nothing came for it |
| `BookTable.OrderIrrelevantIff` | engine/BookTable.hpp:44-62 | for every history: neither order nor repetition matters to a slot exactly when all updates for it say the same, or none is numbered 2^64-1 and those with the highest number say the same |
| `BookTable.OnlyTheMarkBreaksOrder` | engine/BookTable.hpp:49-61 | when a number identifies an update within its slot, order is irrelevant exactly when no update for the slot is numbered 2^64-1 or all receipts for it are equal |
| `BookTable.SameReceiptsSameQuotes` | engine/BookTable.hpp:44-62 | when numbers identify the updates of a slot and none is the empty mark, any order and any duplication of the same updates leaves the same quotes |
| `BookTable.SentinelBreaksOrder` | engine/BookTable.hpp:50-53 | of any two updates for a slot, one numbered 2^64-1 and one with an ordinary number, the order decides what the slot holds |
| `BookTable.InOrderNeverStale` | engine/BookTable.hpp:53-56 | records with numbers rising per slot are never counted as stale |
| `UdpFraming.PayloadMembers` | proto/udp_framing.hpp:14-28 | a record is in the payload exactly when some data datagram carries it |
| `UdpFraming.TakenExactly` | engine/UdpSource.hpp:87-103 | which datagrams are taken and as what, in both directions, from magic, version, type, count and length: 48 bytes for an announce, 16 + 64 per record for one to 16 records of data; a longer datagram is cut to 1040 bytes and so passes for data exactly if it counts 16 records |
| `UdpSink.AnnouncePacket` | sim/UdpSink.hpp:81-101 | an announce passes the receiver's checks and says what the sender was given |
| `UdpSink.DataPacket` | sim/UdpSink.hpp:103-120 | a batch of 1 to 16 records passes the receiver's checks, fits 1040 bytes, and reads back as the same records |
| `UdpSink.Sink.constructor` | sim/UdpSink.hpp:49-52 | the first datagram is an announce |
| `UdpSink.Sink.SendAnnounce` | sim/UdpSink.hpp:81-101 | appends one announce with the next number and adds no records |
| `UdpSink.Sink.Flush` | sim/UdpSink.hpp:103-120 | everything accepted so far is then sent, by at most two datagrams, keeping the announce rhythm |
| `UdpSink.Sink.SendData` | sim/UdpSink.hpp:106-119 | appends exactly the buffered records as one datagram |
| `UdpSink.Sink.Accept` | sim/UdpSink.hpp:58-61 | accepted records are always the sent payload followed by the buffer |
| `UdpSink.Sink.Finish` | sim/UdpSink.hpp:63-66 | after it the sent payload is exactly the accepted records |
| `UdpSink.DataNumbering` | sim/UdpSink.hpp:73-120 | data datagrams are exactly those not at a multiple of 65, and the d-th of them carries number d + 1 + d/64 in 64 bits, so at most 64 lie between announces |
| `LossAccounting.ExpectedBalances` | engine/UdpSource.hpp:104-113 | expected = baseline + lost + (accepted - reordered) after every datagram, in 64-bit arithmetic |
| `LossAccounting.LossIsExact` | engine/UdpSource.hpp:104-113 | for distinct datagrams, fewer than 2^64 since the baseline, dropped and reordered in any way: after every arrival the receiver expects the number after the highest, and lost minus late arrivals is exactly how many never came, if and only if every arrival is in step, that is, in the same turn of the 64-bit numbers as the expected one or behind it in both counts |
| `LossAccounting.FirstTurnIsExact` | engine/UdpSource.hpp:104-113 | until the numbers start again that is: exact after every arrival if and only if number 2^64-1 has not come before another |
| `LossAccounting.LateLooksLost` | engine/UdpSource.hpp:104-113 | a datagram that comes only after the numbers have started again is taken for one ahead, and raises the loss |
| `LossAccounting.BelowIsReordered` | engine/UdpSource.hpp:109-110 | arrivals numbered below the expected one, in whatever turn, count as reordered and change nothing else |
| `LossAccounting.DropOnlyLossIsExact` | engine/UdpSource.hpp:104-113 | on a network that only drops, reordered is 0 and lost is exactly the number that never came, as long as arrivals are in step, which they are until the numbers start again |
| `UdpSource.LossOfFeed` | engine/UdpSource.hpp:104-115 | both laws hold of the receiver's counters over any stretch of the feed, malformed datagrams and timeouts included, the second while the accepted datagrams are in step |
| `UdpSource.Source.ReadDatagram` | engine/UdpSource.hpp:87-117 | classifies one datagram, counts malformed ones, leaves records or announce in the buffer, and accounts for its number |
| `UdpSource.Source.CountSeq` | engine/UdpSource.hpp:104-113 | one datagram's step of the accounting |
| `UdpSource.Source.AwaitAnnounce` | engine/UdpSource.hpp:123-155 | stops at the first announce and starts exactly if its record size is 64 and it has markets and books, which then are the feed's; resets the loss counters but not the expected number; gives up only in silence; counts the data discarded before it |
| `UdpSource.Source.Wait` | engine/UdpSource.hpp:123-129 | receives up to the first announce or silence, accounting for every datagram and counting the data passed over |
| `UdpSource.Source.TakeDatagram` | engine/UdpSource.hpp:157-176 | data fills the buffer; an announce stops the feed exactly if its seed, markets or books differ; anything else is passed over |
| `UdpSource.Source.ReceiveOne` | engine/UdpSource.hpp:157-177 | the buffer is refilled with exactly the records of the next data datagram, and a stop means silence or an announce of another feed |
| `UdpSource.Source.Next` | engine/UdpSource.hpp:56-68 | hands out the next record; nothing is skipped or repeated, and the buffer is overwritten only when drained |
| `UdpSource.Source.Drain` | engine/main.cpp:406-412 | asking until the end yields exactly the concatenated payloads received, and the accounting of all datagrams met |
| `LiveFeed.RunIsGenuine` | proto/udp_framing.hpp:6-13 | in every run of send, drop, duplicate and deliver steps, nothing is in flight or delivered that was not sent |
| `LiveFeed.LiveQuoteIsGenuine` | engine/BookTable.hpp:44-62 | at every point of every run, a live quote is the quote of a record really sent, never newer than file mode's |
| `LiveFeed.LiveEqualsFile` | engine/BookTable.hpp:44-62 | once every data datagram was delivered, in any order and with any duplication, live quotes equal file mode's |
| `LiveFeed.SlotLiveEqualsFileIff` | engine/BookTable.hpp:44-62 | whatever was delivered: a live quote equals file mode's exactly if some delivered datagram carries the newest record for its slot, or there is none |
| `LiveFeed.SentIsAccepted` | engine/UdpSource.hpp:87-102 | every datagram sent passes all the receiver's checks, is at most 1040 bytes, and if it is an announce announces the same feed |
| `LiveFeed.OrderedLossIsExact` | engine/UdpSource.hpp:104-114 | of a sender's datagrams that arrive in the order sent, announces and data alike, the receiver reports as lost exactly how many of those sent so far did not come, and none as reordered |
| `LiveFeed.LiveSession` | engine/main.cpp:406-412 | for any arrivals of what was sent: the session starts exactly if an announce of a non-empty feed arrives, the table then holds exactly the payload after the first announce to arrive, and a slot agrees with file mode exactly if its newest record is among that; a perfect channel delivers exactly the records sent |
| `WsFrames.LengthRoundTrip` | engine/WsServer.hpp:95-109 | every payload length, in the shortest of the three forms, is read back whatever the mask bit |
| `WsFrames.LengthInPlainArithmetic` | engine/WsServer.hpp:372-384 | a length code of 126 means 256*b2 + b3, one of 127 the eight bytes with each half, quarter and byte weighing more than those behind it, and any other is the length |
| `WsFrames.RequestInPlainTerms` | engine/WsServer.hpp:366-400 | byte by byte: refused once the length is known if it is over 65536 or the second byte is below 128; else taken when it is all there, each payload byte combined with its byte of the mask |
| `WsFrames.RequestStable` | engine/WsServer.hpp:364-394 | a verdict of the server's frame parser never changes when more bytes arrive |
| `WsFrames.ReplyStable` | tools/ws_cmd.py:14-34 | nor does one of the client's |
| `WsFrames.RequestRoundTrip` | tools/ws_cmd.py:68-81 | a masked client frame of at most 65536 payload bytes is parsed as it was meant, whatever follows |
| `WsFrames.OversizeRefused` | engine/WsServer.hpp:385-385 | a larger one is refused |
| `WsFrames.UnmaskedRefused` | engine/WsServer.hpp:387-389 | so is every unmasked frame |
| `WsFrames.ReplyRoundTrip` | tools/ws_cmd.py:14-34 | the client parses every server frame as it was meant, whatever follows |
| `WsStreams.DecodeSplit` | engine/WsServer.hpp:361-413 | decoding a stream in two parts gives the frames and the verdict of decoding it whole |
| `WsStreams.LeftoverBound` | engine/WsServer.hpp:364-395 | a live connection keeps fewer than 65550 undecoded bytes |
| `WsStreams.ChunkingIsIrrelevant` | engine/WsServer.hpp:343-359 | for every byte stream and every split into reads of at most 4096 bytes, frames, dead flag and (when alive) leftover equal one-shot decoding; the 128 KiB guard never fires |
| `WsStreams.RequestsRoundTrip` | engine/WsServer.hpp:364-413 | a concatenation of acceptable client frames decodes to exactly those frames, in order |
| `WsStreams.CommandsArriveInOrder` | engine/WsServer.hpp:343-413 | through any splitting into reads, the commands are exactly the text payloads in order and nothing is left over |
| `WsStreams.ReadBack` | tools/ws_cmd.py:14-34 | a stream of server frames cut anywhere reads back as a prefix of them, and whole if not cut |
| `WsStreams.CutFrame` | tools/ws_cmd.py:15-22 | part of a frame is never taken for a frame |
| `WsStreams.NothingMayBeLost` | tools/ws_cmd.py:14-34 | a reader that lost the first n bytes of a stream of frames reads them all exactly when n is zero |
| `WsStreams.ReaderSeesSubsequence` | engine/WsServer.hpp:292-298 | with whole frames dropped, a client reads an order-preserving subsequence of those offered |
| `WsServer.CommandsAreTexts` | engine/WsServer.hpp:406-409 | the commands of a connection are its text payloads in order |
| `WsServer.Client.Flush` | engine/WsServer.hpp:488-502 | whatever the sends take, sent bytes followed by queued bytes stay the same; it ends drained, blocked or broken, and leaves the client dead exactly when it was, the connection broke, or a page was served |
| `WsServer.Client.Offer` | engine/WsServer.hpp:415-423 | a frame is queued whole or not at all, by the backlog limit; the outbound stream stays response plus whole frames, within max(limit, response length) |
| `WsServer.Client.Tell` | engine/WsServer.hpp:290-299 | offering and then sending leaves a live client with the whole frame queued or none of it, and nothing of its inbound side changed |
| `WsServer.Client.Handshake` | engine/WsServer.hpp:443-459 | the connection is open with the response as the start of its stream, and bytes sent along with the request are discarded; a page client upgraded before its page is drained opens too, and dies at the first full drain |
| `WsServer.Client.ServePage` | engine/WsServer.hpp:461-473 | the page replaces whatever was queued, and the client is dead as soon as nothing of it waits to be sent or the connection breaks; it lives on exactly while part of the page is queued |
| `WsServer.PageClientLife` | engine/WsServer.hpp:443-502 | a page client stays one: a poll leaves it open exactly if it was or an upgrade request came in before its page was drained, and dead once nothing is queued for it |
| `WsServer.EncodeText` | engine/WsServer.hpp:95-111 | the frame written is the RFC 6455 encoding the parsers above are proved against; byte by byte: 0x81, then the length, or 126 and n/256, n%256, or 127 and eight bytes with the highest first, then the payload |
| `WsServer.NextFrame` | engine/WsServer.hpp:366-400 | the buffer-by-buffer reading is the frame parser, and in plain arithmetic: lengths high byte first, refused over 65536 or unmasked, taken when all there |
| `WsStreams.FrontDecides` | engine/WsServer.hpp:402-408 | the frame at the front of a buffer is taken unless its opcode is 8, which ends the connection |
| `WsServer.ReactedAfter` | engine/WsServer.hpp:403-424 | a frame of opcode 1 queues one command, one of opcode 9 offers a pong (0x8A) with the first 125 bytes of its payload, and any other is only taken |
| `WsServer.Server.AcceptNew` | engine/WsServer.hpp:329-341 | one more client, not yet open; the others stay |
| `WsServer.Server.Reap` | engine/WsServer.hpp:504-511 | exactly the dead clients leave, in order |
| `WsServer.Server.Push` | engine/WsServer.hpp:432-436 | one client is told: its frame is queued whole or dropped whole and counted |
| `WsServer.Server.Broadcast` | engine/WsServer.hpp:287-301 | every open client is offered the text, no client affects another, and `dropped` grows by exactly the number that refused |
| `WsServer.Server.DecodeFrames` | engine/WsServer.hpp:364-413 | the buffer is decoded completely; commands, counter and pongs are those of exactly the frames taken |
| `WsServer.Server.DecodeOne` | engine/WsServer.hpp:365-412 | one round takes exactly the frame at the front, or stops |
| `WsServer.Server.React` | engine/WsServer.hpp:404-411 | pings are answered, texts queued and counted, anything else ignored |
| `WsServer.Server.Pong` | engine/WsServer.hpp:415-423 | a pong with at most 125 bytes of the ping is offered |
| `WsServer.Server.OnReadable` | engine/WsServer.hpp:343-359 | after any reads the connection is what one-shot decoding of its whole stream gives, and dead exactly when that is or the peer closed |
| `WsServer.Server.ServeClient` | engine/WsServer.hpp:273-278 | a failed poll kills the client; otherwise it is read, then written, and its new commands join the queue |
| `WsServer.Server.ServeAll` | engine/WsServer.hpp:272-279 | every client is served in turn, and the queue holds the commands client by client |
| `WsServer.Server.Answer` | engine/WsServer.hpp:431-438 | a reply reaches the live client on that descriptor and no other |
| `WsServer.Server.DispatchPending` | engine/WsServer.hpp:425-441 | every queued command is answered on its own connection, in order, unless its reply is empty, and the queue is emptied |
| `WsServer.AnswersInFull` | engine/WsServer.hpp:425-440 | the answers of a turn in full: a text frame (0x81) for each command of the descriptor whose reply is not empty, in the order of the queue, and no other |
| `WsServer.Server.Service` | engine/WsServer.hpp:261-285 | a whole turn: reads, answers to exactly the commands of the turn, and the dead removed |
| `WsServer.ServedThenAnswered` | engine/WsServer.hpp:261-285 | through such a turn an open connection only moves forward: nothing sent, taken in or offered is taken back |
| `WsServer.PeerReadsSelection` | engine/WsServer.hpp:287-301 | for every open client off the page path, what its peer reads past the response is an order-preserving subsequence of the frames offered, none cut short |
| `WsClient.Connection.Need` | tools/ws_cmd.py:15-22 | exactly n bytes however they trickle in, or failure if the peer closes first |
| `WsClient.Connection.ReadFrame` | tools/ws_cmd.py:14-34 | one whole frame, as the client's parser has it, or failure in the middle of one |
| `WsClient.Connection.ReadResponse` | tools/ws_cmd.py:59-64 | the handshake loop reads, in chunks of at most 4096 bytes, until the bytes so far hold CR LF CR LF, or fails if the peer closes first |
| `WsClient.InStepIffReadsEndAtResponse` | tools/ws_cmd.py:59-64 | the client then reads every frame the server sent exactly when those reads ended where the response did |
| `WsClient.EncodeCommand` | tools/ws_cmd.py:69-81 | the frame written is the masked encoding the server's parser is proved against; byte by byte: 0x81, the length with bit 128 set and any further bytes highest first, the mask, and every payload byte combined with its byte of the mask |
| `WsClient.CommandReachesQueue` | tools/ws_cmd.py:68-81 | a command of at most 65536 bytes reaches the server's queue as written, however it is cut up |
| `Seeding.MixUndone` | sim/Seeding.hpp:3-8 | splitmix64 has an explicit left inverse |
| `Seeding.MixReachesAll` | sim/Seeding.hpp:3-8 | which is a right inverse too: a bijection of 64-bit words |
| `Seeding.PublishedMixes` | sim/Seeding.hpp:3-8 | the first three outputs of the published generator started from zero |
| `Seeding.SeedsAgreeIffStreamsDo` | sim/Seeding.hpp:9-11 | under one master two seeds agree exactly when domain * 0x1000193 + index agree modulo 2^64 |
| `Seeding.MastersDiffer` | sim/Seeding.hpp:9-11 | two masters never share a seed for the same stream |
| `Seeding.SeedsAgreeIff` | sim/Seeding.hpp:9-11 | seeds of any two masters agree exactly when the masters differ by the same bits as the mixed streams do |
| `Seeding.SeedsNeverCollide` | sim/Seeding.hpp:9-16 | the four domains (opening line, price process, bookmaker, settlement) with any index below 0x1000193 never share a seed |
| `Seeding.IndexBoundIsNeeded` | sim/Seeding.hpp:9-16 | at that index two domains do |
| `Seeding.RunSeedsDifferIff` | sim/main.cpp:115-124 | the seeds a run derives, the opening lines included, are pairwise different exactly when it has at most 16778 markets |
| `Seeding.QuotingMeetsSettling` | sim/main.cpp:121-227 | the first collision: book 0 of market 16778 and the settlement of market 381 |
| `ReplayHash.Hash.MixBytes` | engine/ReplayHash.hpp:18-24 | the state becomes the FNV-1a digest of the bytes |
| `ReplayHash.StepInvertible` | engine/ReplayHash.hpp:20-23 | each byte step is a bijection of the states |
| `ReplayHash.StepInjective` | engine/ReplayHash.hpp:20-23 | equal results of two steps mean equal states exactly when the bytes are equal |
| `ReplayHash.DigestConcat` | engine/ReplayHash.hpp:18-24 | mixing a concatenation is mixing its parts in order |
| `ReplayHash.PublishedDigests` | engine/ReplayHash.hpp:18-36 | the published FNV-1a digests of nothing, of "a" and of "foobar" |
| `ReplayHash.OneByteShows` | engine/ReplayHash.hpp:18-24 | inputs of equal length that differ in exactly one byte never share a digest |
| `ReplayHash.BytesIdentify` | engine/ReplayHash.hpp:26-26 | a market number goes in low byte first and can be read back, so two numbers never put the same bytes in |
| `Bookmaker.Book.Observe` | sim/Bookmaker.hpp:42-45 | the ring stays the last 512 entries of the unbounded history |
| `Bookmaker.Book.LaggedView` | sim/Bookmaker.hpp:104-109 | for every lag from 0 to 511 the view is observation max(0, t-1-lag) of the unbounded history; for any other lag it is off by whole turns of the ring |
| `Bookmaker.Book.Quote` | sim/Bookmaker.hpp:47-99 | the quote is the rounded, clamped, shaded belief about the lagged view |
| `Bookmaker.Shade` | sim/Bookmaker.hpp:55-85 | for all three margin models the shaded values total one plus the overround and are spread as the model says |
| `Bookmaker.PowerMarginOnLongshot` | sim/Bookmaker.hpp:57-66 | under the power model the longshot is quoted at more than its proportional share when the skew is above one, and at less when it is between zero and one |
| `Bookmaker.AdditiveMarginOnLongshots` | sim/Bookmaker.hpp:76-84 | under the additive model an outcome is quoted at more than its proportional share exactly when it is below one third |
| `Bookmaker.RoundAll` | sim/Bookmaker.hpp:87-97 | each price is clamped to [1001, 1000000] and rounded half up; the unused slot is zero |
| `Bookmaker.LegalPrice` | sim/Bookmaker.hpp:93-96 | whatever is quoted is within [1001, 1000000] |
| `Bookmaker.RoundingError` | sim/Bookmaker.hpp:93-96 | rounding moves an implied probability by at most a fraction 0.5/1001 of what the clamp leaves of the intended one |
| `Bookmaker.QuoteDetermined` | sim/Bookmaker.hpp:47-99 | the specification of a quote is complete: any two quotes of the same belief that meet it agree |
| `MarginRoundTrip.BooksumWithin` | sim/Bookmaker.hpp:67-97 | for every margin model the quoted book sum is within a fraction 0.5/1001 of the sum of what the clamp leaves, which is one plus the overround when no price is clamped |
| `MarginRoundTrip.BeliefRecovered` | sim/Bookmaker.hpp:67-75 | multiplicative devigging of an unclamped proportional quote recovers every belief within relative error 2d/(1-d), d = 0.5/1001 |
| `MarginRoundTrip.MarginSurvives` | sim/Bookmaker.hpp:87-97 | an overround above d/(1-d) survives rounding, so such a quote devigs |
| `MarginRoundTrip.ExactWithoutRounding` | sim/Bookmaker.hpp:67-75 | without rounding recovery is exact |
| `Generator.QuotesStep` | sim/main.cpp:203-206 | a book's count of quoting ticks grows by one exactly at the ticks its interval divides |
| `Generator.TicksInOrder` | sim/main.cpp:177-215 | records stand in strict order of tick, market and book |
| `Generator.TickPositions` | sim/main.cpp:177-215 | a session has a record at exactly the ticks, markets and books it should |
| `Generator.TicksNumbered` | sim/main.cpp:203-210 | before it is cut to 64 bits, the number of a record is how many records its book made before it: every book numbers its own records 0, 1, 2, ... in session order |
| `Generator.RecordInFull` | sim/main.cpp:203-212 | a record in full: its number and its time, tick * 100000000, in 64 bits, its book's id, its market, three prices and an empty fourth slot |
| `SimMain.StepBook` | sim/main.cpp:202-212 | a book observes always and quotes exactly when due; the record is the one the specification names |
| `SimMain.StepAndCount` | sim/main.cpp:201-213 | the book's counter moves exactly when it quotes |
| `SimMain.StepMarket` | sim/main.cpp:187-214 | all books of a market, each counter where the next market needs it |
| `SimMain.StepTick` | sim/main.cpp:177-215 | all markets of a tick |
| `SimMain.Generate` | sim/main.cpp:113-215 | the records of a run are, one by one, those the specification names: number and timestamp in 64 bits, ids and quoted odds |
| `GeneratedSessions.GenerationDetermined` | sim/main.cpp:113-215 | the specification of a session is complete: any two sessions that meet it for the same world are the same, record by record |
| `GeneratedSessions.NumbersRise` | sim/main.cpp:206-206 | a later record of the same book and market has a higher number |
| `GeneratedSessions.GeneratedSessionIsGood` | tools/verify_session.cpp:30-49 | for every roster, number of markets and ticks, the generated session satisfies everything the session verifier demands if and only if no record is made at a tick whose time, tick times 100 ms in nanoseconds, exceeds 64 bits; past that time runs backwards |
| `GeneratedSessions.ShortRunsFit` | sim/main.cpp:177-178 | all times fit as long as that of the last tick does |
| `GeneratedSessions.TimesBeforeNumbers` | sim/main.cpp:206-207 | when all times fit, so do all numbers, with room for the empty mark: times run out long before numbers |
| `GeneratedSessions.GeneratedNeverStale` | engine/BookTable.hpp:53-56 | read in order, a generated session whose numbers fit in 64 bits loses no record to the sequence gate |
| `GeneratedSessions.GeneratedLiveEqualsFile` | engine/BookTable.hpp:44-62 | a generated session whose numbers fit in 64 bits, sent live and wholly delivered in any order, ends with file mode's quotes |
| `GeneratedSessions.Broadcast` | sim/main.cpp:141-217 | generating into the sink sends exactly the generated records |
| `SessionCheck.CheckOdds` | tools/verify_session.cpp:40-46 | no failure exactly when used slots are in [1001, 1000000] and unused ones zero |
| `SessionCheck.CheckRecord` | tools/verify_session.cpp:32-46 | after good records, no failure exactly when the record is good and continues them |
| `SessionCheck.VerifySession` | tools/verify_session.cpp:19-54 | the verifier ends with zero failures exactly if every record names a market there is and has two to four prices in [1001, 1000000] and zeros behind them, time never runs backwards, numbers rise from any record to any later one of the same market and book, and the record count is right |
| `Consensus.FairPrice` | engine/Consensus.hpp:43-72 | without an available book of positive weight there is no price; else, with n the count of the first such book: the count is n, `booksUsed` is how many available books of positive weight have count n, `totalWeight` is the sum of their weights, and each probability times it is the sum of theirs by weight; each lies between two of their opinions |
| `Consensus.FairPriceAverages` | engine/Consensus.hpp:46-71 | whatever meets the specification of a price is that average over the books as given |
| `Consensus.FairPriceDetermined` | engine/Consensus.hpp:43-72 | the contract of `FairPrice` is complete: any two prices of the same books that meet it agree |
| `Consensus.TotalAmongBooks` | engine/Consensus.hpp:60-69 | the consensus total lies between the least and greatest total of the contributing books |
| `EngineConfig.LiveConfig.Apply` | engine/main.cpp:163-229 | a command is acknowledged exactly when unlocked, a "set", and its key is one of four with a legal value; "kelly-fraction" and "max-exposure" become the value given, "stale-ms" its whole milliseconds, "devig" the method of that name, and nothing else changes; a refused command changes nothing; the reply names the key, or the command that was not a "set" |
| `EngineConfig.LastCommandDecides` | engine/main.cpp:179-219 | through any sequence of commands the last legal one for a key decides that setting |
| `EngineConfig.UnsetStays` | engine/main.cpp:179-219 | and a setting that none of them names stays as it was |
| `EngineConfig.CommandsKeepRange` | engine/main.cpp:158-229 | no sequence of commands takes the settings out of range |
| `EngineConfig.LockedNeverChanges` | engine/main.cpp:175-177 | while a digest is taken no command changes anything |
| `EngineTick.RunDevig` | engine/main.cpp:42-49 | the configured method's answer |
| `EngineTick.DevigDetermined` | engine/main.cpp:42-49 | the contracts of all three methods are complete: any two answers to the same odds that meet them agree |
| `EngineTick.StaleInTicks` | engine/main.cpp:323-323 | for a limit of up to an hour: a quote taken in at one tick is stale at another exactly when that is later by at least the configured milliseconds, at 100 per tick |
| `EngineTick.Best` | engine/main.cpp:325-328 | the best price is offered by some fresh book and no fresh book offers more |
| `EngineTick.CollectBooks` | engine/main.cpp:318-340 | one consensus input per book, empty unless the quote is fresh and devigs to a distribution, and the best fresh prices; read off each quote's own prices: an input that counts is of a fresh quote with prices above 1.000, the shorter price gets at least the probability of the longer, and with the multiplicative method probability times price is the same for all outcomes |
| `EngineTick.InputFollowsQuote` | engine/main.cpp:330-340 | the same for one book and all three methods, outcome by outcome |
| `EngineTick.SizeBets` | engine/main.cpp:348-375 | no bets unless every outcome has a legal price; otherwise one record for each positive stake of the allocation, whatever the price totals |
| `EngineTick.BetsDetermined` | engine/main.cpp:348-375 | the specification of a market's bets is complete: any two logs that meet it agree |
| `EngineTick.BetsWithinExposure` | engine/main.cpp:348-375 | the bets of a market at a tick are sound, one per outcome at most, and together within the exposure limit |
| `EngineLoop.GroupsAreRuns` | engine/main.cpp:406-413 | the specification's groups are runs of equal timestamps, each once and in order |
| `EngineLoop.GroupsAreMaximal` | engine/main.cpp:406-413 | and every place where a run ends is there |
| `EngineLoop.MixPrice` | engine/main.cpp:389-392 | market number, count and probabilities enter the digest in that order |
| `EngineLoop.Engine.ProcessMarket` | engine/main.cpp:314-398 | one market at one tick: its entry is priced from the table, each input follows its own quote outcome by outcome, the price averages those inputs, and counters, bet log and digest grow by exactly what the entry says |
| `EngineLoop.Engine.TakePrice` | engine/main.cpp:342-392 | a price is counted once, bet on only if bets are wanted, and hashed only if a digest is taken |
| `EngineLoop.Engine.ProcessTick` | engine/main.cpp:283-404 | the commands that came in are applied, then every market is priced once |
| `EngineLoop.Engine.Run` | engine/main.cpp:406-413 | the loop refines group-then-fold: each maximal run of equal timestamps is processed exactly once, after all its records were applied, under the settings then in force; consensus plus no-price counts are markets times runs |
| `EngineTheorems.EveryBetIsSound` | engine/main.cpp:348-375 | across any interleaving of commands, every logged bet has a positive stake, the best fresh price of at least 1.001 and the consensus probability, and per market and tick the stakes total at most the exposure limit then in force |
| `EngineTheorems.BetTakesBestPrice` | engine/main.cpp:325-328 | the price taken is on offer from a fresh book, and none offers better |
| `EngineTheorems.PriceLiesAmongBooks` | engine/main.cpp:330-342 | each consensus probability lies between those of two fresh books that count towards it |
| `EngineTheorems.QuotesAreNewest` | engine/main.cpp:406-413 | every group ends where the timestamps change and is priced, for each market and book, from the prices, count, number and time of the newest record up to that end, or from nothing if there is none |
| `EngineTheorems.LockedRunKeepsSettings` | engine/main.cpp:175-177 | in a run that takes a digest every group sees the initial settings |
| `EngineTheorems.LastCommandInForce` | engine/main.cpp:288-291 | in an unlocked run, of all commands that came in before a group was priced, the last legal one for a key decides that setting for the group |
| `EngineTheorems.SettingsStayInRange` | engine/main.cpp:158-229 | settings that start in range stay there at every group |
| `EngineTheorems.ReplayDetermined` | engine/main.cpp:389-419 | two runs over the same records from the same settings take the same digest, whatever commands arrive at either and whether or not they bet; if both bet, they log the same bets |
| `EngineTheorems.TraceTellsPrice` | engine/main.cpp:389-392 | if different numbers are laid out differently, equal traces of two priced markets mean equal market numbers modulo 2^16, equal counts and equal probabilities |
| `EngineTheorems.SameWorldSameDigest` | engine/main.cpp:389-419 | from world to digest: any two sessions that meet the specification of the same world, each replayed with the same settings, end with the same digest, and with the same bets if both bet |
| `EngineTheorems.RunEngine` | engine/main.cpp:236-437 | a feed too large for the table is refused; otherwise counts, bets and digest are those of the journal |
| `MarketTheorems.QuoteCountsIff` | engine/main.cpp:330-340 | a fresh quote of one to four prices of at least 1.001 counts exactly when its implied probabilities total more than one and, under the power method, their 1024th powers do not |
| `MarketTheorems.PriceFollowsQuotes` | engine/main.cpp:330-342 | if every book that counts offers at most as much on one outcome as on another, the price makes the one at least as likely as the other, whatever the method |
| `MarketTheorems.PriceTotalsOne` | engine/main.cpp:330-342 | a price totals exactly one under the multiplicative method, one within 1e-13 under the power method and within 1e-15 under Shin's |
| `MarketTheorems.ConsensusRecoversBeliefs` | sim/Bookmaker.hpp:67-75 | with the multiplicative method and books that shade proportionally, each consensus probability lies, up to the relative rounding error, between what two contributing books believe of that same outcome |
| `MarketTheorems.StakesAreLogged` | engine/main.cpp:361-375 | one record for each positive stake, with time, market, outcome, stake, best price and probability of that outcome, and no others |
| `MarketTheorems.BetsNeedAnEdge` | engine/main.cpp:345-375 | a market without a price of at least 1.001 for every outcome is never bet on; otherwise it is exactly when some probability times its best price is more than one |
| `MarketTheorems.BetsAreKelly` | engine/main.cpp:355-375 | the log of a market whose price totals at most one, in full: the stakes share out the Kelly fraction of 1 - R, or the exposure limit if less, in proportion to p - R/o among the outcomes with p*o > R, o being the best price of that outcome |

## Left out

- Floating point: doubles are exact reals, so rounding, NaN, infinity and the finiteness guards are not modelled. Convergence
  is about the algorithms.
- `sqrt`, `exp`, `log` and `pow` beyond the laws above; softmax, the normal and uniform draws and `LatentMarket`: a market's
  path and a book's belief are arbitrary functions of position, beliefs positive and totalling one.
- Sockets, polling, timeouts, pacing and wall clocks: a send takes any number of bytes or fails, a read brings any chunk of at
  most 4096 bytes, a receive meets a datagram or a timeout, and the network delivers any multiset of what was sent. A failed
  datagram send is a drop, so `send_errors` is not kept. The `pace` option and the dashboard's push interval have no
  counterpart.
- HTTP request parsing, SHA-1, base64, the page itself and the 16 KiB limit on a request: how a request ends (upgrade with its
  response, plain with its page, or junk) is an input.
- The JSON scanners: commands arrive with their fields already found, readable as string, number or neither. Of a reply's text
  only its kind and key are kept.
- A command handler that itself broadcasts; the engine's does not.
- Dashboard pushes from the engine loop and their JSON; they read prices and change nothing. When the control channel is
  polled within a tick, which commands have arrived by then is an arbitrary function of the tick.
- The status check at `tools/ws_cmd.py:65-66`: the handshake response is read to its blank line, not looked into.
- File sinks and readers, argument parsing and printed summaries: file mode is the record sequence in order.
- `analytics/` and `tools/validate_devig.cpp`: reporting sums.
- Records with more than four outcomes: `tools/verify_session.cpp:33` refuses them and the loop at `engine/main.cpp:331` has
  room for four, so what the engine does beyond that is not defined by its code.
- EngineLoop.Engine.Run: requires outcome counts of at most four in the records; any other field may be anything.
- EngineTheorems.RunEngine: the same.
- UdpSource.Source.Drain: the counters of malformed datagrams and of announces are fixed per receive call, not summed up.
- WsServer.Server.Service: new connections join before the turn, by `WsServer.Server.AcceptNew`. The turn fixes commands,
  answers and streams; `dropped` and `commands_received` are fixed where they grow, not summed per turn.
- KellyTheorems.AllocationMaximisesLogWealth: for beliefs that total at most one. For beliefs totalling more,
  `KellyExcess.AllocationNearlyKeepsGrowth` bounds what is lost while the rate is positive; where the staked outcomes alone
  are believed to total one or more there is no reserve, and only prefix, cap and total of `KellyAllocator.Allocate` hold.
- MarginRoundTrip.BeliefRecovered: for quotes the clamp leaves alone.
- EngineTheorems.SameWorldSameDigest: a world gives its random parts as functions of position, so that the random number
  generators themselves repeat from a seed is not part of this model; `Seeding` covers how their seeds are derived.
- EngineTheorems.ReplayDetermined: says equal digests for equal runs; that different price paths give different digests holds
  only byte by byte (`ReplayHash.OneByteShows`), as for any 64-bit hash. `bits`, the memory layout of a number, is a parameter.

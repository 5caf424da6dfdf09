/** The table of current quotes, one slot per (market, book), gated by sequence number. */
module BookTable {
  import opened Messages

  /** Marks a slot that was never written. */
  const EMPTY_SEQ: u64 := 0xFFFF_FFFF_FFFF_FFFF

  datatype Quote = Quote(oddsMilli: OddsArray, recvTimestamp: u64, seqNo: u64, outcomeCount: u8)

  const NO_QUOTE := Quote([0, 0, 0, 0], 0, EMPTY_SEQ, 0)

  datatype ApplyResult = Applied | RejectedOutOfRange | RejectedStaleSeq

  /** An update together with the time it was taken in. */
  datatype Receipt = Receipt(update: OddsUpdate, recvNs: u64)

  /** The engine takes an update in at the time it carries. */
  function Receipts(us: seq<OddsUpdate>): (h: seq<Receipt>)
    ensures |h| == |us| && forall i :: 0 <= i < |us| ==> h[i] == Receipt(us[i], us[i].simTimestamp)
  {
    seq(|us|, i requires 0 <= i < |us| => Receipt(us[i], us[i].simTimestamp))
  }

  function QuoteOf(r: Receipt): Quote {
    Quote(r.update.oddsMilli, r.recvNs, r.update.seqNo, r.update.outcomeCount)
  }

  predicate ForSlot(r: Receipt, market: nat, book: nat) {
    r.update.marketId == market && r.update.bookId == book
  }

  /** Whether a slot takes the update: it is empty or the sequence number advances. */
  predicate Advances(q: Quote, seqNo: u64) {
    q.seqNo == EMPTY_SEQ || q.seqNo < seqNo
  }

  /** A slot after a history of receipts, whatever their order. */
  function SlotAfter(h: seq<Receipt>, market: nat, book: nat): Quote {
    if h == [] then NO_QUOTE
    else
      var q, r := SlotAfter(h[..|h| - 1], market, book), h[|h| - 1];
      if ForSlot(r, market, book) && Advances(q, r.update.seqNo) then QuoteOf(r) else q
  }

  predicate InRange(r: Receipt, markets: nat, books: nat) {
    r.update.marketId < markets && r.update.bookId < books
  }

  /** How many receipts of a history fell outside a table of the given size. */
  function CountOutOfRange(h: seq<Receipt>, markets: nat, books: nat): nat {
    if h == [] then 0
    else CountOutOfRange(h[..|h| - 1], markets, books) + if InRange(h[|h| - 1], markets, books) then 0 else 1
  }

  /** How many were in range but did not advance their slot. */
  function CountStale(h: seq<Receipt>, markets: nat, books: nat): nat {
    if h == [] then 0
    else
      var r := h[|h| - 1];
      var q := SlotAfter(h[..|h| - 1], r.update.marketId, r.update.bookId);
      CountStale(h[..|h| - 1], markets, books) +
      if InRange(r, markets, books) && !Advances(q, r.update.seqNo) then 1 else 0
  }

  class Table {
    const markets: nat
    const books: nat
    const slots: array2<Quote>
    var rejectedOutOfRange: nat
    var rejectedStaleSeq: nat
    ghost var history: seq<Receipt>

    ghost predicate Valid()
      reads this, slots
    {
      slots.Length0 == markets && slots.Length1 == books &&
      (forall m, b :: 0 <= m < markets && 0 <= b < books ==> slots[m, b] == SlotAfter(history, m, b)) &&
      rejectedOutOfRange == CountOutOfRange(history, markets, books) &&
      rejectedStaleSeq == CountStale(history, markets, books)
    }

    constructor (markets: nat, books: nat)
      ensures Valid() && fresh(slots) && history == []
      ensures this.markets == markets && this.books == books
    {
      this.markets, this.books := markets, books;
      slots := new Quote[markets, books]((_, _) => NO_QUOTE);
      rejectedOutOfRange, rejectedStaleSeq := 0, 0;
      history := [];
    }

    /** Take in one update. What every slot holds afterwards is `SlotAfter` of the longer history. */
    method Apply(u: OddsUpdate, recvNs: u64) returns (result: ApplyResult)
      requires Valid()
      modifies this, slots
      ensures Valid() && history == old(history) + [Receipt(u, recvNs)]
      ensures result == RejectedOutOfRange <==> !(u.marketId < markets && u.bookId < books)
      ensures result == Applied <==> (u.marketId < markets && u.bookId < books &&
        Advances(SlotAfter(old(history), u.marketId, u.bookId), u.seqNo))
      ensures result != Applied ==>
        forall m, b :: 0 <= m < markets && 0 <= b < books ==> slots[m, b] == old(slots[m, b])
      ensures result == Applied ==>
        slots[u.marketId, u.bookId] == Quote(u.oddsMilli, recvNs, u.seqNo, u.outcomeCount) &&
        (old(slots[u.marketId, u.bookId]).seqNo == 0xFFFF_FFFF_FFFF_FFFF ||
         old(slots[u.marketId, u.bookId]).seqNo < u.seqNo) &&
        forall m, b :: 0 <= m < markets && 0 <= b < books && (m != u.marketId || b != u.bookId) ==>
          slots[m, b] == old(slots[m, b])
      ensures rejectedOutOfRange == old(rejectedOutOfRange) + if result == RejectedOutOfRange then 1 else 0
      ensures rejectedStaleSeq == old(rejectedStaleSeq) + if result == RejectedStaleSeq then 1 else 0
    {
      ghost var r := Receipt(u, recvNs);
      assert (history + [r])[..|history|] == history;
      if u.marketId >= markets || u.bookId >= books {
        rejectedOutOfRange := rejectedOutOfRange + 1;
        history := history + [r];
        return RejectedOutOfRange;
      }
      var slot := slots[u.marketId, u.bookId];
      if slot.seqNo != EMPTY_SEQ && u.seqNo <= slot.seqNo {
        rejectedStaleSeq := rejectedStaleSeq + 1;
        history := history + [r];
        return RejectedStaleSeq;
      }
      slots[u.marketId, u.bookId] := Quote(u.oddsMilli, recvNs, u.seqNo, u.outcomeCount);
      history := history + [r];
      return Applied;
    }

    method Get(market: nat, book: nat) returns (q: Quote)
      requires Valid() && market < markets && book < books
      ensures q == SlotAfter(history, market, book)
    {
      q := slots[market, book];
    }

    /** Stale means never written, or written at least `staleAfter` before `now`; a write in the future is fresh. */
    method IsStale(market: nat, book: nat, now: u64, staleAfter: u64) returns (stale: bool)
      requires Valid() && market < markets && book < books
      ensures stale <==> Stale(SlotAfter(history, market, book), now, staleAfter)
      ensures var q := SlotAfter(history, market, book);
        stale <==>
          (q.seqNo == 0xFFFF_FFFF_FFFF_FFFF || (q.recvTimestamp < now && staleAfter <= now - q.recvTimestamp))
    {
      var q := slots[market, book];
      if q.seqNo == EMPTY_SEQ { return true; }
      if now <= q.recvTimestamp { return false; }
      return now - q.recvTimestamp >= staleAfter;
    }
  }

  predicate Stale(q: Quote, now: u64, staleAfter: u64) {
    q.seqNo == EMPTY_SEQ || (q.recvTimestamp < now && q.recvTimestamp + staleAfter <= now)
  }

  // ---- when order and duplication do not matter ----

  ghost predicate SameReceipts(a: seq<Receipt>, b: seq<Receipt>) { forall r :: r in a <==> r in b }

  /** No update for the slot carries the number that marks it empty. */
  ghost predicate NoMark(h: seq<Receipt>, market: nat, book: nat) {
    forall r :: r in h && ForSlot(r, market, book) ==> r.update.seqNo < EMPTY_SEQ
  }

  /** r is for the slot, and no receipt for it has a higher number. */
  ghost predicate IsTop(h: seq<Receipt>, market: nat, book: nat, r: Receipt) {
    r in h && ForSlot(r, market, book) &&
    forall x :: x in h && ForSlot(x, market, book) ==> x.update.seqNo <= r.update.seqNo
  }

  /** q is what the slot should hold: nothing if no receipt is for it, else the one with the highest number. */
  ghost predicate Newest(h: seq<Receipt>, market: nat, book: nat, q: Quote) {
    ((forall r :: r in h ==> !ForSlot(r, market, book)) && q == NO_QUOTE) ||
    exists r :: IsTop(h, market, book, r) && q == QuoteOf(r)
  }

  lemma {:induction false} SlotOneMore(h: seq<Receipt>, r: Receipt, market: nat, book: nat)
    ensures SlotAfter(h + [r], market, book) ==
      var q := SlotAfter(h, market, book);
      if ForSlot(r, market, book) && Advances(q, r.update.seqNo) then QuoteOf(r) else q
  {
    assert (h + [r])[..|h|] == h;
  }

  /** The slot holds the receipt with the highest sequence number. */
  lemma {:induction false} SlotHoldsNewest(h: seq<Receipt>, market: nat, book: nat)
    requires NoMark(h, market, book)
    ensures Newest(h, market, book, SlotAfter(h, market, book))
  {
    if h != [] {
      var init, last := h[..|h| - 1], h[|h| - 1];
      assert h == init + [last];
      SlotHoldsNewest(init, market, book);
      NewestOneMore(init, last, market, book, SlotAfter(init, market, book));
      SlotOneMore(init, last, market, book);
    }
  }

  lemma NewestOneMore(h: seq<Receipt>, last: Receipt, market: nat, book: nat, q: Quote)
    requires NoMark(h + [last], market, book) && Newest(h, market, book, q)
    ensures Newest(h + [last], market, book,
      if ForSlot(last, market, book) && Advances(q, last.update.seqNo) then QuoteOf(last) else q)
  {
    if exists r :: IsTop(h, market, book, r) && q == QuoteOf(r) {
      var r :| IsTop(h, market, book, r) && q == QuoteOf(r);
      assert r in h + [last];
      if ForSlot(last, market, book) && Advances(q, last.update.seqNo) {
        assert IsTop(h + [last], market, book, last);
      } else {
        assert IsTop(h + [last], market, book, r);
      }
    } else if ForSlot(last, market, book) {
      assert IsTop(h + [last], market, book, last);
    }
  }

  /** The update is for this market and book. */
  predicate Names(u: OddsUpdate, market: nat, book: nat) { u.marketId == market && u.bookId == book }

  /** h[i] is for the slot, none for it has a higher number, and none before it as high a one. */
  ghost predicate FirstNewest(h: seq<Receipt>, market: nat, book: nat, i: nat) {
    i < |h| && h[i].update.marketId == market && h[i].update.bookId == book &&
    forall j :: 0 <= j < |h| && Names(h[j].update, market, book) ==>
      h[j].update.seqNo <= h[i].update.seqNo && (j < i ==> h[j].update.seqNo < h[i].update.seqNo)
  }

  /** The slot holds what h[i] says, field by field, and h[i] is the first receipt with the highest number for it. */
  ghost predicate Shows(h: seq<Receipt>, market: nat, book: nat, q: Quote, i: nat) {
    FirstNewest(h, market, book, i) && q.oddsMilli == h[i].update.oddsMilli && q.recvTimestamp == h[i].recvNs &&
    q.seqNo == h[i].update.seqNo && q.outcomeCount == h[i].update.outcomeCount
  }

  /** Field by field: a slot holds the prices, count, number and time of the first receipt with the highest number for
      it, and is marked empty if nothing came for it. */
  lemma {:induction false} SlotFieldByField(h: seq<Receipt>, market: nat, book: nat)
    requires forall j :: 0 <= j < |h| && Names(h[j].update, market, book) ==> h[j].update.seqNo < 0xFFFF_FFFF_FFFF_FFFF
    ensures if forall j :: 0 <= j < |h| ==> !Names(h[j].update, market, book)
      then SlotAfter(h, market, book).seqNo == 0xFFFF_FFFF_FFFF_FFFF
      else exists i: nat :: Shows(h, market, book, SlotAfter(h, market, book), i)
  {
    if h != [] {
      var m := |h| - 1;
      var init, q := h[..m], SlotAfter(h[..m], market, book);
      var q' := SlotAfter(h, market, book);
      assert q' == if Names(h[m].update, market, book) && Advances(q, h[m].update.seqNo) then QuoteOf(h[m]) else q;
      SlotFieldByField(init, market, book);
      assert forall j :: 0 <= j < m ==> init[j] == h[j];
      if forall j :: 0 <= j < m ==> !Names(init[j].update, market, book) {
        if Names(h[m].update, market, book) { assert Shows(h, market, book, q', m); }
      } else {
        var i: nat :| Shows(init, market, book, q, i);
        assert h[i] == init[i] && Names(h[i].update, market, book);
        NextShown(h, market, book, q, i, m);
        assert Shows(h, market, book, q', m) || Shows(h, market, book, q', i);
      }
    }
  }

  lemma NextShown(h: seq<Receipt>, market: nat, book: nat, q: Quote, i: nat, m: nat)
    requires |h| == m + 1 && Shows(h[..m], market, book, q, i) && q.seqNo < EMPTY_SEQ
    ensures if Names(h[m].update, market, book) && Advances(q, h[m].update.seqNo)
      then Shows(h, market, book, QuoteOf(h[m]), m) else Shows(h, market, book, q, i)
  {
    if Names(h[m].update, market, book) && Advances(q, h[m].update.seqNo) {
      forall j | 0 <= j < |h| && Names(h[j].update, market, book)
        ensures h[j].update.seqNo <= h[m].update.seqNo && (j < m ==> h[j].update.seqNo < h[m].update.seqNo)
      {
        if j < m { assert Names(h[..m][j].update, market, book); }
      }
    } else {
      StillNewest(h, market, book, i, m);
    }
  }

  lemma StillNewest(h: seq<Receipt>, market: nat, book: nat, i: nat, m: nat)
    requires |h| == m + 1 && FirstNewest(h[..m], market, book, i)
    requires Names(h[m].update, market, book) ==> h[m].update.seqNo <= h[i].update.seqNo
    ensures FirstNewest(h, market, book, i)
  {
    forall j | 0 <= j < |h| && Names(h[j].update, market, book)
      ensures h[j].update.seqNo <= h[i].update.seqNo && (j < i ==> h[j].update.seqNo < h[i].update.seqNo)
    {
      if j < m { assert Names(h[..m][j].update, market, book); }
    }
  }

  /** In whatever order the updates of h arrive, the slot ends the same. */
  ghost predicate OrderIrrelevant(h: seq<Receipt>, market: nat, book: nat) {
    forall a :: multiset(a) == multiset(h) ==> SlotAfter(a, market, book) == SlotAfter(h, market, book)
  }

  /** The same, however often each of them arrives. */
  ghost predicate RepeatsIrrelevant(h: seq<Receipt>, market: nat, book: nat) {
    forall a :: SameReceipts(a, h) ==> SlotAfter(a, market, book) == SlotAfter(h, market, book)
  }

  ghost predicate OneQuote(h: seq<Receipt>, market: nat, book: nat) {
    forall r, x :: r in h && x in h && ForSlot(r, market, book) && ForSlot(x, market, book) ==> QuoteOf(r) == QuoteOf(x)
  }

  ghost predicate OneTopQuote(h: seq<Receipt>, market: nat, book: nat) {
    forall r, x :: IsTop(h, market, book, r) && IsTop(h, market, book, x) ==> QuoteOf(r) == QuoteOf(x)
  }

  /** The exact condition, for every history: all updates for the slot say the same, or none carries the mark and those
      with the highest number say the same. */
  ghost predicate Settled(h: seq<Receipt>, market: nat, book: nat) {
    OneQuote(h, market, book) || (NoMark(h, market, book) && OneTopQuote(h, market, book))
  }

  /** Order and repetition leave no trace in a slot exactly when its updates are settled. */
  lemma OrderIrrelevantIff(h: seq<Receipt>, market: nat, book: nat)
    ensures OrderIrrelevant(h, market, book) <==> Settled(h, market, book)
    ensures RepeatsIrrelevant(h, market, book) <==> Settled(h, market, book)
  {
    if Settled(h, market, book) {
      forall a | SameReceipts(a, h) ensures SlotAfter(a, market, book) == SlotAfter(h, market, book) {
        SettledAgrees(a, h, market, book);
      }
    }
    forall a | multiset(a) == multiset(h) ensures SameReceipts(a, h) { SameMembers(a, h); }
    if OrderIrrelevant(h, market, book) { IrrelevantIsSettled(h, market, book); }
  }

  lemma SameMembers(a: seq<Receipt>, h: seq<Receipt>)
    requires multiset(a) == multiset(h)
    ensures SameReceipts(a, h)
  {
    forall r ensures r in a <==> r in h {
      assert r in a <==> r in multiset(a);
      assert r in h <==> r in multiset(h);
    }
  }

  lemma SettledAgrees(a: seq<Receipt>, h: seq<Receipt>, market: nat, book: nat)
    requires SameReceipts(a, h) && Settled(h, market, book)
    ensures SlotAfter(a, market, book) == SlotAfter(h, market, book)
  {
    if OneQuote(h, market, book) {
      OneQuoteStays(a, market, book);
      OneQuoteStays(h, market, book);
    } else {
      SlotHoldsNewest(a, market, book);
      SlotHoldsNewest(h, market, book);
      if exists r :: r in h && ForSlot(r, market, book) {
        var r :| IsTop(a, market, book, r) && SlotAfter(a, market, book) == QuoteOf(r);
        assert IsTop(h, market, book, r);
      }
    }
  }

  /** What the slot can hold at all: nothing only if nothing came for it, else what some update for it said. */
  lemma {:induction false} OneQuoteStays(h: seq<Receipt>, market: nat, book: nat)
    ensures if forall r :: r in h ==> !ForSlot(r, market, book) then SlotAfter(h, market, book) == NO_QUOTE
      else exists r :: r in h && ForSlot(r, market, book) && SlotAfter(h, market, book) == QuoteOf(r)
  {
    if h != [] {
      var init, last := h[..|h| - 1], h[|h| - 1];
      assert h == init + [last];
      OneQuoteStays(init, market, book);
      SlotOneMore(init, last, market, book);
      assert last in h && forall r :: r in init ==> r in h;
    }
  }

  lemma IrrelevantIsSettled(h: seq<Receipt>, market: nat, book: nat)
    requires OrderIrrelevant(h, market, book)
    ensures Settled(h, market, book)
  {
    if !OneQuote(h, market, book) {
      if !NoMark(h, market, book) {
        MarkMakesOrderMatter(h, market, book);
      } else if !OneTopQuote(h, market, book) {
        TieMakesOrderMatter(h, market, book);
      }
    }
  }

  lemma MarkMakesOrderMatter(h: seq<Receipt>, market: nat, book: nat)
    requires !OneQuote(h, market, book) && !NoMark(h, market, book)
    ensures !OrderIrrelevant(h, market, book)
  {
    var r, x :| r in h && x in h && ForSlot(r, market, book) && ForSlot(x, market, book) && QuoteOf(r) != QuoteOf(x);
    var y :| y in h && ForSlot(y, market, book) && y.update.seqNo == EMPTY_SEQ;
    var z := if QuoteOf(r) != QuoteOf(y) then r else x;
    var rest := Without(h, y, z);
    MarkLetsLaterThrough(rest, y, z, market, book);
    TwoOrders(h, rest + [y, z], rest + [z, y], market, book);
  }

  lemma TieMakesOrderMatter(h: seq<Receipt>, market: nat, book: nat)
    requires NoMark(h, market, book) && !OneTopQuote(h, market, book)
    ensures !OrderIrrelevant(h, market, book)
  {
    var y, z :| IsTop(h, market, book, y) && IsTop(h, market, book, z) && QuoteOf(y) != QuoteOf(z);
    var rest := Without(h, y, z);
    FirstTopStays(h, y, z, rest, market, book);
    TwoOrders(h, [y, z] + rest, [z, y] + rest, market, book);
  }

  lemma TwoOrders(h: seq<Receipt>, a: seq<Receipt>, b: seq<Receipt>, market: nat, book: nat)
    requires multiset(a) == multiset(h) == multiset(b) && SlotAfter(a, market, book) != SlotAfter(b, market, book)
    ensures !OrderIrrelevant(h, market, book)
  {
  }

  /** What is left of h without two different entries, and that they may go back in at either end in either order. */
  lemma Without(h: seq<Receipt>, y: Receipt, z: Receipt) returns (rest: seq<Receipt>)
    requires y in h && z in h && y != z
    ensures forall r :: r in rest ==> r in h
    ensures multiset(rest + [y, z]) == multiset(h) == multiset(rest + [z, y])
    ensures multiset([y, z] + rest) == multiset(h) == multiset([z, y] + rest)
  {
    var one := WithoutOne(h, y);
    assert z in one by { assert z in multiset(h); assert z in multiset(one); }
    rest := WithoutOne(one, z);
    forall r | r in rest ensures r in h { assert r in multiset(rest); assert r in multiset(h); }
  }

  lemma WithoutOne(h: seq<Receipt>, y: Receipt) returns (rest: seq<Receipt>)
    requires y in h
    ensures multiset(h) == multiset(rest) + multiset{y}
  {
    var i :| 0 <= i < |h| && h[i] == y;
    rest := h[..i] + h[i + 1..];
    assert h == h[..i] + [y] + h[i + 1..];
  }

  /** An update with the mark leaves the slot open, so it and any other for the slot end with whichever comes last. */
  lemma MarkLetsLaterThrough(rest: seq<Receipt>, y: Receipt, z: Receipt, market: nat, book: nat)
    requires ForSlot(y, market, book) && ForSlot(z, market, book) && y.update.seqNo == EMPTY_SEQ
    ensures SlotAfter(rest + [y, z], market, book) == QuoteOf(z)
    ensures SlotAfter(rest + [z, y], market, book) == QuoteOf(y)
  {
    assert rest + [y, z] == (rest + [y]) + [z] && rest + [z, y] == (rest + [z]) + [y];
    SlotOneMore(rest, y, market, book);
    SlotOneMore(rest + [y], z, market, book);
    SlotOneMore(rest + [z], y, market, book);
  }

  /** Without the mark, the first to carry the highest number keeps the slot. */
  lemma FirstTopStays(h: seq<Receipt>, y: Receipt, z: Receipt, rest: seq<Receipt>, market: nat, book: nat)
    requires NoMark(h, market, book) && IsTop(h, market, book, y) && IsTop(h, market, book, z)
    requires forall r :: r in rest ==> r in h
    ensures SlotAfter([y, z] + rest, market, book) == QuoteOf(y)
    ensures SlotAfter([z, y] + rest, market, book) == QuoteOf(z)
  {
    assert [y, z] + rest == [y] + ([z] + rest) && [z, y] + rest == [z] + ([y] + rest);
    HeadStays(y, [z] + rest, market, book);
    HeadStays(z, [y] + rest, market, book);
  }

  lemma {:induction false} HeadStays(y: Receipt, tail: seq<Receipt>, market: nat, book: nat)
    requires ForSlot(y, market, book) && y.update.seqNo < EMPTY_SEQ
    requires forall r :: r in tail && ForSlot(r, market, book) ==> r.update.seqNo <= y.update.seqNo
    ensures SlotAfter([y] + tail, market, book) == QuoteOf(y)
  {
    if tail == [] {
      assert [y] + tail == [] + [y];
      SlotOneMore([], y, market, book);
    } else {
      var init, last := tail[..|tail| - 1], tail[|tail| - 1];
      assert [y] + tail == ([y] + init) + [last];
      HeadStays(y, init, market, book);
      SlotOneMore([y] + init, last, market, book);
    }
  }

  // ---- feeds whose numbers identify the updates ----

  /** Within a slot a number identifies the update. */
  ghost predicate NumbersIdentify(h: seq<Receipt>) {
    forall r, x :: r in h && x in h && SameSlotAndSeq(r, x) ==> r == x
  }

  predicate SameSlotAndSeq(r: Receipt, x: Receipt) {
    r.update.marketId == x.update.marketId && r.update.bookId == x.update.bookId && r.update.seqNo == x.update.seqNo
  }

  /** Sequence numbers are real ones, and within a slot a number identifies the update. */
  ghost predicate ProperHistory(h: seq<Receipt>) {
    (forall r :: r in h ==> r.update.seqNo < EMPTY_SEQ) && NumbersIdentify(h)
  }

  /** For such a feed the order matters exactly when an update with the mark meets a different one for its slot. */
  lemma OnlyTheMarkBreaksOrder(h: seq<Receipt>, market: nat, book: nat)
    requires NumbersIdentify(h)
    ensures OrderIrrelevant(h, market, book) <==> (NoMark(h, market, book) ||
      forall r, x :: r in h && x in h && ForSlot(r, market, book) && ForSlot(x, market, book) ==> r == x)
  {
    OrderIrrelevantIff(h, market, book);
    forall r, x | r in h && x in h && ForSlot(r, market, book) && ForSlot(x, market, book) && QuoteOf(r) == QuoteOf(x)
      ensures r == x
    {
      assert SameSlotAndSeq(r, x);
    }
    forall r, x | IsTop(h, market, book, r) && IsTop(h, market, book, x) ensures QuoteOf(r) == QuoteOf(x) {
      assert SameSlotAndSeq(r, x);
    }
  }

  /** Two proper histories with the same receipts leave the same quotes, in any order and with any duplication. */
  lemma SameReceiptsSameQuotes(a: seq<Receipt>, b: seq<Receipt>, market: nat, book: nat)
    requires ProperHistory(a) && SameReceipts(a, b)
    ensures SlotAfter(a, market, book) == SlotAfter(b, market, book)
  {
    forall r, x | IsTop(b, market, book, r) && IsTop(b, market, book, x) ensures QuoteOf(r) == QuoteOf(x) {
      assert r in a && x in a && SameSlotAndSeq(r, x);
    }
    SettledAgrees(a, b, market, book);
  }

  /** An update that carries the mark as its number is applied but leaves its slot looking empty: beside any other
      update for the slot, with an ordinary number, the order decides. */
  lemma SentinelBreaksOrder(x: Receipt, y: Receipt, market: nat, book: nat)
    requires ForSlot(x, market, book) && ForSlot(y, market, book) && x.update.seqNo == EMPTY_SEQ
    requires y.update.seqNo < EMPTY_SEQ
    ensures SlotAfter([x, y], market, book) != SlotAfter([y, x], market, book)
  {
    assert [] + [x, y] == [x, y] && [] + [y, x] == [y, x];
    MarkLetsLaterThrough([], x, y, market, book);
  }

  /** Every receipt is either applied or counted in exactly one of the two counters; in-order feeds are never stale. */
  lemma {:induction false} InOrderNeverStale(h: seq<Receipt>, markets: nat, books: nat)
    requires forall r :: r in h ==> r.update.seqNo < EMPTY_SEQ
    requires forall i, j :: 0 <= i < j < |h| && ForSlot(h[j], h[i].update.marketId, h[i].update.bookId) ==>
      h[i].update.seqNo < h[j].update.seqNo
    ensures CountStale(h, markets, books) == 0
  {
    if h != [] {
      var init, last := h[..|h| - 1], h[|h| - 1];
      InOrderNeverStale(init, markets, books);
      SlotHoldsNewest(init, last.update.marketId, last.update.bookId);
    }
  }
}

/** The session checker: what a good session is, and the loop that decides it. */
module SessionCheck {
  import opened Messages

  /** What the checker demands of one record by itself. */
  predicate GoodRecord(u: OddsUpdate, markets: u32) {
    u.marketId < markets && 2 <= u.outcomeCount <= 4 &&
    forall i :: 0 <= i < 4 ==> GoodOdds(u.oddsMilli[i], i < u.outcomeCount)
  }

  predicate GoodOdds(odds: u32, used: bool) {
    if used then MIN_ODDS_MILLI <= odds <= MAX_ODDS_MILLI else odds == 0
  }

  predicate SameSlot(u: OddsUpdate, v: OddsUpdate) { u.marketId == v.marketId && u.bookId == v.bookId }

  /** Within a slot the numbers rise strictly; over all records time never runs backwards. */
  ghost predicate RisesTo(us: seq<OddsUpdate>, u: OddsUpdate) {
    forall i :: 0 <= i < |us| ==>
      us[i].simTimestamp <= u.simTimestamp && (SameSlot(us[i], u) ==> us[i].seqNo < u.seqNo)
  }

  ghost predicate GoodRecords(us: seq<OddsUpdate>, markets: u32) {
    (forall i :: 0 <= i < |us| ==> GoodRecord(us[i], markets)) &&
    forall i :: 0 <= i < |us| ==> RisesTo(us[..i], us[i])
  }

  ghost predicate GoodSession(us: seq<OddsUpdate>, markets: u32, recordCount: u64) {
    GoodRecords(us, markets) && |us| == recordCount
  }

  // ---- the checker's loop ----

  function SlotKey(u: OddsUpdate): u32 { u.marketId * 0x1_0000 + u.bookId }

  lemma KeysIdentifySlots(u: OddsUpdate, v: OddsUpdate)
    ensures SlotKey(u) == SlotKey(v) <==> SameSlot(u, v)
  {
  }

  /** The map holds the number of the last record of every slot seen. */
  ghost predicate LastNumbers(us: seq<OddsUpdate>, lastSeq: map<u32, u64>) {
    (forall i :: 0 <= i < |us| ==> SlotKey(us[i]) in lastSeq) &&
    forall k :: k in lastSeq ==> exists i :: LastAt(us, k, lastSeq[k], i)
  }

  /** The last record of slot k is the i-th, with number n. */
  ghost predicate LastAt(us: seq<OddsUpdate>, k: u32, n: u64, i: int) {
    0 <= i < |us| && SlotKey(us[i]) == k && us[i].seqNo == n && forall j :: i < j < |us| ==> SlotKey(us[j]) != k
  }

  /** Count the failures of one record's odds. */
  method CheckOdds(u: OddsUpdate) returns (failures: nat)
    ensures failures == 0 <==> forall i :: 0 <= i < 4 ==> GoodOdds(u.oddsMilli[i], i < u.outcomeCount)
  {
    failures := 0;
    var i := 0;
    while i < 4
      invariant 0 <= i <= 4
      invariant failures == 0 <==> forall j :: 0 <= j < i ==> GoodOdds(u.oddsMilli[j], j < u.outcomeCount)
    {
      if i < u.outcomeCount {
        if u.oddsMilli[i] < MIN_ODDS_MILLI || u.oddsMilli[i] > MAX_ODDS_MILLI { failures := failures + 1; }
      } else {
        if u.oddsMilli[i] != 0 { failures := failures + 1; }
      }
      i := i + 1;
    }
  }

  /** A good session in full, record by record and pair by pair. */
  ghost predicate InGoodOrder(us: seq<OddsUpdate>, markets: u32) {
    (forall i :: 0 <= i < |us| ==> us[i].marketId < markets && 2 <= us[i].outcomeCount <= 4) &&
    (forall i, k :: 0 <= i < |us| && 0 <= k < us[i].outcomeCount && k < 4 ==>
      1001 <= us[i].oddsMilli[k] <= 1_000_000) &&
    (forall i, k :: 0 <= i < |us| && us[i].outcomeCount <= k < 4 ==> us[i].oddsMilli[k] == 0) &&
    (forall i, j :: 0 <= i < j < |us| ==> us[i].simTimestamp <= us[j].simTimestamp) &&
    forall i, j :: 0 <= i < j < |us| && us[i].marketId == us[j].marketId && us[i].bookId == us[j].bookId ==>
      us[i].seqNo < us[j].seqNo
  }

  lemma GoodMeansInOrder(us: seq<OddsUpdate>, markets: u32)
    ensures GoodRecords(us, markets) <==> InGoodOrder(us, markets)
  {
    if GoodRecords(us, markets) {
      RecordsAreFair(us, markets);
      forall i, j | 0 <= i < j < |us|
        ensures us[i].simTimestamp <= us[j].simTimestamp && (SameSlot(us[i], us[j]) ==> us[i].seqNo < us[j].seqNo)
      {
        assert RisesTo(us[..j], us[j]) && us[..j][i] == us[i];
      }
    }
    if InGoodOrder(us, markets) {
      forall i | 0 <= i < |us| ensures GoodRecord(us[i], markets) {
        forall k | 0 <= k < 4 ensures GoodOdds(us[i].oddsMilli[k], k < us[i].outcomeCount) {}
      }
      forall i | 0 <= i < |us| ensures RisesTo(us[..i], us[i]) {}
    }
  }

  lemma RecordsAreFair(us: seq<OddsUpdate>, markets: u32)
    requires forall i :: 0 <= i < |us| ==> GoodRecord(us[i], markets)
    ensures forall i :: 0 <= i < |us| ==> us[i].marketId < markets && 2 <= us[i].outcomeCount <= 4
    ensures forall i, k :: 0 <= i < |us| && 0 <= k < us[i].outcomeCount && k < 4 ==>
      1001 <= us[i].oddsMilli[k] <= 1_000_000
    ensures forall i, k :: 0 <= i < |us| && us[i].outcomeCount <= k < 4 ==> us[i].oddsMilli[k] == 0
  {
    forall i, k | 0 <= i < |us| && 0 <= k < 4 ensures GoodOdds(us[i].oddsMilli[k], k < us[i].outcomeCount) {
      assert GoodRecord(us[i], markets);
    }
  }

  /** The checker reports no failure exactly for good sessions. */
  method VerifySession(us: seq<OddsUpdate>, markets: u32, recordCount: u64) returns (failures: nat)
    ensures failures == 0 <==> GoodSession(us, markets, recordCount)
    ensures failures == 0 <==> InGoodOrder(us, markets) && |us| == recordCount
  {
    failures := CountFailures(us, markets, recordCount);
    GoodMeansInOrder(us, markets);
  }

  method CountFailures(us: seq<OddsUpdate>, markets: u32, recordCount: u64) returns (failures: nat)
    ensures failures == 0 <==> GoodSession(us, markets, recordCount)
  {
    var lastSeq: map<u32, u64> := map[];
    var lastTs: u64 := 0;
    failures := 0;
    var count := 0;
    while count < |us|
      invariant 0 <= count <= |us|
      invariant LastNumbers(us[..count], lastSeq)
      invariant lastTs == if count == 0 then 0 else us[count - 1].simTimestamp
      invariant failures == 0 <==> GoodRecords(us[..count], markets)
    {
      var u := us[count];
      var f := CheckRecord(us[..count], u, markets, lastSeq, lastTs);
      failures := failures + f;
      NextLast(us[..count], u, lastSeq);
      lastSeq := lastSeq[SlotKey(u) := u.seqNo];
      lastTs := u.simTimestamp;
      OneMoreRecord(us, count, markets);
      count := count + 1;
    }
    assert us[..count] == us;
    if count != recordCount { failures := failures + 1; }
  }

  lemma OneMoreRecord(us: seq<OddsUpdate>, n: nat, markets: u32)
    requires n < |us|
    ensures us[..n + 1] == us[..n] + [us[n]]
    ensures GoodRecords(us[..n + 1], markets) <==>
      GoodRecords(us[..n], markets) && GoodRecord(us[n], markets) && RisesTo(us[..n], us[n])
  {
    var all := us[..n + 1];
    forall i | 0 <= i <= n ensures all[..i] == us[..i] && all[i] == us[i] {}
    forall i | 0 <= i < n ensures us[..n][..i] == us[..i] && us[..n][i] == us[i] {}
  }

  lemma NextLast(us: seq<OddsUpdate>, u: OddsUpdate, lastSeq: map<u32, u64>)
    requires LastNumbers(us, lastSeq)
    ensures LastNumbers(us + [u], lastSeq[SlotKey(u) := u.seqNo])
  {
    var all, next := us + [u], lastSeq[SlotKey(u) := u.seqNo];
    forall k | k in next ensures exists i :: LastAt(all, k, next[k], i) {
      if k == SlotKey(u) {
        assert LastAt(all, k, next[k], |us|);
      } else {
        var i :| LastAt(us, k, lastSeq[k], i);
        assert LastAt(all, k, next[k], i);
      }
    }
  }

  /** One turn of the loop: as long as the records before are good, the record adds no failure exactly when it continues
      them. */
  method CheckRecord(ghost us: seq<OddsUpdate>, u: OddsUpdate, markets: u32, lastSeq: map<u32, u64>, lastTs: u64)
    returns (failures: nat)
    requires LastNumbers(us, lastSeq) && lastTs == if us == [] then 0 else us[|us| - 1].simTimestamp
    ensures GoodRecords(us, markets) ==> (failures == 0 <==> GoodRecord(u, markets) && RisesTo(us, u))
  {
    failures := CheckOdds(u);
    if u.marketId >= markets { failures := failures + 1; }
    if u.outcomeCount < 2 || u.outcomeCount > 4 { failures := failures + 1; }
    if SlotKey(u) in lastSeq && u.seqNo <= lastSeq[SlotKey(u)] { failures := failures + 1; }
    if u.simTimestamp < lastTs { failures := failures + 1; }
    if GoodRecords(us, markets) {
      RisesIff(us, u, markets, lastSeq, lastTs);
    }
  }

  lemma RisesIff(us: seq<OddsUpdate>, u: OddsUpdate, markets: u32, lastSeq: map<u32, u64>, lastTs: u64)
    requires GoodRecords(us, markets) && LastNumbers(us, lastSeq)
    requires lastTs == if us == [] then 0 else us[|us| - 1].simTimestamp
    ensures RisesTo(us, u) <==> lastTs <= u.simTimestamp && (SlotKey(u) in lastSeq ==> lastSeq[SlotKey(u)] < u.seqNo)
  {
    var k := SlotKey(u);
    if RisesTo(us, u) {
      if k in lastSeq {
        var i :| LastAt(us, k, lastSeq[k], i);
        KeysIdentifySlots(us[i], u);
      }
    }
    if lastTs <= u.simTimestamp && (k in lastSeq ==> lastSeq[k] < u.seqNo) {
      forall i | 0 <= i < |us|
        ensures us[i].simTimestamp <= u.simTimestamp && (SameSlot(us[i], u) ==> us[i].seqNo < u.seqNo)
      {
        TimeRises(us, i, markets);
        if SameSlot(us[i], u) {
          KeysIdentifySlots(us[i], u);
          LastIsHighest(us, i, k, lastSeq, markets);
        }
      }
    }
  }

  lemma TimeRises(us: seq<OddsUpdate>, i: nat, markets: u32)
    requires GoodRecords(us, markets) && i < |us|
    ensures us[i].simTimestamp <= us[|us| - 1].simTimestamp
  {
    var n := |us| - 1;
    if i < n {
      assert RisesTo(us[..n], us[n]) && us[..n][i] == us[i];
    }
  }

  lemma LastIsHighest(us: seq<OddsUpdate>, i: nat, k: u32, lastSeq: map<u32, u64>, markets: u32)
    requires GoodRecords(us, markets) && LastNumbers(us, lastSeq) && i < |us| && SlotKey(us[i]) == k
    ensures k in lastSeq && us[i].seqNo <= lastSeq[k]
  {
    var n :| LastAt(us, k, lastSeq[k], n);
    if i < n {
      assert RisesTo(us[..n], us[n]) && us[..n][i] == us[i];
      KeysIdentifySlots(us[i], us[n]);
    }
  }
}

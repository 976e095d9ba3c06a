/** A settle run: one transfer a provider, then the receipts that say what it paid for. */
module Payments {
  import opened Basics
  import opened Ledgers

  const RECEIPTS_PER_BATCH: nat := 50

  /** What a transfer came to. One lost sight of may have moved the money. */
  datatype Transferred = Moved(tx: nat) | LostSight(moved: bool) | NotSent

  /** What a batch of receipts came to: it lands whole or not at all, and may land without being seen to. */
  datatype Written = Landed | LandedUnseen | NotLanded

  /** By provider of the plan; and by provider and batch. */
  type Transfers = nat -> Transferred
  type Writes = (nat, nat) -> Written

  datatype Paid = Paid(provider: Address, tx: nat, amountWei: nat, records: nat, receipted: bool)

  datatype Outcome = PaidOut(paid: Paid) | Failed

  /** The receipt for one counter record, paid in full by one transfer: everything it was paid for is copied. */
  datatype ReceiptRecord = ReceiptRecord(counter: Key, provider: Address, agreement: Key, count: nat, weiPerCall: nat,
                                         amountWei: nat, tx: nat)

  function ReceiptFor(record: Counter, tx: nat): ReceiptRecord {
    ReceiptRecord(record.key, record.provider, record.agreement, record.count, record.weiPerCall,
                  record.count * record.weiPerCall, tx)
  }

  function ReceiptsFor(records: seq<Counter>, tx: nat): (receipts: seq<ReceiptRecord>)
    ensures |receipts| == |records| && forall r :: 0 <= r < |records| ==> receipts[r] == ReceiptFor(records[r], tx)
  {
    seq(|records|, r requires 0 <= r < |records| => ReceiptFor(records[r], tx))
  }

  /* ---------- a receipt on the chain ---------- */

  /** A receipt's JSON document. */
  datatype Document = Document(agreement: Key, count: nat, weiPerCall: nat, amountWei: nat, chainId: nat, tx: nat)

  datatype Field = Text(text: string) | Number(number: nat) | KeyValue(key: Key) | Addr(address: Address) | Bytes(document: Document)

  type Fields = map<string, Field>

  const KIND_RECEIPT := "rpc.receipt"
  const SCHEMA_VERSION := 1

  /** The entity settle creates for a receipt. */
  function EntityOf(receipt: ReceiptRecord, chainId: nat): Fields {
    map["kind" := Text(KIND_RECEIPT), "v" := Number(SCHEMA_VERSION), "counter" := KeyValue(receipt.counter),
        "provider" := Addr(receipt.provider),
        "payload" := Bytes(Document(receipt.agreement, receipt.count, receipt.weiPerCall, receipt.amountWei, chainId, receipt.tx))]
  }

  /** A receipt as settle reads it back. */
  datatype ReadBack = ReadBack(counter: Key, provider: Address, amountWei: nat, chainId: nat, tx: nat)

  datatype ReceiptError = NoPayload | NoField(name: string)

  function DecodeReceipt(row: Fields): Result<ReadBack, ReceiptError> {
    if !("payload" in row && row["payload"].Bytes?) then Err(ReceiptError.NoPayload)
    else if !("counter" in row && row["counter"].KeyValue?) then Err(NoField("counter"))
    else if !("provider" in row && row["provider"].Addr?) then Err(NoField("provider"))
    else
      var document := row["payload"].document;
      Ok(ReadBack(row["counter"].key, row["provider"].address, document.amountWei, document.chainId, document.tx))
  }

  /** What the query for one provider's receipts selects, of what its payer created. */
  predicate Selected(row: Fields, provider: Address) {
    && "kind" in row && row["kind"] == Text("rpc.receipt") && "v" in row && row["v"] == Number(1)
    && "provider" in row && row["provider"] == Addr(provider)
  }

  /** A receipt is found among its provider's and no other's, names the record it was written for, says what that
      record came to and which transfer paid it, and carries the count and rate it was paid at. */
  lemma ReceiptReadsBack(record: Counter, tx: nat, chainId: nat, provider: Address)
    ensures var row := EntityOf(ReceiptFor(record, tx), chainId);
            && (Selected(row, provider) <==> provider == record.provider)
            && DecodeReceipt(row) == Ok(ReadBack(record.key, record.provider, record.count * record.weiPerCall, chainId, tx))
            && row["payload"].document.agreement == record.agreement
            && row["payload"].document.count == record.count && row["payload"].document.weiPerCall == record.weiPerCall
  {
  }

  /** The records of `n` whose receipts were not seen to land: the ones of every batch that failed. */
  function Missing(i: nat, n: nat, writes: Writes): set<nat> {
    set r: nat | r < n && writes(i, r / RECEIPTS_PER_BATCH) != Landed
  }

  function OutcomeOf(i: nat, owed: Owed, transfers: Transfers, writes: Writes): Outcome {
    match transfers(i)
    case Moved(tx) => PaidOut(Paid(owed.provider, tx, owed.amountWei, |owed.records|, Missing(i, |owed.records|, writes) == {}))
    case _ => Failed
  }

  function Joined(batches: seq<seq<ReceiptRecord>>): seq<ReceiptRecord> {
    if batches == [] then [] else Joined(batches[..|batches| - 1]) + batches[|batches| - 1]
  }

  predicate Between(at: nat, r: nat, n: nat) {
    at <= r < n
  }

  function Range(at: nat, n: nat): set<nat> {
    set r: nat | r < n && Between(at, r, n)
  }

  lemma MissingMore(i: nat, at: nat, n: nat, writes: Writes)
    requires at % RECEIPTS_PER_BATCH == 0 && at <= n <= at + RECEIPTS_PER_BATCH
    ensures |Missing(i, n, writes)|
         == |Missing(i, at, writes)| + if writes(i, at / RECEIPTS_PER_BATCH) != Landed then n - at else 0
  {
    var more := Range(at, n);
    RangeSize(at, n);
    forall r: nat | Between(at, r, n) ensures r / RECEIPTS_PER_BATCH == at / RECEIPTS_PER_BATCH { SameBatch(at, r); }
    if writes(i, at / RECEIPTS_PER_BATCH) != Landed {
      assert Missing(i, n, writes) == Missing(i, at, writes) + more;
    } else {
      assert Missing(i, n, writes) == Missing(i, at, writes);
    }
  }

  lemma SameBatch(at: nat, r: nat)
    requires at % RECEIPTS_PER_BATCH == 0 && at <= r < at + RECEIPTS_PER_BATCH
    ensures r / RECEIPTS_PER_BATCH == at / RECEIPTS_PER_BATCH
  {
  }

  lemma {:induction false} RangeSize(at: nat, n: nat)
    requires at <= n
    ensures |Range(at, n)| == n - at
  {
    var all := Range(at, n);
    if at < n {
      RangeSize(at, n - 1);
      assert all == Range(at, n - 1) + {n - 1};
    } else {
      assert all == {};
    }
  }

  /** Every batch of receipts landed and was seen to. */
  ghost predicate AllLanded(i: nat, n: nat, writes: Writes) {
    forall b: nat :: 50 * b < n ==> writes(i, b) == Landed
  }

  /** The records whose batch, fifty to each, failed or was not seen to land. */
  function Unseen(i: nat, n: nat, writes: Writes): set<nat> {
    set r: nat | r < n && !writes(i, r / 50).Landed?
  }

  /** How many batches of fifty it takes. */
  function Batches(n: nat): nat {
    (n + 49) / 50
  }

  /** Place `x` of batch `b` is the receipt of record `50 b + x`. */
  predicate CarriedBy(records: seq<Counter>, tx: nat, b: nat, x: nat, receipt: ReceiptRecord) {
    50 * b + x < |records| && receipt == ReceiptFor(records[50 * b + x], tx)
  }

  ghost predicate CarriedIn(records: seq<Counter>, tx: nat, batches: seq<seq<ReceiptRecord>>) {
    forall b, x :: 0 <= b < |batches| && 0 <= x < |batches[b]| ==> CarriedBy(records, tx, b, x, batches[b][x])
  }

  lemma CarriedMore(records: seq<Counter>, tx: nat, batches: seq<seq<ReceiptRecord>>, at: nat, end: nat)
    requires CarriedIn(records, tx, batches) && at == RECEIPTS_PER_BATCH * |batches| && at <= end <= |records|
    ensures CarriedIn(records, tx, batches + [ReceiptsFor(records, tx)[at..end]])
  {
    var batch := ReceiptsFor(records, tx)[at..end];
    forall x | 0 <= x < |batch| ensures CarriedBy(records, tx, |batches|, x, batch[x]) {}
    hide CarriedBy;
  }

  lemma MissingNone(i: nat, n: nat, writes: Writes)
    ensures Missing(i, n, writes) == {} <==> AllLanded(i, n, writes)
    ensures Missing(i, n, writes) == Unseen(i, n, writes)
  {
    if AllLanded(i, n, writes) {
      forall r: nat | r < n ensures writes(i, r / RECEIPTS_PER_BATCH) == Landed { assert 50 * (r / 50) < n; }
    }
    if Missing(i, n, writes) == {} {
      forall b: nat | 50 * b < n ensures writes(i, b) == Landed {
        var r := 50 * b;
        assert r / RECEIPTS_PER_BATCH == b;
        assert r !in Missing(i, n, writes);
      }
    }
  }

  /** One provider. Every batch of receipts is tried, whatever the one before it did. Returns the batches sent,
      and how many records have no receipt seen. */
  method PayOne(i: nat, owed: Owed, transfers: Transfers, writes: Writes)
    returns (outcome: Outcome, batches: seq<seq<ReceiptRecord>>, missing: nat)
    ensures outcome == OutcomeOf(i, owed, transfers, writes)
    ensures outcome.Failed? ==> batches == [] && missing == 0
    ensures outcome.PaidOut? ==>
              && transfers(i) == Moved(outcome.paid.tx)
              && Joined(batches) == ReceiptsFor(owed.records, outcome.paid.tx)
              && missing == |Missing(i, |owed.records|, writes)|
              && outcome.paid.provider == owed.provider && outcome.paid.amountWei == owed.amountWei
              && outcome.paid.records == |owed.records|
              && (outcome.paid.receipted <==> AllLanded(i, |owed.records|, writes))
    ensures outcome.PaidOut? <==> transfers(i).Moved?
    ensures outcome.PaidOut? ==> |batches| == Batches(|owed.records|) && missing == |Unseen(i, |owed.records|, writes)|
    ensures outcome.PaidOut? ==>
              CarriedIn(owed.records, outcome.paid.tx, batches)
    ensures forall b :: 0 <= b < |batches| ==> 0 < |batches[b]| <= RECEIPTS_PER_BATCH
    ensures forall b :: 0 <= b < |batches| - 1 ==> |batches[b]| == RECEIPTS_PER_BATCH
  {
    hide Batches, AllLanded, Unseen, Missing, CarriedIn;
    batches, missing := [], 0;
    var transferred := transfers(i);
    if !transferred.Moved? { return Failed, [], 0; }
    var records := ReceiptsFor(owed.records, transferred.tx);
    var at := 0;
    NothingYet(i, writes, owed.records, transferred.tx);
    while at < |records|
      invariant at == RECEIPTS_PER_BATCH * |batches| && (at > 0 ==> at - RECEIPTS_PER_BATCH < |records|)
      invariant Joined(batches) == records[..Least(at, |records|)]
      invariant missing == |Missing(i, Least(at, |records|), writes)|
      invariant CarriedIn(owed.records, transferred.tx, batches)
      invariant forall b :: 0 <= b < |batches| ==> 0 < |batches[b]| <= RECEIPTS_PER_BATCH
      invariant forall b :: 0 <= b < |batches| - (if at <= |records| then 0 else 1) ==> |batches[b]| == RECEIPTS_PER_BATCH
    {
      var end := Least(at + RECEIPTS_PER_BATCH, |records|);
      CarriedMore(owed.records, transferred.tx, batches, at, end);
      var batch := records[at..end];
      MissingMore(i, at, end, writes);
      if writes(i, at / RECEIPTS_PER_BATCH) != Landed { missing := missing + |batch|; }
      assert (batches + [batch])[..|batches|] == batches;
      assert records[..at] + batch == records[..end];
      batches, at := batches + [batch], at + RECEIPTS_PER_BATCH;
    }
    assert records[..|records|] == records;
    BatchCount(|records|, |batches|);
    NoneMissing(Missing(i, |records|, writes));
    MissingNone(i, |records|, writes);
    outcome := PaidOut(Paid(owed.provider, transferred.tx, owed.amountWei, |records|, missing == 0));
  }

  lemma BatchCount(n: nat, k: nat)
    requires RECEIPTS_PER_BATCH * k >= n && (k > 0 ==> RECEIPTS_PER_BATCH * (k - 1) < n)
    ensures Batches(n) == k
  {
  }

  lemma NothingYet(i: nat, writes: Writes, records: seq<Counter>, tx: nat)
    ensures Missing(i, 0, writes) == {} && CarriedIn(records, tx, [])
  {
  }

  lemma NoneMissing(missing: set<nat>)
    ensures |missing| == 0 <==> missing == {}
  {
  }

  /** Paid, and every receipt seen: the run goes on to the next provider. */
  predicate Done(i: nat, owed: Owed, transfers: Transfers, writes: Writes) {
    transfers(i).Moved? && Missing(i, |owed.records|, writes) == {}
  }

  /** How many providers a run tries: up to and with the first that is not done. */
  ghost predicate Tries(owed: seq<Owed>, transfers: Transfers, writes: Writes, tried: nat) {
    && tried <= |owed|
    && (forall i: nat :: i < tried - 1 ==> Done(i, owed[i], transfers, writes))
    && (tried < |owed| ==> tried > 0 && !Done(tried - 1, owed[tried - 1], transfers, writes))
  }

  /** What the first `tried` providers were paid. */
  function PaidFor(owed: seq<Owed>, transfers: Transfers, writes: Writes, tried: nat): seq<Paid>
    requires tried <= |owed|
  {
    if tried == 0 then []
    else
      var outcome := OutcomeOf(tried - 1, owed[tried - 1], transfers, writes);
      PaidFor(owed, transfers, writes, tried - 1) + if outcome.PaidOut? then [outcome.paid] else []
  }

  /** Pays what the ledger says. The first provider not paid and fully receipted ends the run. */
  method Pay(plan: Ledger, blockedBy: seq<string>, transfers: Transfers, writes: Writes)
    returns (paid: Result<seq<Paid>, seq<string>>, tried: nat)
    ensures blockedBy != [] ==> paid == Err(blockedBy) && tried == 0
    ensures blockedBy == [] ==> Tries(plan.owed, transfers, writes, tried)
                                && paid == Ok(PaidFor(plan.owed, transfers, writes, tried))
    ensures blockedBy == [] ==> StopsRightly(plan.owed, transfers, writes, tried) && PaysRightly(plan.owed, transfers, writes, tried, paid.value)
  {
    if blockedBy != [] { return Err(blockedBy), 0; }
    var sofar: seq<Paid> := [];
    tried := 0;
    while tried < |plan.owed|
      invariant tried <= |plan.owed| && sofar == PaidFor(plan.owed, transfers, writes, tried)
      invariant forall i: nat :: i < tried ==> Done(i, plan.owed[i], transfers, writes)
    {
      var outcome, _, _ := PayOne(tried, plan.owed[tried], transfers, writes);
      assert sofar + [] == sofar;
      tried := tried + 1;
      if outcome.PaidOut? {
        sofar := sofar + [outcome.paid];
        if outcome.paid.receipted { continue; }
      }
      PaidExactly(plan.owed, transfers, writes, tried);
      return Ok(sofar), tried;
    }
    PaidExactly(plan.owed, transfers, writes, tried);
    paid := Ok(sofar);
  }

  /** The provider was paid and every receipt of it was seen to land. */
  ghost predicate Through(owed: seq<Owed>, transfers: Transfers, writes: Writes, i: nat)
    requires i < |owed|
  {
    transfers(i).Moved? && AllLanded(i, |owed[i].records|, writes)
  }

  /** Providers are tried in order, none after one that was not through, and every one when all were. */
  ghost predicate StopsRightly(owed: seq<Owed>, transfers: Transfers, writes: Writes, tried: nat) {
    && tried <= |owed|
    && (forall i: nat :: i < tried - 1 ==> Through(owed, transfers, writes, i))
    && (tried < |owed| ==> tried > 0 && !Through(owed, transfers, writes, tried - 1))
  }

  /** What is reported paid is each provider tried whose transfer is known to have moved, at what it was owed. */
  ghost predicate PaysRightly(owed: seq<Owed>, transfers: Transfers, writes: Writes, tried: nat, paid: seq<Paid>)
    requires tried <= |owed|
  {
    && |paid| == (if tried > 0 && !transfers(tried - 1).Moved? then tried - 1 else tried)
    && forall i :: 0 <= i < |paid| ==>
         && transfers(i) == Moved(paid[i].tx) && paid[i].provider == owed[i].provider && paid[i].amountWei == owed[i].amountWei
         && paid[i].records == |owed[i].records| && (paid[i].receipted <==> AllLanded(i, |owed[i].records|, writes))
  }

  lemma PaidExactly(owed: seq<Owed>, transfers: Transfers, writes: Writes, tried: nat)
    requires Tries(owed, transfers, writes, tried)
    ensures StopsRightly(owed, transfers, writes, tried)
    ensures PaysRightly(owed, transfers, writes, tried, PaidFor(owed, transfers, writes, tried))
  {
    forall i: nat | i < tried ensures Done(i, owed[i], transfers, writes) <==> Through(owed, transfers, writes, i) {
      MissingNone(i, |owed[i].records|, writes);
    }
    if tried > 0 {
      PaidUpTo(owed, transfers, writes, tried - 1);
      MissingNone(tried - 1, |owed[tried - 1].records|, writes);
    }
    hide AllLanded, Missing;
  }

  lemma {:induction false} PaidUpTo(owed: seq<Owed>, transfers: Transfers, writes: Writes, tried: nat)
    requires tried <= |owed| && forall i: nat :: i < tried ==> Done(i, owed[i], transfers, writes)
    ensures PaysRightly(owed, transfers, writes, tried, PaidFor(owed, transfers, writes, tried))
  {
    hide AllLanded;
    if tried > 0 {
      PaidUpTo(owed, transfers, writes, tried - 1);
      assert Done(tried - 1, owed[tried - 1], transfers, writes);
      assert tried > 1 ==> Done(tried - 2, owed[tried - 2], transfers, writes);
      MissingNone(tried - 1, |owed[tried - 1].records|, writes);
    }
  }

  /** What a run paid is a prefix of what was owed, in order, to the wei; and all but the last are receipted. */
  lemma {:induction false} PaidIsPrefix(owed: seq<Owed>, transfers: Transfers, writes: Writes, tried: nat)
    requires tried <= |owed| && forall i: nat :: i < tried - 1 ==> Done(i, owed[i], transfers, writes)
    ensures var paid := PaidFor(owed, transfers, writes, tried);
            && tried - 1 <= |paid| <= tried
            && (forall i :: 0 <= i < |paid| ==> paid[i].provider == owed[i].provider && paid[i].amountWei == owed[i].amountWei
                                                && paid[i].records == |owed[i].records| && transfers(i) == Moved(paid[i].tx))
            && (forall i :: 0 <= i < |paid| - 1 ==> paid[i].receipted)
  {
    if tried > 0 {
      PaidIsPrefix(owed, transfers, writes, tried - 1);
      if tried > 1 { assert Done(tried - 2, owed[tried - 2], transfers, writes); AllPaid(owed, transfers, writes, tried - 1); }
    }
  }

  lemma {:induction false} AllPaid(owed: seq<Owed>, transfers: Transfers, writes: Writes, tried: nat)
    requires tried <= |owed| && forall i: nat :: i < tried ==> Done(i, owed[i], transfers, writes)
    ensures var paid := PaidFor(owed, transfers, writes, tried);
            |paid| == tried && forall i :: 0 <= i < tried ==> paid[i].receipted
  {
    if tried > 0 { AllPaid(owed, transfers, writes, tried - 1); }
  }
}

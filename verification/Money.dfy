/** Settle over many runs, beside an LB that keeps counting: what is paid, how often, and how much in all. */
module Money {
  import opened Basics
  import opened Sorting
  import opened CounterRecords
  import LB = CounterProtocol
  import Kept = CounterInvariant
  import Proved = CounterTheorems
  import Settings
  import opened Ledgers
  import opened Payments

  /** A receipt lives as long as the chain lets anything live. */
  const RECEIPT_LIFE_BLOCKS: nat := Settings.MAX_BLOCKS

  /** A receipt settle wrote for a counter record. */
  datatype Receipt = Receipt(provider: Address, expiresAt: nat)

  /** The receipts alive; and over all runs, by record: how many transfers covered it, the wei they moved for
      it, and the records a run reported as paid without a receipt or as lost sight of. */
  datatype Books = Books(receipts: map<Key, Receipt>, covered: map<Key, int>, wei: map<Key, int>, reported: set<Key>)

  /* ---------- reading what the LB wrote ---------- */

  function CounterOf(k: Key, record: CounterRecord): Counter {
    Counter(k, record.agreement, record.provider, record.count, record.weiPerCall,
            match record.closedBlock case Some(block) => block case None => 0)
  }

  datatype DecodeError = NoClosingBlock | NoPayload | NoAttribute(name: string)

  function DecodeCounter(k: Key, row: Attributes): Result<Counter, DecodeError> {
    if !("payload" in row && row["payload"].Bytes?) then Err(DecodeError.NoPayload)
    else if row["payload"].document.closedBlock.None? then Err(NoClosingBlock)
    else if !("agreement" in row && row["agreement"].KeyValue?) then Err(NoAttribute("agreement"))
    else if !("provider" in row && row["provider"].Addr?) then Err(NoAttribute("provider"))
    else
      var document := row["payload"].document;
      Ok(Counter(k, row["agreement"].key, row["provider"].address, document.count, document.weiPerCall, document.closedBlock.value))
  }

  /** What settle's query for closed counter records selects, of what the LB created. */
  predicate ClosedSelected(row: Attributes) {
    && "kind" in row && row["kind"] == Str("rpc.counter") && "v" in row && row["v"] == I32(1)
    && "state" in row && row["state"] == Str("closed")
  }

  /** Settle's query selects exactly the closed records, and it reads back exactly the record the LB wrote, if and only if the record names its closing block. */
  lemma SettleReads(k: Key, record: CounterRecord)
    ensures ClosedSelected(Encode(record)) <==> record.state == Closed
    ensures DecodeCounter(k, Encode(record)) == if record.closedBlock.Some? then Ok(CounterOf(k, record)) else Err(NoClosingBlock)
    ensures ReadFrom(CounterOf(k, record), record) && CounterOf(k, record).count == record.count && CounterOf(k, record).key == k
    ensures record.closedBlock.Some? ==> CounterOf(k, record).closedBlock == record.closedBlock.value
  {
    assert "open"[0] != "closed"[0];
  }

  /* ---------- one provider of one run ---------- */

  function KeysIn(records: seq<Counter>): set<Key> {
    set r | 0 <= r < |records| :: records[r].key
  }

  function AmountByKey(records: seq<Counter>, k: Key): nat {
    if records == [] then 0
    else if records[|records| - 1].key == k then AmountOf(records[|records| - 1])
    else AmountByKey(records[..|records| - 1], k)
  }

  predicate MoneyMoved(transferred: Transferred) {
    transferred.Moved? || (transferred.LostSight? && transferred.moved)
  }

  function ReceiptedKeys(i: nat, records: seq<Counter>, transfers: Transfers, writes: Writes): set<Key> {
    set r: nat | r < |records| && transfers(i).Moved? && writes(i, r / RECEIPTS_PER_BATCH) != NotLanded :: records[r].key
  }

  function ReportedKeys(i: nat, records: seq<Counter>, transfers: Transfers, writes: Writes): set<Key> {
    set r: nat | r < |records| && (transfers(i).LostSight? || (transfers(i).Moved? && writes(i, r / RECEIPTS_PER_BATCH) != Landed))
      :: records[r].key
  }

  /** The receipt on the chain names this record. */
  predicate NamesRecord(row: Fields, k: Key) {
    DecodeReceipt(row).Ok? && DecodeReceipt(row).value.counter == k
  }

  /** The records receipted are the ones that the receipts in batches that landed name, as the next run reads them. */
  lemma ReceiptedAreNamed(i: nat, records: seq<Counter>, transfers: Transfers, writes: Writes, chainId: nat, k: Key)
    requires transfers(i).Moved?
    ensures k in ReceiptedKeys(i, records, transfers, writes) <==>
              exists r: nat :: r < |records| && writes(i, r / RECEIPTS_PER_BATCH) != NotLanded
                && NamesRecord(EntityOf(ReceiptsFor(records, transfers(i).tx)[r], chainId), k)
  {
    forall r: nat | r < |records| ensures NamesRecord(EntityOf(ReceiptsFor(records, transfers(i).tx)[r], chainId), k) <==> records[r].key == k {
      ReceiptReadsBack(records[r], transfers(i).tx, chainId, records[r].provider);
    }
    hide DecodeReceipt, EntityOf, NamesRecord;
    if k in ReceiptedKeys(i, records, transfers, writes) {
      var r: nat :| r < |records| && writes(i, r / RECEIPTS_PER_BATCH) != NotLanded && records[r].key == k;
      assert NamesRecord(EntityOf(ReceiptsFor(records, transfers(i).tx)[r], chainId), k);
    }
  }

  /** The books after one provider; receipts land in `block`. */
  function AfterEntry(books: Books, i: nat, owed: Owed, transfers: Transfers, writes: Writes, block: nat): Books {
    var keys, moved := KeysIn(owed.records), MoneyMoved(transfers(i));
    var receipted := ReceiptedKeys(i, owed.records, transfers, writes);
    Books(
      map k | k in books.receipts.Keys + receipted ::
        if k in receipted then Receipt(owed.provider, block + RECEIPT_LIFE_BLOCKS) else books.receipts[k],
      map k | k in books.covered.Keys + keys :: At(books.covered, k) + if moved && k in keys then 1 else 0,
      map k | k in books.wei.Keys + keys :: At(books.wei, k) + if moved && k in keys then AmountByKey(owed.records, k) else 0,
      books.reported + ReportedKeys(i, owed.records, transfers, writes))
  }

  /** One of the records is this one. */
  ghost predicate IsAmong(records: seq<Counter>, k: Key) {
    exists r :: 0 <= r < |records| && records[r].key == k
  }

  /** What one provider's turn adds to the books: a receipt, living its life from the block it lands in, for each record
      of a batch that landed; a cover for each record once the money moved, seen or not; a report of each record whose
      transfer was lost sight of or whose receipt was not seen to land. */
  lemma EntryBooks(books: Books, i: nat, owed: Owed, transfers: Transfers, writes: Writes, block: nat, k: Key)
    ensures var after, n := AfterEntry(books, i, owed, transfers, writes, block), |owed.records|;
            var receipted := exists r: nat :: r < n && owed.records[r].key == k && transfers(i).Moved? && writes(i, r / 50) != NotLanded;
            && (k in after.receipts <==> k in books.receipts || receipted)
            && (k in after.receipts ==>
                  after.receipts[k] == if receipted then Receipt(owed.provider, block + 7_884_000) else books.receipts[k])
            && (At(after.covered, k) == At(books.covered, k)
                  + if IsAmong(owed.records, k) && (transfers(i).Moved? || (transfers(i).LostSight? && transfers(i).moved)) then 1 else 0)
            && (k in after.reported <==>
                  || k in books.reported || (transfers(i).LostSight? && IsAmong(owed.records, k))
                  || (transfers(i).Moved? && exists r :: r in Unseen(i, n, writes) && owed.records[r].key == k))
  {
    var n := |owed.records|;
    assert IsAmong(owed.records, k) <==> k in KeysIn(owed.records);
    assert k in ReceiptedKeys(i, owed.records, transfers, writes) <==>
           exists r: nat :: r < n && owed.records[r].key == k && transfers(i).Moved? && writes(i, r / 50) != NotLanded;
    assert k in ReportedKeys(i, owed.records, transfers, writes) <==>
             || (transfers(i).LostSight? && IsAmong(owed.records, k))
             || (transfers(i).Moved? && exists r :: r in Unseen(i, n, writes) && owed.records[r].key == k) by {
      if r :| r in Unseen(i, n, writes) && owed.records[r].key == k { assert r < n && writes(i, r / RECEIPTS_PER_BATCH) != Landed; }
      if r: nat :| r < n && writes(i, r / RECEIPTS_PER_BATCH) != Landed && owed.records[r].key == k { assert r in Unseen(i, n, writes); }
    }
    hide KeysIn, ReceiptedKeys, ReportedKeys, Unseen, IsAmong;
  }

  /** The books after the providers from `n` up to `tried`, nothing coming between. */
  function PaidOn(books: Books, owed: seq<Owed>, transfers: Transfers, writes: Writes, block: nat, n: nat, tried: nat): Books
    requires n <= tried <= |owed|
    decreases tried - n
  {
    if n == tried then books
    else PaidOn(AfterEntry(books, n, owed[n], transfers, writes, block), owed, transfers, writes, block, n + 1, tried)
  }

  /* ---------- the two together ---------- */

  /** What a run read and works through: whom it owes, and how many of them it is through with. */
  datatype Plan = Plan(owed: seq<Owed>, next: nat)

  datatype Joint = Joint(lb: LB.World, books: Books, plan: Option<Plan>)

  /** A run is its reads and then one provider after another; anything the LB does may come between. */
  datatype JointStep =
    | Lb(step: LB.Step)
    | ReceiptGone(k: Key)
    | Read(closed: seq<Counter>, payers: seq<Address>, receipts: Receipts, ledger: Ledger)
    | PayNext(transfers: Transfers, writes: Writes, block: nat)
    | Stop

  predicate Alive(chain: LB.Chain, head: nat, k: Key) {
    k in chain && chain[k].expiresAt > head
  }

  /** A run reads closed records that are alive, each once; not necessarily all of them. */
  ghost predicate ReadsClosed(w: LB.World, closed: seq<Counter>) {
    && (forall c :: c in closed ==>
         Alive(w.chain, w.head, c.key) && LB.ClosedOn(w.chain, c.key) && c == CounterOf(c.key, w.chain[c.key].record))
    && forall i, j :: 0 <= i < j < |closed| ==> closed[i].key != closed[j].key
  }

  /** And every receipt its own keys wrote. */
  ghost predicate ReadsReceipts(books: Books, payers: seq<Address>, receipts: Receipts) {
    forall p: Address, k: Key ::
      HasReceipt(payers, receipts, p, k) <==> k in books.receipts && books.receipts[k].provider == p
  }

  ghost predicate Enabled(j: Joint, step: JointStep) {
    match step
    case Lb(s) => LB.Enabled(j.lb, s) && (s.LandCreate? ==> s.life <= Settings.MAX_BLOCKS)
    case ReceiptGone(k) => k in j.books.receipts && j.books.receipts[k].expiresAt <= j.lb.head
    case Read(closed, payers, receipts, ledger) =>
      && j.plan.None? && ReadsClosed(j.lb, closed) && ReadsReceipts(j.books, payers, receipts)
      && LedgerIs(closed, payers, receipts, ledger)
    case PayNext(transfers, writes, block) => j.plan.Some? && j.plan.value.next < |j.plan.value.owed| && block >= j.lb.head
    case Stop => j.plan.Some?
  }

  /** The run goes on after a provider that is paid and fully receipted, and ends after any other. */
  function Onward(plan: Plan, transfers: Transfers, writes: Writes): Option<Plan>
    requires plan.next < |plan.owed|
  {
    if Done(plan.next, plan.owed[plan.next], transfers, writes) && plan.next + 1 < |plan.owed|
    then Some(plan.(next := plan.next + 1)) else None
  }

  ghost function Apply(j: Joint, step: JointStep): Joint
    requires Enabled(j, step)
  {
    match step
    case Lb(s) => j.(lb := LB.Apply(j.lb, s))
    case ReceiptGone(k) => j.(books := j.books.(receipts := j.books.receipts - {k}))
    case Read(_, _, _, ledger) => j.(plan := Some(Plan(ledger.owed, 0)))
    case PayNext(transfers, writes, block) =>
      var plan := j.plan.value;
      j.(books := AfterEntry(j.books, plan.next, plan.owed[plan.next], transfers, writes, block),
         plan := Onward(plan, transfers, writes))
    case Stop => j.(plan := None)
  }

  ghost predicate Feasible(j: Joint, run: seq<JointStep>)
    decreases |run|
  {
    run == [] || (Enabled(j, run[0]) && Feasible(Apply(j, run[0]), run[1..]))
  }

  ghost function After(j: Joint, run: seq<JointStep>): Joint
    requires Feasible(j, run)
    decreases |run|
  {
    if run == [] then j else After(Apply(j, run[0]), run[1..])
  }

  function Start(period: nat, head: nat): Joint {
    Joint(LB.Genesis(period, head), Books(map[], map[], map[], {}), None)
  }

  /* ---------- what holds ---------- */

  /** No record lives longer than a receipt written now. */
  ghost predicate LivesCapped(chain: LB.Chain, head: nat) {
    forall k :: k in chain ==> chain[k].expiresAt <= head + Settings.MAX_BLOCKS
  }

  /** Paid once, for no more than it says, and receipted for as long as it lives. */
  predicate PaidWell(chain: LB.Chain, head: nat, ledger: map<Key, CounterRecord>, books: Books, k: Key) {
    && k in ledger && At(books.covered, k) == 1
    && At(books.wei, k) <= ledger[k].count * ledger[k].weiPerCall
    && (Alive(chain, head, k) ==> k in books.receipts && books.receipts[k].expiresAt >= chain[k].expiresAt)
  }

  ghost predicate BooksSound(chain: LB.Chain, head: nat, ledger: map<Key, CounterRecord>, books: Books) {
    && (forall k: Key :: At(books.covered, k) != 0 && k !in books.reported ==> PaidWell(chain, head, ledger, books, k))
    && (forall k: Key :: At(books.covered, k) == 0 ==> At(books.wei, k) == 0)
    && (forall k: Key :: At(books.covered, k) >= 0)
    && (forall k :: k in books.receipts ==> k in ledger && books.receipts[k].provider == ledger[k].provider)
  }

  /** A record as it was read, or with more of a count since. */
  predicate ReadFrom(c: Counter, record: CounterRecord) {
    && c.agreement == record.agreement && c.provider == record.provider && c.weiPerCall == record.weiPerCall
    && c.count <= record.count
  }

  /** A record a run is about to pay: closed, no less now than it was read as, with no receipt, and reported if
      money moved for it before. */
  predicate Payable(ledger: map<Key, CounterRecord>, books: Books, c: Counter) {
    && c.key in ledger && ReadFrom(c, ledger[c.key]) && c.key !in books.receipts
    && (At(books.covered, c.key) != 0 ==> c.key in books.reported)
  }

  ghost predicate PayableEntry(ledger: map<Key, CounterRecord>, books: Books, owed: Owed) {
    && (forall c :: c in owed.records ==> Payable(ledger, books, c) && c.provider == owed.provider)
    && (forall r, q :: 0 <= r < q < |owed.records| ==> owed.records[r].key != owed.records[q].key)
    && owed.amountWei == SumOf(owed.records)
  }

  /** The entries from `n` on can still be paid. */
  ghost predicate StillPayable(ledger: map<Key, CounterRecord>, books: Books, owed: seq<Owed>, n: nat) {
    && (forall i :: n <= i < |owed| ==> PayableEntry(ledger, books, owed[i]))
    && forall i, q :: 0 <= i < q < |owed| ==> KeysIn(owed[i].records) !! KeysIn(owed[q].records)
  }

  ghost predicate PlanSound(ledger: map<Key, CounterRecord>, books: Books, plan: Option<Plan>) {
    plan.Some? ==> StillPayable(ledger, books, plan.value.owed, plan.value.next)
  }

  ghost predicate Sound(j: Joint) {
    && Kept.Inv(j.lb) && LivesCapped(j.lb.chain, j.lb.head)
    && BooksSound(j.lb.chain, j.lb.head, j.lb.ledger, j.books)
    && PlanSound(j.lb.ledger, j.books, j.plan)
  }

  /* ---------- the LB's steps ---------- */

  /** A step of the LB moves no expiry and no head back; what it creates is new. */
  lemma ChainMoves(w: LB.World, step: LB.Step)
    requires LB.Enabled(w, step)
    ensures LB.Apply(w, step).head >= w.head
    ensures forall k :: k in LB.Apply(w, step).chain ==>
              || (k in w.chain && LB.Apply(w, step).chain[k].expiresAt == w.chain[k].expiresAt)
              || (step.LandCreate? && k == step.k && LB.Apply(w, step).chain[k].expiresAt == w.head + step.life)
    ensures step.LandCreate? ==> step.k !in w.issued
  {
    hide LB.LeftToBill, LB.LostWith, LB.DoubledWith, LB.FinalOrders, LB.ReadOf, LB.Reconciled, LB.InStep;
    hide LB.Hidden, LB.CountOrders, LB.ClosingsOf, LB.Acknowledged, LB.Successors, LB.WithOneMore;
  }

  lemma IssuedLedger(w: LB.World)
    requires Kept.Inv(w)
    ensures forall k :: k in w.ledger ==> k in w.issued
  {
  }

  lemma Grows(count: nat, more: nat, rate: nat)
    requires count <= more
    ensures count * rate <= more * rate
  {
  }

  lemma PaidWellStays(w: LB.World, step: LB.Step, books: Books, k: Key)
    requires Kept.Inv(w) && LB.Enabled(w, step) && PaidWell(w.chain, w.head, w.ledger, books, k)
    ensures var after := LB.Apply(w, step); PaidWell(after.chain, after.head, after.ledger, books, k)
  {
    IssuedLedger(w);
    Proved.ClosedRecordStands(w, step, k);
    ChainMoves(w, step);
    hide Kept.Inv, LB.Apply, LB.Enabled;
    Grows(w.ledger[k].count, LB.Apply(w, step).ledger[k].count, w.ledger[k].weiPerCall);
  }

  lemma LivesStayCapped(w: LB.World, step: LB.Step)
    requires LivesCapped(w.chain, w.head) && LB.Enabled(w, step) && (step.LandCreate? ==> step.life <= Settings.MAX_BLOCKS)
    ensures LivesCapped(LB.Apply(w, step).chain, LB.Apply(w, step).head)
  {
    ChainMoves(w, step);
    hide LB.Apply, LB.Enabled;
  }

  lemma BooksStaySound(w: LB.World, step: LB.Step, books: Books)
    requires Kept.Inv(w) && LB.Enabled(w, step) && BooksSound(w.chain, w.head, w.ledger, books)
    ensures var after := LB.Apply(w, step); BooksSound(after.chain, after.head, after.ledger, books)
  {
    hide Kept.Inv, LB.Apply, LB.Enabled, PaidWell;
    var after := LB.Apply(w, step);
    forall k: Key | At(books.covered, k) != 0 && k !in books.reported
      ensures PaidWell(after.chain, after.head, after.ledger, books, k)
    {
      PaidWellStays(w, step, books, k);
    }
    forall k | k in books.receipts ensures k in after.ledger && books.receipts[k].provider == after.ledger[k].provider {
      Proved.ClosedRecordStands(w, step, k);
    }
  }

  lemma PlanStaysSound(w: LB.World, step: LB.Step, books: Books, plan: Option<Plan>)
    requires Kept.Inv(w) && LB.Enabled(w, step) && PlanSound(w.ledger, books, plan)
    ensures PlanSound(LB.Apply(w, step).ledger, books, plan)
  {
    hide Kept.Inv, LB.Apply, LB.Enabled, PayableEntry, KeysIn;
    if plan.Some? {
      forall i | plan.value.next <= i < |plan.value.owed|
        ensures PayableEntry(LB.Apply(w, step).ledger, books, plan.value.owed[i])
      {
        EntryStaysPayable(w, step, books, plan.value.owed[i]);
      }
    }
  }

  lemma EntryStaysPayable(w: LB.World, step: LB.Step, books: Books, owed: Owed)
    requires Kept.Inv(w) && LB.Enabled(w, step) && PayableEntry(w.ledger, books, owed)
    ensures PayableEntry(LB.Apply(w, step).ledger, books, owed)
  {
    hide Kept.Inv, LB.Apply, LB.Enabled, Payable, SumOf;
    forall c | c in owed.records ensures Payable(LB.Apply(w, step).ledger, books, c) {
      PayableStays(w, step, books, c);
    }
  }

  /** A closed record only grows, so what was read of it can still be paid. */
  lemma PayableStays(w: LB.World, step: LB.Step, books: Books, c: Counter)
    requires Kept.Inv(w) && LB.Enabled(w, step) && Payable(w.ledger, books, c)
    ensures Payable(LB.Apply(w, step).ledger, books, c)
  {
    Proved.ClosedRecordStands(w, step, c.key);
    hide Kept.Inv, LB.Apply, LB.Enabled;
  }

  lemma LbKeeps(j: Joint, step: LB.Step)
    requires Sound(j) && Enabled(j, Lb(step))
    ensures Sound(Apply(j, Lb(step)))
  {
    hide Kept.Inv, LB.Apply, LB.Enabled, BooksSound, LivesCapped, PlanSound;
    Kept.StepKeeps(j.lb, step);
    LivesStayCapped(j.lb, step);
    BooksStaySound(j.lb, step, j.books);
    PlanStaysSound(j.lb, step, j.books, j.plan);
  }

  lemma FewerReceipts(chain: LB.Chain, head: nat, ledger: map<Key, CounterRecord>, books: Books, k: Key)
    requires BooksSound(chain, head, ledger, books) && k in books.receipts && books.receipts[k].expiresAt <= head
    ensures BooksSound(chain, head, ledger, books.(receipts := books.receipts - {k}))
  {
    var fewer := books.(receipts := books.receipts - {k});
    forall other: Key | At(fewer.covered, other) != 0 && other !in fewer.reported ensures PaidWell(chain, head, ledger, fewer, other) {
      assert PaidWell(chain, head, ledger, books, other);
    }
  }

  lemma FewerReceiptsPlan(ledger: map<Key, CounterRecord>, books: Books, plan: Option<Plan>, k: Key)
    requires PlanSound(ledger, books, plan)
    ensures PlanSound(ledger, books.(receipts := books.receipts - {k}), plan)
  {
    if plan.Some? {
      hide KeysIn, ReadFrom;
      forall i | plan.value.next <= i < |plan.value.owed|
        ensures PayableEntry(ledger, books.(receipts := books.receipts - {k}), plan.value.owed[i])
      {
        assert PayableEntry(ledger, books, plan.value.owed[i]);
      }
    }
  }

  lemma ReceiptGoneKeeps(j: Joint, k: Key)
    requires Sound(j) && Enabled(j, ReceiptGone(k))
    ensures Sound(Apply(j, ReceiptGone(k)))
  {
    hide Kept.Inv, BooksSound, LivesCapped, PlanSound;
    FewerReceipts(j.lb.chain, j.lb.head, j.lb.ledger, j.books, k);
    FewerReceiptsPlan(j.lb.ledger, j.books, j.plan, k);
  }

  /* ---------- a run ---------- */

  lemma {:induction false} AmountIs(records: seq<Counter>, c: Counter)
    requires c in records && forall r, q :: 0 <= r < q < |records| ==> records[r].key != records[q].key
    ensures AmountByKey(records, c.key) == AmountOf(c)
  {
    var before, last := records[..|records| - 1], records[|records| - 1];
    assert records == before + [last];
    if last.key == c.key {
      var r :| 0 <= r < |records| && records[r] == c;
    } else {
      AmountIs(before, c);
    }
  }

  lemma {:induction false} NotThere(records: seq<Counter>, k: Key)
    requires k !in KeysIn(records)
    ensures AmountByKey(records, k) == 0
  {
    if records != [] {
      var before := records[..|records| - 1];
      assert forall r :: 0 <= r < |before| ==> before[r] == records[r];
      assert records[|records| - 1].key in KeysIn(records);
      NotThere(before, k);
    }
  }

  /** What the books say was moved for each record of an entry adds up to the one amount transferred. */
  function WeiOver(records: seq<Counter>, wei: map<Key, int>): int {
    if records == [] then 0 else WeiOver(records[..|records| - 1], wei) + At(wei, records[|records| - 1].key)
  }

  lemma {:induction false} SumBack(records: seq<Counter>)
    requires records != []
    ensures SumOf(records) == SumOf(records[..|records| - 1]) + AmountOf(records[|records| - 1])
  {
    if |records| == 1 {
      assert records[1..] == [] && records[..0] == [];
    } else {
      SumBack(records[1..]);
      assert records[1..][..|records[1..]| - 1] == records[..|records| - 1][1..];
    }
  }

  lemma {:induction false} EntryMoves(books: Books, after: Books, all: seq<Counter>, n: nat)
    requires n <= |all| && forall r, q :: 0 <= r < q < |all| ==> all[r].key != all[q].key
    requires forall r :: 0 <= r < |all| ==> At(after.wei, all[r].key) == At(books.wei, all[r].key) + AmountByKey(all, all[r].key)
    ensures WeiOver(all[..n], after.wei) - WeiOver(all[..n], books.wei) == SumOf(all[..n])
  {
    if n > 0 {
      EntryMoves(books, after, all, n - 1);
      assert all[..n][..n - 1] == all[..n - 1];
      SumBack(all[..n]);
      assert all[n - 1] in all;
      AmountIs(all, all[n - 1]);
    }
  }

  lemma EntryMovesSum(ledger: map<Key, CounterRecord>, books: Books, i: nat, owed: Owed, transfers: Transfers, writes: Writes, block: nat)
    requires PayableEntry(ledger, books, owed) && MoneyMoved(transfers(i))
    ensures var after := AfterEntry(books, i, owed, transfers, writes, block);
            && WeiOver(owed.records, after.wei) - WeiOver(owed.records, books.wei) == owed.amountWei
            && forall k: Key :: k !in KeysIn(owed.records) ==> At(after.wei, k) == At(books.wei, k)
  {
    var after := AfterEntry(books, i, owed, transfers, writes, block);
    assert owed.records[..|owed.records|] == owed.records;
    forall r | 0 <= r < |owed.records|
      ensures At(after.wei, owed.records[r].key) == At(books.wei, owed.records[r].key) + AmountByKey(owed.records, owed.records[r].key)
    {
      assert owed.records[r].key in KeysIn(owed.records);
    }
    hide AfterEntry, AmountByKey, SumOf, WeiOver;
    EntryMoves(books, after, owed.records, |owed.records|);
    forall k: Key | k !in KeysIn(owed.records) ensures At(after.wei, k) == At(books.wei, k) {
      EntryLeaves(books, i, owed, transfers, writes, block, k);
    }
  }

  lemma EntryPaidWell(w: LB.World, books: Books, i: nat, owed: Owed, transfers: Transfers, writes: Writes, block: nat, k: Key)
    requires BooksSound(w.chain, w.head, w.ledger, books) && PayableEntry(w.ledger, books, owed) && block >= w.head
    requires LivesCapped(w.chain, w.head)
    requires At(AfterEntry(books, i, owed, transfers, writes, block).covered, k) != 0
    requires k !in AfterEntry(books, i, owed, transfers, writes, block).reported
    ensures PaidWell(w.chain, w.head, w.ledger, AfterEntry(books, i, owed, transfers, writes, block), k)
  {
    hide AfterEntry, ReceiptedKeys, ReportedKeys, PaidWell, LivesCapped, BooksSound, Payable;
    if k in KeysIn(owed.records) && MoneyMoved(transfers(i)) {
      var r: nat :| r < |owed.records| && owed.records[r].key == k;
      assert Payable(w.ledger, books, owed.records[r]);
      EntryCovers(books, i, owed, transfers, writes, block, r);
      NewlyPaidWell(w.chain, w.head, w.ledger, books, AfterEntry(books, i, owed, transfers, writes, block), owed.records[r], block);
    } else {
      EntryLeaves(books, i, owed, transfers, writes, block, k);
      StillPaidWell(w.chain, w.head, w.ledger, books, AfterEntry(books, i, owed, transfers, writes, block), k);
    }
  }

  lemma NewlyPaidWell(chain: LB.Chain, head: nat, ledger: map<Key, CounterRecord>, books: Books, after: Books, c: Counter, block: nat)
    requires BooksSound(chain, head, ledger, books) && LivesCapped(chain, head) && Payable(ledger, books, c) && block >= head
    requires c.key !in books.reported && At(after.covered, c.key) == At(books.covered, c.key) + 1
    requires At(after.wei, c.key) == At(books.wei, c.key) + AmountOf(c)
    requires c.key in after.receipts && after.receipts[c.key].expiresAt == block + RECEIPT_LIFE_BLOCKS
    ensures PaidWell(chain, head, ledger, after, c.key)
  {
    Grows(c.count, ledger[c.key].count, c.weiPerCall);
  }

  lemma StillPaidWell(chain: LB.Chain, head: nat, ledger: map<Key, CounterRecord>, books: Books, after: Books, k: Key)
    requires BooksSound(chain, head, ledger, books) && At(books.covered, k) != 0 && k !in books.reported
    requires At(after.covered, k) == At(books.covered, k) && At(after.wei, k) == At(books.wei, k)
    requires k in books.receipts ==> k in after.receipts && after.receipts[k] == books.receipts[k]
    ensures PaidWell(chain, head, ledger, after, k)
  {
    assert PaidWell(chain, head, ledger, books, k);
  }

  /** A record money moves for, and no report: covered once more, for its own amount, with a receipt. */
  lemma EntryCovers(books: Books, i: nat, owed: Owed, transfers: Transfers, writes: Writes, block: nat, r: nat)
    requires r < |owed.records| && MoneyMoved(transfers(i))
    requires forall q, s :: 0 <= q < s < |owed.records| ==> owed.records[q].key != owed.records[s].key
    requires owed.records[r].key !in AfterEntry(books, i, owed, transfers, writes, block).reported
    ensures var after, c := AfterEntry(books, i, owed, transfers, writes, block), owed.records[r];
            && c.key !in books.reported
            && At(after.covered, c.key) == At(books.covered, c.key) + 1
            && At(after.wei, c.key) == At(books.wei, c.key) + AmountOf(c)
            && c.key in after.receipts && after.receipts[c.key].expiresAt == block + RECEIPT_LIFE_BLOCKS
  {
    var c := owed.records[r];
    AmountIs(owed.records, c);
    assert c.key in KeysIn(owed.records);
    assert transfers(i).Moved? && writes(i, r / RECEIPTS_PER_BATCH) == Landed;
    assert c.key in ReceiptedKeys(i, owed.records, transfers, writes);
  }

  /** A record the run moves no money for keeps its books, but that it may be reported. */
  lemma EntryLeaves(books: Books, i: nat, owed: Owed, transfers: Transfers, writes: Writes, block: nat, k: Key)
    requires k !in KeysIn(owed.records) || !MoneyMoved(transfers(i))
    ensures var after := AfterEntry(books, i, owed, transfers, writes, block);
            && At(after.covered, k) == At(books.covered, k) && At(after.wei, k) == At(books.wei, k)
            && (k in after.receipts <==> k in books.receipts)
            && (k in books.receipts ==> after.receipts[k] == books.receipts[k])
            && (k in books.reported ==> k in after.reported)
            && (k !in KeysIn(owed.records) ==> (k in after.reported <==> k in books.reported))
  {
    forall r: nat | r < |owed.records| ensures owed.records[r].key in KeysIn(owed.records) {}
  }

  lemma EntryKeeps(w: LB.World, books: Books, i: nat, owed: Owed, transfers: Transfers, writes: Writes, block: nat)
    requires BooksSound(w.chain, w.head, w.ledger, books) && PayableEntry(w.ledger, books, owed) && block >= w.head
    requires LivesCapped(w.chain, w.head)
    ensures BooksSound(w.chain, w.head, w.ledger, AfterEntry(books, i, owed, transfers, writes, block))
  {
    var after := AfterEntry(books, i, owed, transfers, writes, block);
    hide AfterEntry, PaidWell;
    forall k: Key | At(after.covered, k) != 0 && k !in after.reported ensures PaidWell(w.chain, w.head, w.ledger, after, k) {
      EntryPaidWell(w, books, i, owed, transfers, writes, block, k);
    }
    forall k: Key
      ensures At(after.covered, k) >= 0
      ensures At(after.covered, k) == 0 ==> At(after.wei, k) == 0
    {
      EntryCounts(books, i, owed, transfers, writes, block, k);
    }
    forall k | k in after.receipts ensures k in w.ledger && after.receipts[k].provider == w.ledger[k].provider {
      EntryReceipts(w, books, i, owed, transfers, writes, block, k);
    }
  }

  lemma EntryCounts(books: Books, i: nat, owed: Owed, transfers: Transfers, writes: Writes, block: nat, k: Key)
    ensures var after := AfterEntry(books, i, owed, transfers, writes, block);
            && (At(after.covered, k) == At(books.covered, k) + if MoneyMoved(transfers(i)) && k in KeysIn(owed.records) then 1 else 0)
            && (At(after.covered, k) == At(books.covered, k) ==> At(after.wei, k) == At(books.wei, k))
  {
  }

  lemma EntryReceipts(w: LB.World, books: Books, i: nat, owed: Owed, transfers: Transfers, writes: Writes, block: nat, k: Key)
    requires BooksSound(w.chain, w.head, w.ledger, books) && PayableEntry(w.ledger, books, owed)
    requires k in AfterEntry(books, i, owed, transfers, writes, block).receipts
    ensures k in w.ledger && AfterEntry(books, i, owed, transfers, writes, block).receipts[k].provider == w.ledger[k].provider
  {
    if k in ReceiptedKeys(i, owed.records, transfers, writes) {
      var r: nat :| r < |owed.records| && owed.records[r].key == k;
      assert Payable(w.ledger, books, owed.records[r]);
    }
  }

  /* ---------- the whole run ---------- */

  lemma NextStillPayable(ledger: map<Key, CounterRecord>, books: Books, owed: seq<Owed>, n: nat, transfers: Transfers,
                         writes: Writes, block: nat)
    requires StillPayable(ledger, books, owed, n) && n < |owed|
    ensures StillPayable(ledger, AfterEntry(books, n, owed[n], transfers, writes, block), owed, n + 1)
  {
    var after := AfterEntry(books, n, owed[n], transfers, writes, block);
    hide AfterEntry, ReadFrom;
    forall i | n + 1 <= i < |owed| ensures PayableEntry(ledger, after, owed[i]) {
      assert PayableEntry(ledger, books, owed[i]);
      forall c | c in owed[i].records ensures Payable(ledger, after, c) {
        assert c.key in KeysIn(owed[i].records) by { var r :| 0 <= r < |owed[i].records| && owed[i].records[r] == c; }
        EntryLeaves(books, n, owed[n], transfers, writes, block, c.key);
      }
    }
  }

  /* ---------- what a run reads ---------- */

  /** A settled record of a provider is one with a receipt, since a receipt names its record's own provider. */
  lemma UnsettledHasNone(j: Joint, payers: seq<Address>, receipts: Receipts, c: Counter)
    requires Sound(j) && ReadsReceipts(j.books, payers, receipts) && !IsSettled(payers, receipts, c)
    requires c.key in j.lb.ledger && j.lb.ledger[c.key].provider == c.provider
    ensures c.key !in j.books.receipts
  {
    hide Kept.Inv, HasReceipt, PaidWell, LivesCapped;
  }

  lemma ReadPayable(j: Joint, closed: seq<Counter>, payers: seq<Address>, receipts: Receipts, c: Counter)
    requires Sound(j) && ReadsClosed(j.lb, closed) && ReadsReceipts(j.books, payers, receipts)
    requires c in closed && !IsSettled(payers, receipts, c)
    ensures Payable(j.lb.ledger, j.books, c) && Alive(j.lb.chain, j.lb.head, c.key) && LB.ClosedOn(j.lb.chain, c.key)
  {
    assert c.key in j.lb.ledger && j.lb.ledger[c.key] == j.lb.chain[c.key].record;
    UnsettledHasNone(j, payers, receipts, c);
    hide Kept.Inv, ReadsReceipts, IsSettled, PlanSound;
    var well := PaidWell(j.lb.chain, j.lb.head, j.lb.ledger, j.books, c.key);
  }

  /** Every record of an entry was read, is its provider's, has no receipt, and is in it once. */
  lemma EntryRead(closed: seq<Counter>, payers: seq<Address>, receipts: Receipts, ledger: Ledger, entry: Owed)
    requires LedgerIs(closed, payers, receipts, ledger) && entry in ledger.owed
    requires forall i, q :: 0 <= i < q < |closed| ==> closed[i].key != closed[q].key
    ensures forall c :: c in entry.records ==> c in closed && c.provider == entry.provider && !IsSettled(payers, receipts, c)
    ensures forall r, q :: 0 <= r < q < |entry.records| ==> entry.records[r].key != entry.records[q].key
  {
    hide LedgerIs, IsSettled;
    forall c | c in entry.records ensures c in closed && c.provider == entry.provider && !IsSettled(payers, receipts, c) {
      RecordsPartition(closed, payers, receipts, ledger, c);
      assert c in multiset(entry.records);
      assert c in multiset(closed);
    }
    forall r, q | 0 <= r < q < |entry.records| ensures entry.records[r].key != entry.records[q].key {
      var c, d := entry.records[r], entry.records[q];
      assert c in closed && d in closed;
      if c == d {
        RecordsPartition(closed, payers, receipts, ledger, c);
        CountTwice(entry.records, r, q);
        CountOnce(closed, c);
      }
    }
  }

  lemma EntryPayable(j: Joint, closed: seq<Counter>, payers: seq<Address>, receipts: Receipts, ledger: Ledger, entry: Owed)
    requires Sound(j) && ReadsClosed(j.lb, closed) && ReadsReceipts(j.books, payers, receipts)
    requires LedgerIs(closed, payers, receipts, ledger) && entry in ledger.owed
    ensures PayableEntry(j.lb.ledger, j.books, entry)
  {
    hide Sound, ReadsReceipts, IsSettled, Payable, SumOf, OwedRecords;
    EntryRead(closed, payers, receipts, ledger, entry);
    assert EntryIs(closed, payers, receipts, entry);
    hide LedgerIs, ReadsClosed;
    forall c | c in entry.records ensures Payable(j.lb.ledger, j.books, c) {
      ReadPayable(j, closed, payers, receipts, c);
    }
  }

  lemma AllPayable(j: Joint, closed: seq<Counter>, payers: seq<Address>, receipts: Receipts, ledger: Ledger)
    requires Sound(j) && ReadsClosed(j.lb, closed) && ReadsReceipts(j.books, payers, receipts)
    requires LedgerIs(closed, payers, receipts, ledger)
    ensures StillPayable(j.lb.ledger, j.books, ledger.owed, 0)
  {
    hide Sound, ReadsReceipts, LedgerIs, PayableEntry, KeysIn;
    forall i | 0 <= i < |ledger.owed| ensures PayableEntry(j.lb.ledger, j.books, ledger.owed[i]) {
      EntryPayable(j, closed, payers, receipts, ledger, ledger.owed[i]);
    }
    forall i, q | 0 <= i < q < |ledger.owed| ensures KeysIn(ledger.owed[i].records) !! KeysIn(ledger.owed[q].records) {
      EntriesApart(closed, payers, receipts, ledger, i, q);
    }
  }

  lemma RecordsApart(closed: seq<Counter>, left: seq<Counter>, right: seq<Counter>, p: Address, q: Address)
    requires (forall c :: c in left ==> c in closed && c.provider == p) && (forall c :: c in right ==> c in closed && c.provider == q)
    requires p != q && forall i, j :: 0 <= i < j < |closed| ==> closed[i].key != closed[j].key
    ensures KeysIn(left) !! KeysIn(right)
  {
    forall r, s | 0 <= r < |left| && 0 <= s < |right| ensures left[r].key != right[s].key {
      assert left[r] in closed && right[s] in closed;
    }
  }

  lemma EntriesApart(closed: seq<Counter>, payers: seq<Address>, receipts: Receipts, ledger: Ledger, i: nat, q: nat)
    requires LedgerIs(closed, payers, receipts, ledger) && i < q < |ledger.owed|
    requires forall i, q :: 0 <= i < q < |closed| ==> closed[i].key != closed[q].key
    ensures KeysIn(ledger.owed[i].records) !! KeysIn(ledger.owed[q].records)
  {
    var left, right := ledger.owed[i], ledger.owed[q];
    assert left.provider != right.provider;
    hide LedgerIs, IsSettled, KeysIn;
    EntryRead(closed, payers, receipts, ledger, left);
    EntryRead(closed, payers, receipts, ledger, right);
    RecordsApart(closed, left.records, right.records, left.provider, right.provider);
  }

  /** One transfer, whole: the wei a payment moves for the entry's records come to the amount transferred, and for
      any other record to none. */
  lemma TransferIsSum(j: Joint, step: JointStep)
    requires Sound(j) && step.PayNext? && Enabled(j, step) && MoneyMoved(step.transfers(j.plan.value.next))
    ensures var owed, after := j.plan.value.owed[j.plan.value.next], Apply(j, step).books;
            && WeiOver(owed.records, after.wei) - WeiOver(owed.records, j.books.wei) == owed.amountWei
            && forall k: Key :: k !in KeysIn(owed.records) ==> At(after.wei, k) == At(j.books.wei, k)
  {
    hide Kept.Inv, LivesCapped, BooksSound, AfterEntry, PayableEntry, Onward, KeysIn, WeiOver;
    var plan := j.plan.value;
    NextPayable(j.lb.ledger, j.books, plan);
    EntryMovesSum(j.lb.ledger, j.books, plan.next, plan.owed[plan.next], step.transfers, step.writes, step.block);
  }

  lemma OnwardSound(ledger: map<Key, CounterRecord>, books: Books, plan: Plan, transfers: Transfers, writes: Writes)
    requires plan.next < |plan.owed| && StillPayable(ledger, books, plan.owed, plan.next + 1)
    ensures PlanSound(ledger, books, Onward(plan, transfers, writes))
  {
    hide StillPayable, Done;
  }

  lemma PayNextKeeps(j: Joint, step: JointStep)
    requires Sound(j) && step.PayNext? && Enabled(j, step)
    ensures Sound(Apply(j, step))
  {
    hide Kept.Inv, LivesCapped, BooksSound, AfterEntry, StillPayable, PayableEntry, Onward;
    var plan := j.plan.value;
    NextPayable(j.lb.ledger, j.books, plan);
    EntryKeeps(j.lb, j.books, plan.next, plan.owed[plan.next], step.transfers, step.writes, step.block);
    NextStillPayable(j.lb.ledger, j.books, plan.owed, plan.next, step.transfers, step.writes, step.block);
    OnwardSound(j.lb.ledger, Apply(j, step).books, plan, step.transfers, step.writes);
    hide PlanSound;
  }

  lemma NextPayable(ledger: map<Key, CounterRecord>, books: Books, plan: Plan)
    requires PlanSound(ledger, books, Some(plan)) && plan.next < |plan.owed|
    ensures PayableEntry(ledger, books, plan.owed[plan.next])
  {
    hide PayableEntry;
  }

  lemma ReadKeeps(j: Joint, step: JointStep)
    requires Sound(j) && step.Read? && Enabled(j, step)
    ensures Sound(Apply(j, step))
  {
    hide Kept.Inv, LivesCapped, BooksSound, StillPayable, LedgerIs, ReadsClosed, ReadsReceipts;
    AllPayable(j, step.closed, step.payers, step.receipts, step.ledger);
  }

  lemma StopKeeps(j: Joint)
    requires Sound(j) && Enabled(j, Stop)
    ensures Sound(Apply(j, Stop))
  {
    hide Kept.Inv, LivesCapped, BooksSound;
  }

  lemma StepKeeps(j: Joint, step: JointStep)
    requires Sound(j) && Enabled(j, step)
    ensures Sound(Apply(j, step))
  {
    hide Sound;
    match step
    case Lb(s) => LbKeeps(j, s);
    case ReceiptGone(k) => ReceiptGoneKeeps(j, k);
    case Read(_, _, _, _) => ReadKeeps(j, step);
    case PayNext(_, _, _) => PayNextKeeps(j, step);
    case Stop => StopKeeps(j);
  }

  lemma {:induction false} EveryRunKeeps(j: Joint, run: seq<JointStep>)
    requires Sound(j) && Feasible(j, run)
    ensures Sound(After(j, run))
    decreases |run|
  {
    hide Sound, Enabled, Apply;
    if run != [] {
      StepKeeps(j, run[0]);
      EveryRunKeeps(Apply(j, run[0]), run[1..]);
    }
  }

  lemma StartSound(period: nat, head: nat)
    ensures Sound(Start(period, head))
  {
    Kept.GenesisSound(period, head);
    hide Kept.Inv;
  }

  /* ---------- the theorems ---------- */

  /** Over any sequence of runs, beside an LB that goes on counting: a record covered by two transfers was
      reported, and one covered once and not reported has a receipt for as long as it lives. */
  lemma SettlePaysOnce(period: nat, head: nat, run: seq<JointStep>, k: Key)
    requires Feasible(Start(period, head), run)
    ensures var j := After(Start(period, head), run);
            && (At(j.books.covered, k) >= 2 ==> k in j.books.reported)
            && (At(j.books.covered, k) == 1 && k !in j.books.reported && Alive(j.lb.chain, j.lb.head, k) ==>
                  k in j.books.receipts && j.books.receipts[k].expiresAt >= j.lb.chain[k].expiresAt)
  {
    StartSound(period, head);
    EveryRunKeeps(Start(period, head), run);
    var j := After(Start(period, head), run);
    hide Kept.Inv, Feasible, After;
    var well := PaidWell(j.lb.chain, j.lb.head, j.lb.ledger, j.books, k);
  }

  /** The second transfer for a record only ever follows the report: what a run pays again, an earlier run
      reported, whatever the LB did since this one read. */
  lemma PaidAgainWasReported(j: Joint, step: JointStep, c: Counter)
    requires Sound(j) && step.PayNext? && Enabled(j, step) && c in j.plan.value.owed[j.plan.value.next].records
    ensures At(j.books.covered, c.key) != 0 ==> c.key in j.books.reported
  {
    hide Kept.Inv, LivesCapped, BooksSound;
    assert PayableEntry(j.lb.ledger, j.books, j.plan.value.owed[j.plan.value.next]);
  }

  /* ---------- a run with nothing between ---------- */

  /** The steps of a run that tries the first `tried` providers, from the `n`-th on. */
  function Pays(transfers: Transfers, writes: Writes, block: nat, n: nat): seq<JointStep> {
    seq(n, _ => PayNext(transfers, writes, block))
  }

  /** What the payment method tries is what these steps pay: as many, in order, and the last one ends the run. */
  lemma {:induction false} PaysAre(j: Joint, owed: seq<Owed>, transfers: Transfers, writes: Writes, block: nat, tried: nat, n: nat)
    requires Tries(owed, transfers, writes, tried) && n < tried && j.plan == Some(Plan(owed, n)) && block >= j.lb.head
    ensures Feasible(j, Pays(transfers, writes, block, tried - n))
    ensures var after := After(j, Pays(transfers, writes, block, tried - n));
            after.lb == j.lb && after.plan == None && after.books == PaidOn(j.books, owed, transfers, writes, block, n, tried)
    decreases tried - n
  {
    var pays := Pays(transfers, writes, block, tried - n);
    var next := Apply(j, pays[0]);
    assert pays[1..] == Pays(transfers, writes, block, tried - n - 1);
    hide AfterEntry;
    if n + 1 < tried {
      assert Done(n, owed[n], transfers, writes);
      PaysAre(next, owed, transfers, writes, block, tried, n + 1);
    } else {
      assert pays[1..] == [];
    }
  }

  /** The wei moved for the records of one agreement. */
  ghost function WeiFor(ledger: map<Key, CounterRecord>, wei: map<Key, int>, a: Key): int {
    if ledger == map[] then 0
    else
      var k :| k in ledger;
      (if ledger[k].agreement == a then At(wei, k) else 0) + WeiFor(ledger - {k}, wei, a)
  }

  /** No record of the agreement was ever reported. */
  ghost predicate NoneReported(ledger: map<Key, CounterRecord>, reported: set<Key>, a: Key) {
    forall k :: k in ledger && ledger[k].agreement == a ==> k !in reported
  }

  lemma {:induction false} WeiWithin(ledger: map<Key, CounterRecord>, wei: map<Key, int>, a: Key, rate: nat)
    requires forall k :: k in ledger && ledger[k].agreement == a ==> At(wei, k) <= ledger[k].count * rate
    ensures WeiFor(ledger, wei, a) <= LB.Billed(ledger, a) * rate
    decreases |ledger|
  {
    if ledger != map[] {
      var k :| k in ledger && WeiFor(ledger, wei, a) == (if ledger[k].agreement == a then At(wei, k) else 0) + WeiFor(ledger - {k}, wei, a);
      Kept.BilledWithout(ledger, a, k);
      assert (ledger - {k}).Keys == ledger.Keys - {k};
      WeiWithin(ledger - {k}, wei, a, rate);
      Distribute(LB.Share(ledger[k], a), LB.Billed(ledger - {k}, a), rate);
    }
  }

  lemma Distribute(x: int, y: int, rate: int)
    ensures (x + y) * rate == x * rate + y * rate
  {
  }

  lemma RecordWithin(j: Joint, a: Key, k: Key)
    requires Sound(j) && NoneReported(j.lb.ledger, j.books.reported, a)
    requires k in j.lb.ledger && j.lb.ledger[k].agreement == a
    ensures a in j.lb.terms && At(j.books.wei, k) <= j.lb.ledger[k].count * j.lb.terms[a].rate
  {
    assert Kept.OnTerms(j.lb.terms, j.lb.ledger[k]);
    hide Kept.Inv;
    var well := PaidWell(j.lb.chain, j.lb.head, j.lb.ledger, j.books, k);
    Grows(0, j.lb.ledger[k].count, j.lb.terms[a].rate);
  }

  /** At most what the closed records bill at the agreement's own rate, which is at most what was served and
      what expiry hid; and where no closed record expired unseen, at most what was served. */
  ghost predicate WithinBound(j: Joint, a: Key)
    requires a in j.lb.terms
  {
    var rate, wei := j.lb.terms[a].rate, WeiFor(j.lb.ledger, j.books.wei, a);
    && wei <= LB.Billed(j.lb.ledger, a) * rate
    && wei <= (At(j.lb.requests, a) + At(j.lb.doubled, a)) * rate
    && (Proved.NoneDoubled(j.lb) ==> wei <= At(j.lb.requests, a) * rate)
  }

  /** Over every run of LB and settle together, the wei moved for an agreement none of whose records was ever
      reported stay within its bound. */
  lemma MoneyBound(period: nat, head: nat, run: seq<JointStep>, a: Key)
    requires Feasible(Start(period, head), run)
    requires var j := After(Start(period, head), run); a in j.lb.terms && NoneReported(j.lb.ledger, j.books.reported, a)
    ensures WithinBound(After(Start(period, head), run), a)
  {
    hide WithinBound, Sound, NoneReported, Feasible, After, Start;
    StartSound(period, head);
    EveryRunKeeps(Start(period, head), run);
    MoneyBoundAt(After(Start(period, head), run), a);
  }

  lemma BilledWithin(w: LB.World, a: Key)
    requires Kept.Inv(w)
    ensures LB.Billed(w.ledger, a) <= At(w.requests, a) + At(w.doubled, a)
  {
    Proved.InvConserves(w, a);
    hide Kept.Inv, LB.Billed, LB.Carried;
  }

  lemma MoneyBoundAt(j: Joint, a: Key)
    requires Sound(j) && a in j.lb.terms && NoneReported(j.lb.ledger, j.books.reported, a)
    ensures WithinBound(j, a)
  {
    hide Kept.Inv, BooksSound, LivesCapped, LB.Billed, WeiFor, LB.Carried, NoneReported;
    var rate := j.lb.terms[a].rate;
    RecordsWithin(j, a);
    WeiWithin(j.lb.ledger, j.books.wei, a, rate);
    BilledWithin(j.lb, a);
    Ordered(LB.Billed(j.lb.ledger, a), At(j.lb.requests, a) + At(j.lb.doubled, a), rate);
  }

  lemma RecordsWithin(j: Joint, a: Key)
    requires Sound(j) && a in j.lb.terms && NoneReported(j.lb.ledger, j.books.reported, a)
    ensures forall k :: k in j.lb.ledger && j.lb.ledger[k].agreement == a ==>
              At(j.books.wei, k) <= j.lb.ledger[k].count * j.lb.terms[a].rate
  {
    hide Sound, NoneReported;
    forall k | k in j.lb.ledger && j.lb.ledger[k].agreement == a
      ensures At(j.books.wei, k) <= j.lb.ledger[k].count * j.lb.terms[a].rate
    {
      RecordWithin(j, a, k);
    }
  }

  lemma Ordered(x: int, y: int, rate: nat)
    requires x <= y
    ensures x * rate <= y * rate
  {
  }

  /* ---------- when a record can be paid ---------- */

  /** A settle run from its reads on, with nothing between. */
  predicate OneRun(run: seq<JointStep>) {
    run != [] && run[0].Read? && forall i :: 1 <= i < |run| ==> run[i].PayNext?
  }

  /** Some run from here moves money for the record. */
  ghost predicate CanBePaid(j: Joint, k: Key) {
    exists run :: OneRun(run) && Feasible(j, run) && At(After(j, run).books.covered, k) > At(j.books.covered, k)
  }

  /** A record is in one of the entries from `n` on. */
  ghost predicate Planned(owed: seq<Owed>, n: nat, k: Key) {
    exists i :: n <= i < |owed| && k in KeysIn(owed[i].records)
  }

  lemma {:induction false} CoversPlanned(j: Joint, run: seq<JointStep>, k: Key)
    requires Feasible(j, run) && (forall i :: 0 <= i < |run| ==> run[i].PayNext?)
    requires At(After(j, run).books.covered, k) > At(j.books.covered, k)
    ensures j.plan.Some? && Planned(j.plan.value.owed, j.plan.value.next, k)
    decreases |run|
  {
    if run != [] {
      var plan, next := j.plan.value, Apply(j, run[0]);
      EntryCounts(j.books, plan.next, plan.owed[plan.next], run[0].transfers, run[0].writes, run[0].block, k);
      hide AfterEntry, KeysIn;
      if k !in KeysIn(plan.owed[plan.next].records) {
        CoversPlanned(next, run[1..], k);
      }
    }
  }

  lemma PlannedIsPayable(j: Joint, step: JointStep, k: Key)
    requires Sound(j) && step.Read? && Enabled(j, step) && Planned(step.ledger.owed, 0, k)
    ensures Alive(j.lb.chain, j.lb.head, k) && LB.ClosedOn(j.lb.chain, k) && k !in j.books.receipts
  {
    hide Sound, ReadsReceipts, LedgerIs, IsSettled;
    var i :| 0 <= i < |step.ledger.owed| && k in KeysIn(step.ledger.owed[i].records);
    var r :| 0 <= r < |step.ledger.owed[i].records| && step.ledger.owed[i].records[r].key == k;
    EntryRead(step.closed, step.payers, step.receipts, step.ledger, step.ledger.owed[i]);
    ReadPayable(j, step.closed, step.payers, step.receipts, step.ledger.owed[i].records[r]);
  }

  ghost function Listed(keys: set<Key>): (list: seq<Key>)
    ensures forall k :: k in list <==> k in keys
  {
    if keys == {} then []
    else
      var k :| k in keys;
      [k] + Listed(keys - {k})
  }

  function ReceiptsOf(books: Books, p: Address): set<Key> {
    set k | k in books.receipts && books.receipts[k].provider == p
  }

  lemma OneOwed(c: Counter, payers: seq<Address>, receipts: Receipts)
    requires !IsSettled(payers, receipts, c)
    ensures LedgerIs([c], payers, receipts, Ledger([Owed(c.provider, [c], AmountOf(c))], 0, AmountOf(c)))
  {
    var settled := SettledFor(payers, receipts, c.provider);
    SettledExactly(payers, receipts, c.provider, c.key);
    assert [c][..0] == [] && [c][1..] == [];
    assert OfProvider([c], c.provider) == [c] && Unpaid([c], settled) == [c];
    assert Sort([c], ByClosing) == [c];
    var entry := Owed(c.provider, [c], AmountOf(c));
    assert SumOf([c]) == AmountOf(c);
    assert EntryIs([c], payers, receipts, entry);
    assert ProvidersOf([c]) == {c.provider} by { assert [c][0].provider in ProvidersOf([c]); }
    assert entry in [entry];
    assert [entry][..0] == [];
  }

  /** With no run under way, a record can be paid, for the first time or again, exactly when it is closed, alive and
      has no receipt; so a receipt not written is a record some run pays again. */
  lemma PaidExactlyWhen(j: Joint, k: Key)
    requires Sound(j) && j.plan == None
    ensures CanBePaid(j, k) <==> Alive(j.lb.chain, j.lb.head, k) && LB.ClosedOn(j.lb.chain, k) && k !in j.books.receipts
  {
    hide Sound, Alive, Planned;
    if CanBePaid(j, k) {
      var run :| OneRun(run) && Feasible(j, run) && At(After(j, run).books.covered, k) > At(j.books.covered, k);
      CoversPlanned(Apply(j, run[0]), run[1..], k);
      PlannedIsPayable(j, run[0], k);
    }
    if Alive(j.lb.chain, j.lb.head, k) && LB.ClosedOn(j.lb.chain, k) && k !in j.books.receipts { SomeRunPays(j, k); }
  }

  /** A read of one record, and the payment of it, every write of which lands. */
  function ReadOne(c: Counter, receipts: Receipts): JointStep {
    Read([c], [0], receipts, Ledger([Owed(c.provider, [c], AmountOf(c))], 0, AmountOf(c)))
  }

  function PayFirst(head: nat): JointStep {
    PayNext((i: nat) => Moved(0), (i: nat, b: nat) => Landed, head)
  }

  lemma PayFirstCovers(books: Books, c: Counter, head: nat)
    ensures At(AfterEntry(books, 0, Owed(c.provider, [c], AmountOf(c)), PayFirst(head).transfers, PayFirst(head).writes, head).covered, c.key)
         == At(books.covered, c.key) + 1
  {
    var owed := Owed(c.provider, [c], AmountOf(c));
    assert owed.records[0].key == c.key;
    EntryCounts(books, 0, owed, PayFirst(head).transfers, PayFirst(head).writes, head, c.key);
  }

  ghost function ReceiptsRead(books: Books): Receipts {
    (payer: Address, p: Address) => Listed(ReceiptsOf(books, p))
  }

  lemma ReceiptsAreRead(books: Books)
    ensures ReadsReceipts(books, [0], ReceiptsRead(books))
  {
    forall p: Address, k: Key
      ensures HasReceipt([0], ReceiptsRead(books), p, k) <==> k in books.receipts && books.receipts[k].provider == p
    {
      assert 0 in [0] && (k in ReceiptsRead(books)(0, p) <==> k in ReceiptsOf(books, p));
    }
  }

  lemma TwoSteps(j: Joint, first: JointStep, second: JointStep)
    requires Enabled(j, first) && Enabled(Apply(j, first), second)
    ensures Feasible(j, [first, second]) && After(j, [first, second]) == Apply(Apply(j, first), second)
  {
    hide Enabled, Apply;
    var run, between := [first, second], Apply(j, first);
    assert run[1..] == [second] && [second][1..] == [];
    assert Feasible(Apply(between, second), []);
    assert Feasible(between, [second]) && After(between, [second]) == Apply(between, second);
  }

  lemma SomeRunPays(j: Joint, k: Key)
    requires Sound(j) && j.plan == None
    requires Alive(j.lb.chain, j.lb.head, k) && LB.ClosedOn(j.lb.chain, k) && k !in j.books.receipts
    ensures CanBePaid(j, k)
  {
    hide Sound, LedgerIs, ReadsReceipts, HasReceipt, ReceiptsRead, AfterEntry;
    var c, receipts := CounterOf(k, j.lb.chain[k].record), ReceiptsRead(j.books);
    ReceiptsAreRead(j.books);
    NotSettled(j.books, receipts, c);
    OneOwed(c, [0], receipts);
    assert ReadsClosed(j.lb, [c]);
    var run := [ReadOne(c, receipts), PayFirst(j.lb.head)];
    var read := Apply(j, run[0]);
    PayFirstCovers(j.books, c, j.lb.head);
    TwoSteps(j, run[0], run[1]);
    assert OneRun(run);
  }

  lemma NotSettled(books: Books, receipts: Receipts, c: Counter)
    requires ReadsReceipts(books, [0], receipts) && c.key !in books.receipts
    ensures !IsSettled([0], receipts, c)
  {
    hide HasReceipt;
  }
}

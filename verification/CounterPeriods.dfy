/** When settlement periods end, over every run: a flush closes a live agreement's record a whole period after it
    opened, and the record that follows opens where that one closed. */
module CounterPeriods {
  import opened Basics
  import opened CounterRecords
  import opened CounterProtocol
  import opened CounterInvariant
  import opened CounterTheorems

  /* ---------- blocks in order ---------- */

  /** A record opened no later than now, and closed, if it is, between then and now. */
  predicate InTime(record: CounterRecord, head: nat) {
    && record.openedBlock <= head
    && (record.state == Closed ==> record.closedBlock.Some? && record.openedBlock <= record.closedBlock.value <= head)
  }

  ghost predicate RecordsInTime(head: nat, chain: Chain, ledger: map<Key, CounterRecord>) {
    (forall k :: k in chain ==> InTime(chain[k].record, head)) && (forall k :: k in ledger ==> InTime(ledger[k], head))
  }

  ghost predicate MemoryInTime(head: nat, memory: Memory) {
    forall a :: a in memory && memory[a].counter.Some? ==> memory[a].counter.value.openedBlock <= head
  }

  ghost predicate OrdersInTime(head: nat, orders: Orders) {
    (forall k :: k in orders.patches ==> InTime(orders.patches[k], head))
    && (forall a :: a in orders.creates ==> InTime(orders.creates[a], head))
  }

  ghost predicate Timed(w: World) {
    && RecordsInTime(w.head, w.chain, w.ledger) && MemoryInTime(w.head, w.memory) && OrdersInTime(w.head, w.orders)
    && w.flushHead <= w.head
  }

  /* ---------- the flush that is out ---------- */

  /** A record of the agreement closed at this block. */
  ghost predicate ClosedAtBlock(ledger: map<Key, CounterRecord>, a: Key, block: nat) {
    exists k :: k in ledger && ledger[k].agreement == a && ledger[k].closedBlock == Some(block)
  }

  /** A close that is out names the head its flush read, and for a live agreement that is a period past the opening. */
  predicate ClosesInTime(record: CounterRecord, meant: CounterRecord, memory: Memory, period: nat, block: nat) {
    meant.state == Closed ==>
      meant.closedBlock == Some(block) && (record.agreement in memory ==> block >= record.openedBlock + period)
  }

  ghost predicate PatchesInTime(w: World) {
    w.phase == Counting ==>
      forall k :: k in w.orders.patches && k in w.chain ==>
        ClosesInTime(w.chain[k].record, w.orders.patches[k], w.memory, w.period, w.flushHead)
  }

  ghost predicate AnswersInTime(w: World) {
    w.phase == Counting ==>
      forall a :: a in w.closing && w.closing[a].counter in w.patched ==> ClosedAtBlock(w.ledger, a, w.flushHead)
  }

  ghost predicate CreatesInTime(w: World) {
    w.phase == Counting || w.phase == Following ==>
      forall a :: a in w.orders.creates ==>
        w.orders.creates[a].openedBlock == w.flushHead
        && (w.phase == Following ==> ClosedAtBlock(w.ledger, a, w.flushHead))
  }

  ghost predicate Flushing(w: World) {
    PatchesInTime(w) && AnswersInTime(w) && CreatesInTime(w)
  }

  /* ---------- every step keeps both ---------- */

  lemma PatchTimed(w: World, k: Key, answered: bool)
    requires Inv(w) && Lands(w, k) && Timed(w)
    ensures Timed(PatchLanded(w, k, answered))
  {
    PatchFacts(w, k);
    hide Inv;
  }

  lemma PatchFlushing(w: World, k: Key, answered: bool)
    requires Inv(w) && Lands(w, k) && Flushing(w)
    ensures Flushing(PatchLanded(w, k, answered))
  {
    PatchFacts(w, k);
    var after := PatchLanded(w, k, answered);
    forall a | after.phase == Counting && a in after.closing && after.closing[a].counter in after.patched
      ensures ClosedAtBlock(after.ledger, a, w.flushHead)
    {
      AnswerStays(w, k, answered, a);
    }
    hide Inv;
  }

  lemma AnswerStays(w: World, k: Key, answered: bool, a: Key)
    requires Inv(w) && Lands(w, k) && PatchesInTime(w) && AnswersInTime(w)
    requires var after := PatchLanded(w, k, answered); after.phase == Counting && a in after.closing && after.closing[a].counter in after.patched
    ensures ClosedAtBlock(PatchLanded(w, k, answered).ledger, a, w.flushHead)
  {
    PatchFacts(w, k);
    if w.closing[a].counter == k { ClosingIs(w, k, a); }
    assert w.chain[k].record.state == Open && k !in w.ledger;
    hide Inv;
    if w.closing[a].counter == k {
      assert PatchLanded(w, k, answered).ledger[k].closedBlock == Some(w.flushHead);
    } else {
      var other :| other in w.ledger && w.ledger[other].agreement == a && w.ledger[other].closedBlock == Some(w.flushHead);
      assert PatchLanded(w, k, answered).ledger[other] == w.ledger[other];
    }
  }

  lemma CreateTimed(w: World, a: Key, k: Key, life: nat, answered: bool)
    requires Timed(w) && a in w.orders.creates
    ensures Timed(CreateLanded(w, a, k, life, answered))
  {
  }

  lemma CreateFlushing(w: World, a: Key, k: Key, life: nat, answered: bool)
    requires Inv(w) && Flushing(w) && Enabled(w, LandCreate(a, k, life, answered))
    ensures Flushing(CreateLanded(w, a, k, life, answered))
  {
    NewIsNotPatched(w, k);
    hide Inv, InTime, ClosedAtBlock;
    var after := CreateLanded(w, a, k, life, answered);
    assert after.memory.Keys == w.memory.Keys;
    assert PatchesInTime(after) by { hide ClosesInTime; PatchesStay(w, after, k); }
  }

  lemma NewIsNotPatched(w: World, k: Key)
    requires Inv(w) && k !in w.issued
    ensures k !in w.orders.patches
  {
  }

  lemma PatchesStay(w: World, after: World, k: Key)
    requires PatchesInTime(w) && after.phase == w.phase && after.flushHead == w.flushHead && after.period == w.period
    requires after.orders.patches == w.orders.patches && k !in w.orders.patches && after.memory.Keys == w.memory.Keys
    requires forall other :: other in after.chain && other != k ==> other in w.chain && after.chain[other] == w.chain[other]
    ensures PatchesInTime(after)
  {
  }

  /** A closing write exists for an entry that is a period past its opening, or for nobody's record. */
  lemma CountTimed(w: World, open: map<Key, Key>, stop: bool)
    requires Timed(w)
    ensures Timed(CountSent(w, open, stop))
  {
    var orders := CountOrders(w, open, stop);
    forall k | k in orders.patches ensures InTime(orders.patches[k], w.head) {
      assert orders.patches[k] == PatchFor(w, open, stop, k).value;
    }
    hide ClosingsOf;
  }

  lemma CountFlushing(w: World, open: map<Key, Key>, stop: bool)
    requires ReadOf(w.chain, open)
    ensures Flushing(CountSent(w, open, stop))
  {
    var orders := CountOrders(w, open, stop);
    forall k | k in orders.patches && k in w.chain
      ensures ClosesInTime(w.chain[k].record, orders.patches[k], w.memory, w.period, w.head)
    {
      assert orders.patches[k] == PatchFor(w, open, stop, k).value;
    }
    hide ClosingsOf, ReadOf;
  }

  lemma EndPeriodsTimed(w: World)
    requires Timed(w)
    ensures Timed(PeriodsEnded(w)) && (Flushing(w) && w.phase == Counting ==> Flushing(PeriodsEnded(w)))
  {
  }

  lemma EndTimed(w: World, gone: set<Key>, finals: Orders)
    requires Timed(w) && FinalOrders(w.memory, gone, w.head, finals)
    ensures Timed(Ended(w, gone, finals)) && Flushing(Ended(w, gone, finals))
  {
    forall k | k in finals.patches ensures InTime(finals.patches[k], w.head) {
      var a :| EndedWith(w.memory, gone, a, k) && finals.patches[k] == FinalRecord(a, w.memory[a], w.head);
    }
    hide LeftToBill;
  }

  lemma ReconcileTimed(w: World, open: map<Key, Key>)
    requires Timed(w) && w.phase == Idle
    ensures Timed(ReconciledWorld(w, open)) && Flushing(ReconciledWorld(w, open))
  {
    var after := ReconciledWorld(w, open);
    forall a | a in w.memory ensures after.memory[a] == Matched(w.chain, open, a, Forgotten(w.chain, open, a, w.memory[a])) {}
    hide Hidden;
  }

  /** A step that only takes away, or serves, or adds entries without a record. */
  ghost predicate Lessens(w: World, after: World) {
    && after.head == w.head && after.period == w.period && after.flushHead == w.flushHead && after.ledger == w.ledger
    && (forall k :: k in after.chain ==> k in w.chain && after.chain[k] == w.chain[k])
    && (forall a :: a in after.memory && after.memory[a].counter.Some? ==>
          a in w.memory && after.memory[a].counter == w.memory[a].counter)
    && (forall k :: k in after.orders.patches ==> k in w.orders.patches && after.orders.patches[k] == w.orders.patches[k])
    && (forall a :: a in after.orders.creates ==> a in w.orders.creates && after.orders.creates[a] == w.orders.creates[a])
  }

  lemma LessTimed(w: World, after: World)
    requires Timed(w) && Lessens(w, after)
    ensures Timed(after)
  {
    hide InTime;
  }

  lemma LessFlushing(w: World, after: World)
    requires Flushing(w) && Lessens(w, after) && after.phase == w.phase && after.memory.Keys == w.memory.Keys
    requires after.closing == w.closing && after.patched == w.patched
    ensures Flushing(after)
  {
    hide ClosedAtBlock;
  }

  lemma OverFlushing(w: World)
    requires w.phase != Counting && w.phase != Following
    ensures Flushing(w)
  {
  }

  /** Forwards, expiries and deletes. */
  lemma LessStepTimed(w: World, step: Step)
    requires Enabled(w, step) && Timed(w) && Flushing(w) && (step.Serve? || step.Expire? || step.LandDelete?)
    ensures Timed(Apply(w, step)) && Flushing(Apply(w, step))
  {
    hide LostWith, DoubledWith, Timed, Flushing;
    assert Lessens(w, Apply(w, step));
    LessTimed(w, Apply(w, step));
    LessFlushing(w, Apply(w, step));
  }

  /** Adopting, and the end of a batch. */
  lemma IdleStepTimed(w: World, step: Step)
    requires Enabled(w, step) && Timed(w) && (step.Adopt? || step.FinishAccept? || step.FinishEnding? || step.FinishFlush?)
    ensures Timed(Apply(w, step)) && Flushing(Apply(w, step))
  {
    hide Timed, Flushing;
    assert Lessens(w, Apply(w, step));
    LessTimed(w, Apply(w, step));
    OverFlushing(Apply(w, step));
  }

  lemma OthersTimed(w: World, step: Step)
    requires Enabled(w, step) && Timed(w) && Flushing(w)
    requires !step.LandPatch? && !step.LandCreate? && !step.Count? && !step.EndPeriods? && !step.EndAgreements? && !step.Reconcile?
    ensures Timed(Apply(w, step)) && Flushing(Apply(w, step))
  {
    hide Timed, Enabled;
    if step.Blocks? {
      LaterTimed(w, step.n);
    } else if step.Accept? || step.Crash? {
      OutsideFlush(w, step);
    } else if step.Serve? || step.Expire? || step.LandDelete? {
      LessStepTimed(w, step);
    } else {
      IdleStepTimed(w, step);
    }
    hide Flushing, Apply;
  }

  /** Passing blocks leave everything in time. */
  lemma LaterTimed(w: World, n: nat)
    requires Timed(w)
    ensures Timed(w.(head := w.head + n))
    ensures Flushing(w) ==> Flushing(w.(head := w.head + n))
  {
    hide ClosesInTime, ClosedAtBlock;
  }

  lemma OutsideFlush(w: World, step: Step)
    requires Enabled(w, step) && Timed(w) && (step.Accept? || step.Crash?)
    ensures Timed(Apply(w, step)) && Flushing(Apply(w, step))
  {
    hide LeftToBill, ClosesInTime, ClosedAtBlock;
  }

  lemma StepTimed(w: World, step: Step)
    requires Inv(w) && Enabled(w, step) && Timed(w) && Flushing(w)
    ensures Timed(Apply(w, step)) && Flushing(Apply(w, step))
  {
    assert PhaseSound(w);
    hide Inv, Timed, Flushing, PhaseSound, PatchLanded, CreateLanded, CountSent, PeriodsEnded, Ended, ReconciledWorld;
    match step
    case LandPatch(k, answered) => PatchTimed(w, k, answered); PatchFlushing(w, k, answered);
    case LandCreate(a, k, life, answered) => CreateTimed(w, a, k, life, answered); CreateFlushing(w, a, k, life, answered);
    case Count(open, stop) => CountTimed(w, open, stop); CountFlushing(w, open, stop);
    case EndPeriods => EndPeriodsTimed(w);
    case EndAgreements(gone, finals) => EndTimed(w, gone, finals);
    case Reconcile(open) => ReconcileTimed(w, open);
    case _ => OthersTimed(w, step);
  }

  lemma {:induction false} RunTimed(w: World, run: seq<Step>)
    requires Inv(w) && Timed(w) && Flushing(w) && Feasible(w, run)
    ensures Timed(After(w, run)) && Flushing(After(w, run))
    decreases |run|
  {
    hide Inv, Timed, Flushing, Enabled, Apply;
    if run != [] {
      StepKeeps(w, run[0]);
      StepTimed(w, run[0]);
      RunTimed(Apply(w, run[0]), run[1..]);
    }
  }

  lemma ReachableTimed(w: World)
    requires Reachable(w)
    ensures Inv(w) && Timed(w) && Flushing(w)
  {
    var period: nat, head: nat :| Leads(Genesis(period, head), w);
    var run :| Feasible(Genesis(period, head), run) && After(Genesis(period, head), run) == w;
    GenesisSound(period, head);
    GenesisTimed(period, head);
    hide Inv, Timed, Flushing, Feasible, After;
    RunTimed(Genesis(period, head), run);
    ReachableSound(w);
  }

  lemma GenesisTimed(period: nat, head: nat)
    ensures Timed(Genesis(period, head)) && Flushing(Genesis(period, head))
  {
  }

  /* ---------- the theorems ---------- */

  /** In every reachable state every record, open or closed, opened no later than it closed, and neither is to come. */
  lemma BlocksInOrder(w: World, k: Key)
    requires Reachable(w)
    ensures k in w.chain ==> w.chain[k].record.openedBlock <= w.head
    ensures k in w.ledger ==> w.ledger[k].closedBlock.Some?
                              && w.ledger[k].openedBlock <= w.ledger[k].closedBlock.value <= w.head
  {
    ReachableTimed(w);
    LedgerIsClosed(w, k);
  }

  lemma LedgerIsClosed(w: World, k: Key)
    requires Inv(w)
    ensures k in w.ledger ==> w.ledger[k].state == Closed
  {
  }

  /** Whenever a flush closes the record of a live agreement, at the head it read, that head is a whole period or more
      past the block the record opened at; and a record it does not close stays open. */
  lemma ClosedAfterAPeriod(w: World, k: Key, answered: bool)
    requires Reachable(w) && w.phase == Counting && Lands(w, k) && w.chain[k].record.agreement in w.memory
    ensures var before, after := w.chain[k].record, PatchLanded(w, k, answered).chain[k].record;
            && before.state == Open && after.openedBlock == before.openedBlock
            && (after.state == Closed ==>
                  after.closedBlock == Some(w.flushHead) && before.openedBlock + w.period <= w.flushHead <= w.head && after.count > 0)
  {
    ReachableTimed(w);
    PatchFacts(w, k);
    assert ClosesInTime(w.chain[k].record, w.orders.patches[k], w.memory, w.period, w.flushHead);
  }

  /** An agreement's first record starts at zero at the head it was accepted at. */
  lemma FirstOpensNow(w: World, a: Key, terms: Terms)
    requires Enabled(w, Accept(a, terms))
    ensures Apply(w, Accept(a, terms)).orders.creates
         == map[a := CounterRecord(a, terms.provider, Open, 0, terms.rate, w.head, None)]
  {
  }

  /** The record a flush opens for a close that was answered starts at the very block that one closed at, at zero. */
  lemma SuccessorFollows(w: World, a: Key, k: Key, life: nat, answered: bool)
    requires Reachable(w) && w.phase == Following && Enabled(w, LandCreate(a, k, life, answered))
    ensures var record := CreateLanded(w, a, k, life, answered).chain[k].record;
            && record.agreement == a && record.state == Open && record.count == 0
            && ClosedAtBlock(w.ledger, a, record.openedBlock)
  {
    ReachableTimed(w);
    OpensSoundly(w, a);
    hide Inv, Timed, PatchesInTime, AnswersInTime, ClosedAtBlock, Reachable;
  }

  lemma OpensSoundly(w: World, a: Key)
    requires Inv(w) && a in w.orders.creates
    ensures w.orders.creates[a].agreement == a && w.orders.creates[a].state == Open && w.orders.creates[a].count == 0
  {
  }
}

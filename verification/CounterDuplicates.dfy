/** Agreements that start with more than one open record: younger duplicates at zero. */
module CounterDuplicates {
  import opened Basics
  import opened CounterRecords
  import opened CounterProtocol
  import opened CounterInvariant
  import opened CounterTheorems

  /** A batch ends whole: every delete of it landed, or none of its closes did. */
  ghost predicate EndsWhole(w: World, step: Step) {
    step.EndPeriods? ==>
      || (forall k :: k in w.orders.deletes ==> k !in w.chain)
      || (forall a :: a in w.closing ==> !ClosedOn(w.chain, w.closing[a].counter))
  }

  /** Memory holds a closed record of `a` while `other` of the agreement is open. */
  predicate Shadowed(chain: Chain, memory: Memory, a: Key, other: Key) {
    && a in memory && memory[a].counter.Some? && ClosedOn(chain, memory[a].counter.value.key)
    && OpenFor(chain, a, other)
  }

  predicate BesideClosing(chain: Chain, closing: Closings, a: Key, other: Key) {
    a in closing && OpenFor(chain, a, other) && other != closing[a].counter
  }

  /** A record memory holds is closed while another of the agreement is open only in the middle of a batch
      that closes the one and deletes the others. */
  ghost predicate HidesNone(chain: Chain, memory: Memory, closing: Closings, deletes: set<Key>) {
    && (forall a, other :: Shadowed(chain, memory, a, other) ==> a in closing)
    && (forall a, other :: BesideClosing(chain, closing, a, other) ==> other in deletes)
  }

  ghost predicate NoneHidden(w: World) {
    HidesNone(w.chain, w.memory, w.closing, w.orders.deletes)
  }

  /** No record is newly open. */
  ghost predicate OpensFewer(chain: Chain, after: Chain) {
    forall a, k :: OpenFor(after, a, k) ==> OpenFor(chain, a, k)
  }

  /** No agreement newly holds a record. */
  ghost predicate HoldsFewer(memory: Memory, after: Memory) {
    forall a, k :: HoldsRecord(after, a, k) ==> HoldsRecord(memory, a, k)
  }

  /** Where nothing newly opens, only a record that newly closes can be hidden, and then by a flush. */
  lemma LessHidesNone(chain: Chain, memory: Memory, closing: Closings, deletes: set<Key>,
                      chainAfter: Chain, memoryAfter: Memory, deletesAfter: set<Key>)
    requires HidesNone(chain, memory, closing, deletes)
    requires OpensFewer(chain, chainAfter) && HoldsFewer(memory, memoryAfter)
    requires forall a, k :: HoldsRecord(memoryAfter, a, k) && ClosedOn(chainAfter, k) ==> ClosedOn(chain, k) || a in closing
    requires forall k :: k in deletes && k in chainAfter ==> k in deletesAfter
    ensures HidesNone(chainAfter, memoryAfter, closing, deletesAfter)
  {
    forall a, other | Shadowed(chainAfter, memoryAfter, a, other) ensures a in closing {
      var k := memoryAfter[a].counter.value.key;
      assert HoldsRecord(memoryAfter, a, k) && HoldsRecord(memory, a, k);
      if a !in closing { assert Shadowed(chain, memory, a, other); }
    }
    forall a, other | BesideClosing(chainAfter, closing, a, other) ensures other in deletesAfter {
      assert BesideClosing(chain, closing, a, other);
    }
  }

  lemma PatchHidesNone(w: World, k: Key, answered: bool)
    requires Inv(w) && NoneHidden(w) && Lands(w, k)
    ensures NoneHidden(PatchLanded(w, k, answered))
  {
    PatchedOpen(w, k);
    PatchFacts(w, k);
    var after := PatchLanded(w, k, answered);
    forall a, other | HoldsRecord(w.memory, a, other) && ClosedOn(after.chain, other)
      ensures ClosedOn(w.chain, other) || a in w.closing
    {
      if other == k { PatchClosesHeld(w, a, k); }
    }
    hide Inv, HidesNone;
    LessHidesNone(w.chain, w.memory, w.closing, w.orders.deletes, after.chain, after.memory, after.orders.deletes);
  }

  /** A patch that closes a record a live agreement holds is one of the closes of the flush. */
  lemma PatchClosesHeld(w: World, a: Key, k: Key)
    requires Shape(w) && Lands(w, k) && HoldsRecord(w.memory, a, k)
    ensures w.orders.patches[k].state == Closed ==> a in w.closing
  {
    assert w.chain[k].record.agreement == a;
  }

  lemma CreateHidesNone(w: World, a: Key, k: Key, life: nat, answered: bool)
    requires Inv(w) && NoneHidden(w) && Opens(w, a, k)
    ensures NoneHidden(CreateLanded(w, a, k, life, answered))
  {
    CreatedOpen(w, a, k, life, answered);
    assert w.memory[a].counter.None? && a !in w.closing && k !in w.chain;
    var after := CreateLanded(w, a, k, life, answered);
    HeldKnown(w, k);
    hide Inv;
    OneOpenedHidesNone(w.chain, w.memory, w.closing, w.orders.deletes, a, k, after.chain, after.memory);
  }

  /** A record opened where memory holds none and nothing closes hides nothing. */
  lemma OneOpenedHidesNone(chain: Chain, memory: Memory, closing: Closings, deletes: set<Key>, a: Key, k: Key,
                           chainAfter: Chain, memoryAfter: Memory)
    requires HidesNone(chain, memory, closing, deletes) && a !in closing && a in memory && memory[a].counter.None?
    requires k in chainAfter && chainAfter[k].record.state == Open
    requires forall b, other :: OpenFor(chainAfter, b, other) ==> OpenFor(chain, b, other) || (b == a && other == k)
    requires forall other :: ClosedOn(chainAfter, other) ==> ClosedOn(chain, other)
    requires forall b :: b in memoryAfter ==> b in memory && (b != a ==> memoryAfter[b].counter == memory[b].counter)
    requires a in memoryAfter && memoryAfter[a].counter.Some? ==> memoryAfter[a].counter.value.key == k
    ensures HidesNone(chainAfter, memoryAfter, closing, deletes)
  {
    forall b, other | Shadowed(chainAfter, memoryAfter, b, other) ensures Shadowed(chain, memory, b, other) {}
    forall b, other | BesideClosing(chainAfter, closing, b, other) ensures BesideClosing(chain, closing, b, other) {}
  }

  lemma HeldKnown(w: World, k: Key)
    requires Inv(w) && k !in w.issued
    ensures forall a :: !HoldsRecord(w.memory, a, k)
  {
    forall a, held | HoldsRecord(w.memory, a, held) ensures held in w.issued {
      assert CounterSound(w.chain, w.issued, a, w.memory[a].served, w.memory[a].counter.value);
    }
  }

  lemma CountHidesNone(w: World, open: map<Key, Key>, stop: bool)
    requires Inv(w) && w.phase == Idle && ReadOf(w.chain, open) && InStep(w.chain, open, w.memory)
    ensures NoneHidden(CountSent(w, open, stop))
  {
    ReadOpen(w.chain, open);
    hide Inv;
    var sent := CountSent(w, open, stop);
    forall a, other ensures !Shadowed(sent.chain, sent.memory, a, other) {}
    forall a, other | BesideClosing(sent.chain, sent.closing, a, other) ensures other in sent.orders.deletes {
      assert DeleteFor(w, open, stop, other);
    }
  }

  /** Between batches nothing is shadowed, so a reconcile finds nothing hidden, and leaves it so. */
  lemma ReconcileHidesNone(w: World, open: map<Key, Key>)
    requires NoneHidden(w) && w.closing == map[] && ReadOf(w.chain, open)
    ensures Hidden(w.chain, open, w.memory) == map[]
    ensures NoneHidden(ReconciledWorld(w, open))
  {
    ReadOpen(w.chain, open);
    hide ReadOf;
    HoldsOpen(w.chain, open, w.memory);
    forall a, other ensures !BesideClosing(w.chain, w.closing, a, other) {}
    FindsNone(w.chain, open, w.memory);
    hide Reconciled, Hidden, Shadowed;
  }

  lemma ReadOpen(chain: Chain, open: map<Key, Key>)
    requires ReadOf(chain, open)
    ensures forall a :: a in open ==> OpenFor(chain, a, open[a])
  {
    forall a | a in open ensures OpenFor(chain, a, open[a]) { assert IsOldest(chain, a, open[a]); }
  }

  lemma FindsNone(chain: Chain, open: map<Key, Key>, memory: Memory)
    requires forall a :: a in open ==> OpenFor(chain, a, open[a])
    requires forall a, other :: !Shadowed(chain, memory, a, other)
    ensures Hidden(chain, open, memory) == map[]
  {
    forall a | a in memory ensures a !in Hidden(chain, open, memory) {
      if a in open { assert !Shadowed(chain, memory, a, open[a]); }
    }
  }

  lemma HoldsOpen(chain: Chain, open: map<Key, Key>, memory: Memory)
    requires forall a :: a in open ==> OpenFor(chain, a, open[a])
    ensures forall a, other :: !Shadowed(chain, Reconciled(chain, open, memory), a, other)
  {
  }

  lemma EndPeriodsHidesNone(w: World)
    requires Inv(w) && NoneHidden(w) && w.phase == Counting && EndsWhole(w, EndPeriods)
    ensures NoneHidden(PeriodsEnded(w))
  {
    forall a, other ensures !Shadowed(w.chain, PeriodsEnded(w).memory, a, other) {
      if Shadowed(w.chain, PeriodsEnded(w).memory, a, other) {
        assert Shadowed(w.chain, w.memory, a, other);
        assert HoldsRecord(w.memory, a, w.closing[a].counter);
        assert BesideClosing(w.chain, w.closing, a, other);
        assert false;
      }
    }
  }

  lemma FewerHidesNone(w: World, after: World)
    requires NoneHidden(w) && OpensFewer(w.chain, after.chain) && HoldsFewer(w.memory, after.memory)
    requires forall k :: ClosedOn(after.chain, k) ==> ClosedOn(w.chain, k)
    requires after.closing == w.closing && forall k :: k in w.orders.deletes && k in after.chain ==> k in after.orders.deletes
    ensures NoneHidden(after)
  {
    LessHidesNone(w.chain, w.memory, w.closing, w.orders.deletes, after.chain, after.memory, after.orders.deletes);
  }

  /** Without a batch of counts out, the deletes say nothing. */
  lemma IdleHidesNone(w: World, after: World)
    requires NoneHidden(w) && w.closing == map[] && after.closing == map[]
    requires after.chain == w.chain && HoldsFewer(w.memory, after.memory)
    ensures NoneHidden(after)
  {
    LessHidesNone(w.chain, w.memory, w.closing, w.orders.deletes, w.chain, after.memory, w.orders.deletes);
  }

  lemma ClosingOnlyCounting(w: World)
    requires Inv(w)
    ensures w.phase != Counting ==> w.closing == map[]
  {
  }

  lemma WorldStepHidesNone(w: World, step: Step)
    requires NoneHidden(w) && Enabled(w, step) && (ByTheWorld(step) || step.LandDelete?)
    ensures NoneHidden(Apply(w, step))
  {
    hide HidesNone, LostWith, DoubledWith, LeftToBill;
    match step
    case Serve(a) => FewerHidesNone(w, Served(w, a));
    case Blocks(n) =>
    case Expire(k) => FewerHidesNone(w, Expired(w, k));
    case LandDelete(k) => FewerHidesNone(w, DeleteLanded(w, k));
    case Crash => CrashHidesNone(w);
  }

  lemma AgreementStepHidesNone(w: World, step: Step)
    requires NoneHidden(w) && w.closing == map[] && Enabled(w, step) && (ByAgreements(step) || step.FinishFlush?)
    ensures NoneHidden(Apply(w, step))
  {
    hide HidesNone, LostWith, DoubledWith, LeftToBill, FinalOrders;
    IdleHidesNone(w, Apply(w, step));
  }

  lemma CrashHidesNone(w: World)
    ensures NoneHidden(Crashed(w))
  {
  }

  lemma StepHidesNone(w: World, step: Step)
    requires Inv(w) && NoneHidden(w) && Enabled(w, step) && EndsWhole(w, step)
    ensures NoneHidden(Apply(w, step)) && !HidesAClose(w, step)
  {
    ClosingOnlyCounting(w);
    hide Inv, NoneHidden, Hidden, Reconciled, LeftToBill, LostWith, DoubledWith, FinalOrders, ReadOf, InStep;
    match step
    case LandPatch(k, answered) => PatchHidesNone(w, k, answered);
    case LandCreate(a, k, life, answered) => CreateHidesNone(w, a, k, life, answered);
    case Count(open, stop) => CountHidesNone(w, open, stop);
    case Reconcile(open) => ReconcileHidesNone(w, open);
    case EndPeriods => EndPeriodsHidesNone(w);
    case _ =>
      if ByTheWorld(step) || step.LandDelete? { WorldStepHidesNone(w, step); } else { AgreementStepHidesNone(w, step); }
  }

  ghost predicate BatchesEndWhole(w: World, run: seq<Step>)
    requires Feasible(w, run)
    decreases |run|
  {
    run == [] || (EndsWhole(w, run[0]) && BatchesEndWhole(Apply(w, run[0]), run[1..]))
  }

  /** With batches that end whole, duplicates at zero never hide a close: a forward is billed twice only when
      a closed record expired unseen, and every open record but an agreement's oldest stays at zero. */
  lemma {:induction false} DuplicatesHideNone(w: World, run: seq<Step>)
    requires Inv(w) && NoneHidden(w) && Feasible(w, run) && BatchesEndWhole(w, run)
    ensures NeverBillsAgain(w, run) <==> NeverForgets(w, run)
    ensures NoneDoubled(w) ==> (NoneDoubled(After(w, run)) <==> NeverForgets(w, run))
    ensures YoungerZero(After(w, run).chain)
    decreases |run|
  {
    RunKeeps(w, run);
    if run != [] {
      StepKeeps(w, run[0]);
      StepHidesNone(w, run[0]);
      DuplicatesHideNone(Apply(w, run[0]), run[1..]);
    }
    if NoneDoubled(w) { RunDoubles(w, run); }
  }

  /* ---------- one record for one agreement ---------- */

  lemma FewerHeldApart(memory: Memory, after: Memory)
    requires HeldApart(memory) && HoldsFewer(memory, after)
    ensures HeldApart(after)
  {
  }

  lemma ReconcileHeldApart(w: World, open: map<Key, Key>)
    requires ReadOf(w.chain, open)
    ensures HeldApart(Reconciled(w.chain, open, w.memory))
  {
    ReadOpen(w.chain, open);
    var after := Reconciled(w.chain, open, w.memory);
    forall a, k | HoldsRecord(after, a, k) ensures OpenFor(w.chain, a, k) {
      assert after[a] == Matched(w.chain, open, a, Forgotten(w.chain, open, a, w.memory[a]));
    }
  }

  lemma CreateHeldApart(w: World, a: Key, k: Key, life: nat, answered: bool)
    requires Inv(w) && HeldApart(w.memory) && Opens(w, a, k)
    ensures HeldApart(CreateLanded(w, a, k, life, answered).memory)
  {
    HeldKnown(w, k);
    hide Inv;
    var after := CreateLanded(w, a, k, life, answered).memory;
    forall b, other | HoldsRecord(after, b, other) ensures HoldsRecord(w.memory, b, other) || (b == a && other == k) {}
    forall b, c, other | HoldsRecord(after, b, other) && HoldsRecord(after, c, other) ensures b == c {
      assert !HoldsRecord(w.memory, b, k) && !HoldsRecord(w.memory, c, k);
    }
  }

  lemma OtherHeldApart(w: World, step: Step)
    requires HeldApart(w.memory) && Enabled(w, step) && !step.Reconcile? && !step.LandCreate?
    ensures HeldApart(Apply(w, step).memory)
  {
    hide LostWith, DoubledWith, LeftToBill, FinalOrders;
    FewerHeldApart(w.memory, Apply(w, step).memory);
  }

  lemma StepHeldApart(w: World, step: Step)
    requires Inv(w) && HeldApart(w.memory) && Enabled(w, step)
    ensures HeldApart(Apply(w, step).memory)
  {
    hide Inv, HeldApart, Reconciled, Hidden;
    if step.Reconcile? { ReconcileHeldApart(w, step.open); }
    else if step.LandCreate? { CreateHeldApart(w, step.a, step.k, step.life, step.answered); }
    else { OtherHeldApart(w, step); }
  }

  /** In every state a first start can reach, no two agreements count into one record. */
  lemma {:induction false} RunHeldApart(w: World, run: seq<Step>)
    requires Inv(w) && HeldApart(w.memory) && Feasible(w, run)
    ensures HeldApart(After(w, run).memory)
    decreases |run|
  {
    hide Inv, HeldApart, Enabled, Apply;
    if run != [] {
      StepKeeps(w, run[0]);
      StepHeldApart(w, run[0]);
      RunHeldApart(Apply(w, run[0]), run[1..]);
    }
  }
}

/** Every closed counter record names the block it closed at, so settle can read it. */
module CounterDates {
  import opened Basics
  import opened CounterRecords
  import opened CounterProtocol
  import opened CounterInvariant
  import opened CounterTheorems

  predicate DatedRecord(record: CounterRecord) {
    record.state == Closed ==> record.closedBlock.Some?
  }

  ghost predicate Dated(ledger: map<Key, CounterRecord>, patches: map<Key, CounterRecord>) {
    && (forall k :: k in ledger ==> DatedRecord(ledger[k]))
    && (forall k :: k in patches ==> DatedRecord(patches[k]))
  }

  lemma PatchDated(w: World, k: Key, answered: bool)
    requires Inv(w) && Lands(w, k) && Dated(w.ledger, w.orders.patches)
    ensures var after := PatchLanded(w, k, answered); Dated(after.ledger, after.orders.patches)
  {
    PatchFacts(w, k);
  }

  lemma OrdersDated(w: World, step: Step)
    requires Dated(w.ledger, w.orders.patches) && Enabled(w, step) && (step.Count? || step.EndAgreements?)
    ensures Dated(w.ledger, Apply(w, step).orders.patches) && Apply(w, step).ledger == w.ledger
  {
    match step
    case Count(open, stop) =>
      forall k | k in w.chain && PatchFor(w, open, stop, k).Some? ensures DatedRecord(PatchFor(w, open, stop, k).value) {}
    case EndAgreements(gone, finals) =>
      forall k | k in finals.patches ensures DatedRecord(finals.patches[k]) {
        var a :| EndedWith(w.memory, gone, a, k) && finals.patches[k] == FinalRecord(a, w.memory[a], w.head);
      }
  }

  lemma OthersDated(w: World, step: Step)
    requires Dated(w.ledger, w.orders.patches) && Enabled(w, step)
    requires !step.Count? && !step.EndAgreements? && !step.LandPatch?
    ensures Dated(Apply(w, step).ledger, Apply(w, step).orders.patches)
  {
    hide LostWith, DoubledWith, LeftToBill, Reconciled, Hidden;
  }

  lemma StepDated(w: World, step: Step)
    requires Inv(w) && Dated(w.ledger, w.orders.patches) && Enabled(w, step)
    ensures Dated(Apply(w, step).ledger, Apply(w, step).orders.patches)
  {
    if step.LandPatch? { PatchDated(w, step.k, step.answered); }
    else if step.Count? || step.EndAgreements? { OrdersDated(w, step); }
    else { OthersDated(w, step); }
    hide *;
  }

  lemma {:induction false} RunDated(w: World, run: seq<Step>)
    requires Inv(w) && Dated(w.ledger, w.orders.patches) && Feasible(w, run)
    ensures Dated(After(w, run).ledger, After(w, run).orders.patches)
    decreases |run|
  {
    hide Inv, Dated, Enabled, Apply;
    if run != [] {
      StepKeeps(w, run[0]);
      StepDated(w, run[0]);
      RunDated(Apply(w, run[0]), run[1..]);
    }
  }

  /** In every state a first start can reach, every closed record names its closing block. */
  lemma ClosedIsDated(w: World, k: Key)
    requires Reachable(w) && k in w.ledger
    ensures w.ledger[k].closedBlock.Some?
  {
    hide Feasible, After, Inv;
    var period: nat, head: nat :| Leads(Genesis(period, head), w);
    var run :| Feasible(Genesis(period, head), run) && After(Genesis(period, head), run) == w;
    GenesisSound(period, head);
    RunDated(Genesis(period, head), run);
    ReachableSound(w);
    LedgerClosed(w, k);
  }

  lemma LedgerClosed(w: World, k: Key)
    requires Inv(w) && k in w.ledger
    ensures w.ledger[k].state == Closed
  {
  }
}

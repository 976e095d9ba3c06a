/** What the counter protocol guarantees over every run from a first start. */
module CounterTheorems {
  import opened Basics
  import opened CounterRecords
  import opened CounterProtocol
  import opened CounterInvariant

  /* ---------- one open record an agreement ---------- */

  ghost predicate AtMostOne(chain: Chain) {
    forall a, k, other :: OpenFor(chain, a, k) && OpenFor(chain, a, other) ==> k == other
  }

  /** No open record but the one memory holds, and none at all where one is about to be created. */
  ghost predicate Single(w: World) {
    && AtMostOne(w.chain)
    && (forall a, k :: a in w.memory && w.memory[a].counter.Some? && OpenFor(w.chain, a, k)
          ==> k == w.memory[a].counter.value.key)
    && (forall a, k :: a in w.orders.creates ==> !OpenFor(w.chain, a, k))
  }

  /** A chain on which nothing newly opened. */
  ghost predicate NoneOpened(before: Chain, after: Chain) {
    forall a, k :: OpenFor(after, a, k) ==> OpenFor(before, a, k)
  }

  lemma SingleStays(w: World, after: World)
    requires Single(w) && NoneOpened(w.chain, after.chain)
    requires forall a :: a in after.memory && after.memory[a].counter.Some? ==>
               a in w.memory && w.memory[a].counter == after.memory[a].counter
    requires forall a :: a in after.orders.creates ==> a in w.orders.creates
    ensures Single(after)
  {
  }

  lemma WorldStepSingle(w: World, step: Step)
    requires Inv(w) && Single(w) && Enabled(w, step) && ByTheWorld(step)
    ensures Single(Apply(w, step))
  {
    hide Inv, LostWith, DoubledWith, LeftToBill;
    SingleStays(w, Apply(w, step));
  }

  lemma PatchSingle(w: World, k: Key, answered: bool)
    requires Inv(w) && Single(w) && Lands(w, k)
    ensures Single(PatchLanded(w, k, answered))
  {
    PatchedOpen(w, k);
    SingleStays(w, PatchLanded(w, k, answered));
  }

  lemma CreateSingle(w: World, a: Key, k: Key, life: nat, answered: bool)
    requires Inv(w) && Single(w) && Opens(w, a, k)
    ensures Single(CreateLanded(w, a, k, life, answered))
  {
    CreatedOpen(w, a, k, life, answered);
    var after := CreateLanded(w, a, k, life, answered);
    assert w.memory[a].counter.None?;
  }

  lemma ChainStepSingle(w: World, step: Step)
    requires Inv(w) && Single(w) && Enabled(w, step) && ByTheChain(step)
    ensures Single(Apply(w, step))
  {
    match step
    case LandPatch(k, answered) => PatchSingle(w, k, answered);
    case LandDelete(k) => SingleStays(w, DeleteLanded(w, k));
    case LandCreate(a, k, life, answered) => CreateSingle(w, a, k, life, answered);
  }

  lemma AcceptSingle(w: World, a: Key, terms: Terms)
    requires Inv(w) && Single(w) && Enabled(w, Accept(a, terms))
    ensures Single(Accepted(w, a, terms))
  {
    assert forall k :: !OpenFor(w.chain, a, k);
  }

  lemma AdoptSingle(w: World, a: Key, terms: Terms)
    requires Single(w) && a !in w.memory
    ensures Single(Adopted(w, a, terms))
  {
    SingleStays(w, Adopted(w, a, terms));
  }

  lemma EndSingle(w: World, gone: set<Key>, finals: Orders)
    requires Single(w) && finals.creates == map[]
    ensures Single(Ended(w, gone, finals))
  {
    SingleStays(w, Ended(w, gone, finals));
  }

  lemma BatchOverSingle(w: World, after: World)
    requires Single(w) && after.chain == w.chain && after.memory == w.memory && after.orders == NO_ORDERS
    ensures Single(after)
  {
    SingleStays(w, after);
  }

  lemma AgreementStepSingle(w: World, step: Step)
    requires Inv(w) && Single(w) && Enabled(w, step) && ByAgreements(step)
    ensures Single(Apply(w, step))
  {
    hide Inv, Single, LeftToBill;
    match step
    case Accept(a, terms) => AcceptSingle(w, a, terms);
    case FinishAccept => BatchOverSingle(w, Apply(w, step));
    case Adopt(a, terms) => AdoptSingle(w, a, terms);
    case EndAgreements(gone, finals) => EndSingle(w, gone, finals);
    case FinishEnding => BatchOverSingle(w, EndingFinished(w));
  }

  lemma ReconcileSingle(w: World, open: map<Key, Key>)
    requires Inv(w) && Single(w) && w.phase == Idle && ReadOf(w.chain, open)
    ensures Single(ReconciledWorld(w, open))
    ensures Hidden(w.chain, open, w.memory) == map[]
  {
    hide Inv, Reconciled, Hidden;
    IdleOrders(w);
    forall a | a in open ensures OpenFor(w.chain, a, open[a]) {
      assert IsOldest(w.chain, a, open[a]);
    }
    ReconciledSingle(w.chain, open, w.memory);
    SingleHides(w.chain, open, w.memory);
  }

  lemma SingleHides(chain: Chain, open: map<Key, Key>, memory: Memory)
    requires forall a :: a in open ==> OpenFor(chain, a, open[a])
    requires forall a, k :: a in memory && memory[a].counter.Some? && OpenFor(chain, a, k) ==> k == memory[a].counter.value.key
    ensures Hidden(chain, open, memory) == map[]
  {
    forall a | a in memory ensures a !in Hidden(chain, open, memory) {}
  }

  lemma IdleOrders(w: World)
    requires Inv(w) && w.phase == Idle
    ensures w.orders == NO_ORDERS
  {
  }

  /** After a reconcile an agreement holds the record read for it. */
  lemma ReconciledSingle(chain: Chain, open: map<Key, Key>, memory: Memory)
    requires AtMostOne(chain) && forall a :: a in open ==> OpenFor(chain, a, open[a])
    ensures var after := Reconciled(chain, open, memory);
            forall a, k :: a in after && after[a].counter.Some? && OpenFor(chain, a, k) ==> k == after[a].counter.value.key
  {
    forall a | a in memory
      ensures Reconciled(chain, open, memory)[a] == Matched(chain, open, a, Forgotten(chain, open, a, memory[a])) {}
    hide Reconciled;
  }

  lemma EndPeriodsSingle(w: World)
    requires Inv(w) && Single(w) && w.phase == Counting
    ensures Single(PeriodsEnded(w))
  {
    var after := PeriodsEnded(w);
    forall a, k | a in Successors(w) ensures !OpenFor(w.chain, a, k) {
      assert HoldsRecord(w.memory, a, w.closing[a].counter);
    }
  }

  lemma FlushStepSingle(w: World, step: Step)
    requires Inv(w) && Single(w) && Enabled(w, step)
    requires step.Reconcile? || step.Count? || step.EndPeriods? || step.FinishFlush?
    ensures Single(Apply(w, step))
  {
    hide Inv, Single, Reconciled, Hidden;
    match step
    case Reconcile(open) => ReconcileSingle(w, open);
    case Count(open, stop) => CountSingle(w, open, stop);
    case EndPeriods => EndPeriodsSingle(w);
    case FinishFlush => BatchOverSingle(w, Apply(w, step));
  }

  /** A flush opens a record only where it read none. */
  lemma CountSingle(w: World, open: map<Key, Key>, stop: bool)
    requires Single(w) && ReadOf(w.chain, open)
    ensures Single(CountSent(w, open, stop))
  {
  }

  lemma StepSingle(w: World, step: Step)
    requires Inv(w) && Single(w) && Enabled(w, step)
    ensures Single(Apply(w, step))
  {
    if ByTheWorld(step) { WorldStepSingle(w, step); }
    else if ByTheChain(step) { ChainStepSingle(w, step); }
    else if ByAgreements(step) { AgreementStepSingle(w, step); }
    else { FlushStepSingle(w, step); }
  }

  /* ---------- when a forward is billed twice ---------- */

  /** A record that closed leaves the chain before memory learned that it closed. */
  predicate ForgetsAClose(w: World, step: Step) {
    step.Expire? && step.k in w.chain && DoubledWith(w, step.k) > 0
  }

  ghost predicate NeverForgets(w: World, run: seq<Step>)
    requires Feasible(w, run)
    decreases |run|
  {
    run == [] || (!ForgetsAClose(w, run[0]) && NeverForgets(Apply(w, run[0]), run[1..]))
  }

  ghost predicate NoneDoubled(w: World) {
    forall a: Key :: At(w.doubled, a) == 0
  }

  lemma DoubledNeverFalls(w: World, step: Step, a: Key)
    requires Inv(w) && Enabled(w, step)
    ensures At(Apply(w, step).doubled, a) >= At(w.doubled, a)
  {
    if step.Reconcile? {
      HiddenNonNegative(w.chain, step.open, w.memory);
    } else if !step.Expire? {
      DoubledSame(w, step);
    }
    hide Inv, Hidden, Reconciled;
  }

  /** A reconcile finds an open record where memory held one that closed unseen. */
  ghost predicate HidesAClose(w: World, step: Step) {
    step.Reconcile? && Hidden(w.chain, step.open, w.memory) != map[]
  }

  ghost predicate BillsAgain(w: World, step: Step) {
    ForgetsAClose(w, step) || HidesAClose(w, step)
  }

  ghost predicate NeverBillsAgain(w: World, run: seq<Step>)
    requires Feasible(w, run)
    decreases |run|
  {
    run == [] || (!BillsAgain(w, run[0]) && NeverBillsAgain(Apply(w, run[0]), run[1..]))
  }

  lemma HiddenPositive(chain: Chain, open: map<Key, Key>, memory: Memory, issued: set<Key>, terms: map<Key, Terms>,
                       ledger: map<Key, CounterRecord>)
    requires ChainSound(chain, issued, terms, ledger) && LedgerSound(issued, terms, ledger)
    ensures forall a :: a in Hidden(chain, open, memory) ==> Hidden(chain, open, memory)[a] > 0
  {
  }

  lemma PlusNone(tally: map<Key, int>, more: map<Key, int>)
    requires (forall a: Key :: At(tally, a) == 0) && forall a :: a in more ==> more[a] > 0
    ensures (forall a: Key :: At(Plus(tally, more), a) == 0) <==> more == map[]
  {
    if more != map[] {
      var a :| a in more;
      assert At(Plus(tally, more), a) > 0;
    }
  }

  lemma HiddenDoubles(w: World, open: map<Key, Key>)
    requires Inv(w) && NoneDoubled(w)
    ensures NoneDoubled(ReconciledWorld(w, open)) <==> Hidden(w.chain, open, w.memory) == map[]
  {
    HiddenPositive(w.chain, open, w.memory, w.issued, w.terms, w.ledger);
    hide Inv, Hidden;
    PlusNone(w.doubled, Hidden(w.chain, open, w.memory));
  }

  lemma ExpiryDoubles(w: World, k: Key)
    requires k in w.chain && NoneDoubled(w)
    ensures NoneDoubled(Expired(w, k)) <==> !ForgetsAClose(w, Expire(k))
  {
    var a := w.chain[k].record.agreement;
    assert At(Expired(w, k).doubled, a) == DoubledWith(w, k);
  }

  lemma DoubledSame(w: World, step: Step)
    requires Enabled(w, step) && !step.Expire? && !step.Reconcile?
    ensures Apply(w, step).doubled == w.doubled
  {
  }

  lemma StepDoubles(w: World, step: Step)
    requires Inv(w) && Enabled(w, step) && NoneDoubled(w)
    ensures NoneDoubled(Apply(w, step)) <==> !BillsAgain(w, step)
  {
    hide Inv, Reconciled, Hidden, NoneDoubled, DoubledWith;
    if step.Reconcile? {
      HiddenDoubles(w, step.open);
    } else if step.Expire? {
      ExpiryDoubles(w, step.k);
    } else {
      DoubledSame(w, step);
      SameDoubled(w, Apply(w, step));
    }
  }

  lemma SameDoubled(w: World, after: World)
    requires after.doubled == w.doubled
    ensures NoneDoubled(after) <==> NoneDoubled(w)
  {
  }

  lemma {:induction false} RunNeverFalls(w: World, run: seq<Step>, a: Key)
    requires Inv(w) && Feasible(w, run)
    ensures At(After(w, run).doubled, a) >= At(w.doubled, a)
    decreases |run|
  {
    if run != [] {
      StepKeeps(w, run[0]);
      DoubledNeverFalls(w, run[0], a);
      RunNeverFalls(Apply(w, run[0]), run[1..], a);
    }
  }

  /** From any sound start, a run bills a forward twice if and only if one of its steps is one of the two. */
  lemma {:induction false} RunDoubles(w: World, run: seq<Step>)
    requires Inv(w) && NoneDoubled(w) && Feasible(w, run)
    ensures NoneDoubled(After(w, run)) <==> NeverBillsAgain(w, run)
    decreases |run|
  {
    if run != [] {
      var next := Apply(w, run[0]);
      StepKeeps(w, run[0]);
      StepDoubles(w, run[0]);
      if NoneDoubled(next) {
        RunDoubles(next, run[1..]);
      } else {
        var a :| At(next.doubled, a) != 0;
        RunNeverFalls(next, run[1..], a);
      }
    }
  }

  /** With one open record an agreement nothing hides a close. */
  lemma {:induction false} SingleHidesNone(w: World, run: seq<Step>)
    requires Inv(w) && Single(w) && Feasible(w, run)
    ensures NeverBillsAgain(w, run) <==> NeverForgets(w, run)
    decreases |run|
  {
    if run != [] {
      StepKeeps(w, run[0]);
      StepSingle(w, run[0]);
      if run[0].Reconcile? { ReconcileSingle(w, run[0].open); }
      hide Inv, Single, Apply, ForgetsAClose, Hidden;
      SingleHidesNone(Apply(w, run[0]), run[1..]);
    }
  }

  /* ---------- the theorems ---------- */

  /** Some run leads from `start` to `w`. */
  ghost predicate Leads(start: World, w: World) {
    exists run :: Feasible(start, run) && After(start, run) == w
  }

  /** A state some run from some first start ends in. */
  ghost predicate Reachable(w: World) {
    exists period: nat, head: nat :: Leads(Genesis(period, head), w)
  }

  lemma {:induction false} Append(w: World, run: seq<Step>, step: Step)
    requires Feasible(w, run) && Enabled(After(w, run), step)
    ensures Feasible(w, run + [step]) && After(w, run + [step]) == Apply(After(w, run), step)
    decreases |run|
  {
    if run == [] {
      assert run + [step] == [step];
      assert After(Apply(w, step), []) == Apply(w, step);
    } else {
      assert (run + [step])[0] == run[0] && (run + [step])[1..] == run[1..] + [step];
      Append(Apply(w, run[0]), run[1..], step);
    }
  }

  lemma Still(w: World)
    ensures Leads(w, w)
  {
    assert Feasible(w, []) && After(w, []) == w;
  }

  /** One step further along a run. */
  lemma Onward(start: World, w: World, step: Step)
    requires Leads(start, w) && Enabled(w, step)
    ensures Leads(start, Apply(w, step))
  {
    var run :| Feasible(start, run) && After(start, run) == w;
    Append(start, run, step);
  }

  lemma {:induction false} RunSingle(w: World, run: seq<Step>)
    requires Inv(w) && Single(w) && Feasible(w, run)
    ensures Single(After(w, run))
    decreases |run|
  {
    if run != [] {
      StepKeeps(w, run[0]);
      StepSingle(w, run[0]);
      RunSingle(Apply(w, run[0]), run[1..]);
    }
  }

  lemma ReachableSound(w: World)
    requires Reachable(w)
    ensures Inv(w) && Single(w)
  {
    var period: nat, head: nat :| Leads(Genesis(period, head), w);
    var run :| Feasible(Genesis(period, head), run) && After(Genesis(period, head), run) == w;
    GenesisSound(period, head);
    RunKeeps(Genesis(period, head), run);
    RunSingle(Genesis(period, head), run);
  }

  /** In every state a first start can reach, an agreement has at most one open counter record. */
  lemma OneCounter(w: World)
    requires Reachable(w)
    ensures AtMostOne(w.chain)
  {
    ReachableSound(w);
  }

  /** Conservation: whatever was lost, answered or not, and however often the process died, what closed
      records carry for an agreement, what is still to be billed and what is lost add up to the forwards,
      and to the ones billed again. */
  lemma Conservation(w: World, a: Key)
    requires Reachable(w)
    ensures Billed(w.ledger, a) + Carried(w, a) + At(w.lost, a) == At(w.requests, a) + At(w.doubled, a)
    ensures Carried(w, a) >= 0 && At(w.lost, a) >= 0 && At(w.doubled, a) >= 0
  {
    ReachableSound(w);
    InvConserves(w, a);
  }

  lemma InvConserves(w: World, a: Key)
    requires Inv(w)
    ensures Balanced(w, a)
    ensures Carried(w, a) >= 0 && At(w.lost, a) >= 0 && At(w.doubled, a) >= 0
  {
    TalliesOf(w, a);
    CarriedNonNegative(w, a);
  }

  lemma TalliesOf(w: World, a: Key)
    requires Tallies(w)
    ensures Balanced(w, a) && At(w.ending, a) >= 0 && At(w.lost, a) >= 0 && At(w.doubled, a) >= 0
  {
  }

  lemma CarriedNonNegative(w: World, a: Key)
    requires Shape(w) && At(w.ending, a) >= 0
    ensures Carried(w, a) >= 0
  {
    OpenCountNonNegative(w.chain, a);
    if a in w.memory { HeldCoversOpen(w, a); }
  }

  /** No forward is billed twice if and only if no closed record expired before memory learned it closed;
      and then what is billed never exceeds what was served. */
  lemma BilledOnce(period: nat, head: nat, run: seq<Step>)
    requires Feasible(Genesis(period, head), run)
    ensures NoneDoubled(After(Genesis(period, head), run)) <==> NeverForgets(Genesis(period, head), run)
    ensures NeverForgets(Genesis(period, head), run) ==>
              forall a :: Billed(After(Genesis(period, head), run).ledger, a)
                          <= At(After(Genesis(period, head), run).requests, a)
  {
    hide Inv, Single, NoneDoubled, NeverForgets, NeverBillsAgain, Feasible, After, Billed;
    GenesisSound(period, head);
    GenesisSingle(period, head);
    RunDoubles(Genesis(period, head), run);
    SingleHidesNone(Genesis(period, head), run);
    var w := After(Genesis(period, head), run);
    RunKeeps(Genesis(period, head), run);
    if NeverForgets(Genesis(period, head), run) {
      forall a ensures Billed(w.ledger, a) <= At(w.requests, a) { NeverOverbilled(w, a); }
    }
  }

  lemma GenesisSingle(period: nat, head: nat)
    ensures Single(Genesis(period, head)) && NoneDoubled(Genesis(period, head))
  {
  }

  lemma NeverOverbilled(w: World, a: Key)
    requires Inv(w) && NoneDoubled(w)
    ensures Billed(w.ledger, a) <= At(w.requests, a)
  {
    InvConserves(w, a);
    hide Inv;
    assert At(w.doubled, a) == 0;
  }

  /** Nothing with a count in it is deleted, and no subtraction is cut short: in every reachable state a
      delete that is out is for an open record at zero, a close that is out took no more than the entry
      has, and a closed record memory still holds has no more than that either. */
  lemma NothingDestroyed(w: World)
    requires Reachable(w)
    ensures forall k :: Enabled(w, LandDelete(k)) ==> w.chain[k].record.state == Open && w.chain[k].record.count == 0
    ensures forall a :: a in w.closing ==> a in w.memory && w.closing[a].count <= w.memory[a].served
    ensures forall a :: a in w.memory && w.memory[a].counter.Some? && ClosedOn(w.chain, w.memory[a].counter.value.key)
              ==> w.chain[w.memory[a].counter.value.key].record.count <= w.memory[a].served
  {
    ReachableSound(w);
    ShapeDestroysNothing(w);
  }

  lemma ShapeDestroysNothing(w: World)
    requires Shape(w)
    ensures forall k :: Enabled(w, LandDelete(k)) ==> w.chain[k].record.state == Open && w.chain[k].record.count == 0
    ensures forall a :: a in w.closing ==> a in w.memory && w.closing[a].count <= w.memory[a].served
    ensures forall a :: a in w.memory && w.memory[a].counter.Some? && ClosedOn(w.chain, w.memory[a].counter.value.key)
              ==> w.chain[w.memory[a].counter.value.key].record.count <= w.memory[a].served
  {
    forall a | a in w.memory && w.memory[a].counter.Some?
      ensures CounterSound(w.chain, w.issued, a, w.memory[a].served, w.memory[a].counter.value)
    {
    }
  }

  /** Every record of an agreement, open or closed, carries that agreement's own rate and provider. */
  lemma OneRate(w: World)
    requires Reachable(w)
    ensures forall k :: k in w.chain ==> OnTerms(w.terms, w.chain[k].record)
    ensures forall k :: k in w.ledger ==> OnTerms(w.terms, w.ledger[k])
  {
    ReachableSound(w);
  }

  /* ---------- a record once closed ---------- */

  /** The one write that changes a record already closed: the last one of an agreement that ended while
      its close was still unanswered. It brings a later closing block, or more served since, or both. */
  predicate Reclosed(w: World, step: Step) {
    && step.LandPatch? && w.phase == Ending && ClosedOn(w.chain, step.k) && step.k in w.orders.patches
    && w.orders.patches[step.k] != w.chain[step.k].record
  }

  /** A closed record changes exactly when it is reclosed, never loses count, and keeps its terms. */
  lemma ClosedRecordStands(w: World, step: Step, k: Key)
    requires Inv(w) && Enabled(w, step) && k in w.ledger
    ensures k in Apply(w, step).ledger
    ensures Apply(w, step).ledger[k] != w.ledger[k] <==> Reclosed(w, step) && step.k == k
    ensures GrewFrom(w.ledger[k], Apply(w, step).ledger[k])
  {
    if step.LandPatch? {
      LandedOnClosed(w, step.k, step.answered, k);
    } else {
      LedgerSame(w, step);
    }
    hide Inv;
  }

  lemma LedgerSame(w: World, step: Step)
    requires Enabled(w, step) && !step.LandPatch?
    ensures Apply(w, step).ledger == w.ledger
  {
    hide LostWith, DoubledWith, LeftToBill, Reconciled, Hidden, FinalOrders;
  }

  /** The same record, with no less of a count. */
  predicate GrewFrom(before: CounterRecord, after: CounterRecord) {
    && after.count >= before.count && after.agreement == before.agreement
    && after.provider == before.provider && after.weiPerCall == before.weiPerCall
  }

  lemma LandedOnClosed(w: World, k: Key, answered: bool, other: Key)
    requires Inv(w) && Lands(w, k) && other in w.ledger
    ensures var ledger := PatchLanded(w, k, answered).ledger;
            && other in ledger && GrewFrom(w.ledger[other], ledger[other])
            && (ledger[other] != w.ledger[other] <==> Reclosed(w, LandPatch(k, answered)) && k == other)
  {
    PatchFacts(w, k);
    var a := w.chain[k].record.agreement;
    TalliesOf(w, a);
  }

  /* ---------- a stop ---------- */

  /** What a crash right now would lose of an agreement in memory. */
  ghost function AtRisk(w: World, a: Key): int
    requires a in w.memory
  {
    Held(w.chain, w.closing, w.patched, a, w.memory[a]) - OpenCount(w.chain, a)
  }

  /** What is at risk of a live agreement with an open record is what the record does not say yet. */
  lemma AtRiskIs(w: World, a: Key)
    requires Shape(w) && a in w.memory
    ensures w.memory[a].counter.None? ==> AtRisk(w, a) == w.memory[a].served
    ensures w.memory[a].counter.Some? && OpenFor(w.chain, a, w.memory[a].counter.value.key) ==>
              AtRisk(w, a) == w.memory[a].served - w.chain[w.memory[a].counter.value.key].record.count
  {
    HeldCoversOpen(w, a);
  }

  lemma StopLanded(w: World, open: map<Key, Key>, a: Key)
    requires Inv(w) && Enabled(w, Count(open, true)) && a in w.memory && a in open
    requires Lands(CountSent(w, open, true), open[a])
    ensures AtRisk(PatchLanded(CountSent(w, open, true), open[a], false), a) == 0
  {
    hide Tallies, AtRisk;
    CountShape(w, open, true);
    var sent := CountSent(w, open, true);
    hide Shape, CountPatches;
    LandPatchShape(sent, open[a], false);
    assert IsOldest(w.chain, a, open[a]);
    AtRiskIs(PatchLanded(sent, open[a], false), a);
  }

  /** A stop whose write landed loses nothing of an agreement that has its record, and everything since the
      last close of one that has none. */
  lemma StopKeepsCounts(w: World, open: map<Key, Key>, a: Key)
    requires Inv(w) && Enabled(w, Count(open, true)) && a in w.memory
    ensures var sent := CountSent(w, open, true);
            && (a !in open ==> AtRisk(sent, a) == w.memory[a].served)
            && (a in open && open[a] !in sent.orders.patches ==> AtRisk(sent, a) == 0)
            && (a in open && open[a] in sent.orders.patches ==> AtRisk(PatchLanded(sent, open[a], false), a) == 0)
  {
    var sent := CountSent(w, open, true);
    if a in open && open[a] in sent.orders.patches {
      StopLanded(w, open, a);
    } else {
      CountShape(w, open, true);
      if a in open { assert IsOldest(w.chain, a, open[a]); }
      AtRiskIs(sent, a);
    }
  }
}

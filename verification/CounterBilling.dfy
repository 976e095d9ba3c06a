/** What a close that was forgotten comes to, and how it is kept from happening. */
module CounterBilling {
  import opened Basics
  import opened CounterRecords
  import opened CounterProtocol
  import opened CounterInvariant
  import opened CounterTheorems

  /* ---------- a read in time ---------- */

  /** The landing closes a record, and no answer says so. */
  predicate ClosesUnanswered(w: World, step: Step) {
    && step.LandPatch? && !step.answered && step.k in w.chain && step.k in w.orders.patches
    && w.orders.patches[step.k].state == Closed
  }

  /** The closed records nobody answered for and no reconcile has read back since. */
  function Unread(w: World, step: Step, unread: set<Key>): set<Key> {
    if step.Reconcile? || step.Crash? then {}
    else if ClosesUnanswered(w, step) then unread + {step.k}
    else unread
  }

  /** Every close whose answer was lost is read back, by a reconcile, before its record expires. */
  ghost predicate ReadInTime(w: World, run: seq<Step>, unread: set<Key>)
    requires Feasible(w, run)
    decreases |run|
  {
    run == []
    || (!(run[0].Expire? && run[0].k in unread) && ReadInTime(Apply(w, run[0]), run[1..], Unread(w, run[0], unread)))
  }

  /** A closed record memory still holds was answered for, or is still to be read. */
  ghost predicate Noted(chain: Chain, memory: Memory, closing: Closings, patched: set<Key>, unread: set<Key>) {
    forall a, k :: HoldsRecord(memory, a, k) && ClosedOn(chain, k) ==> k in unread || Named(closing, patched, a, k)
  }

  lemma PatchNoted(w: World, k: Key, answered: bool, unread: set<Key>)
    requires Inv(w) && Lands(w, k) && Noted(w.chain, w.memory, w.closing, w.patched, unread)
    ensures var after, still := PatchLanded(w, k, answered), Unread(w, LandPatch(k, answered), unread);
            Noted(after.chain, after.memory, after.closing, after.patched, still)
  {
    PatchFacts(w, k);
    var after, still := PatchLanded(w, k, answered), Unread(w, LandPatch(k, answered), unread);
    forall a, other | HoldsRecord(w.memory, a, other) && ClosedOn(after.chain, other)
      ensures other in still || Named(after.closing, after.patched, a, other)
    {
      if other == k { PatchMemory(w, k, a); HeldIsOwn(w, a, k); }
    }
  }

  /** A record memory holds on the chain is its agreement's own. */
  lemma HeldIsOwn(w: World, a: Key, k: Key)
    requires Shape(w) && HoldsRecord(w.memory, a, k) && k in w.chain
    ensures w.chain[k].record.agreement == a
  {
    assert CounterSound(w.chain, w.issued, a, w.memory[a].served, w.memory[a].counter.value);
  }

  lemma CreateNoted(w: World, a: Key, k: Key, life: nat, answered: bool, unread: set<Key>)
    requires Inv(w) && Enabled(w, LandCreate(a, k, life, answered))
    requires Noted(w.chain, w.memory, w.closing, w.patched, unread)
    ensures var after := CreateLanded(w, a, k, life, answered);
            Noted(after.chain, after.memory, after.closing, after.patched, unread)
  {
    assert w.orders.creates[a].state == Open;
    hide Inv, Named;
    var after := CreateLanded(w, a, k, life, answered);
    forall b, other | HoldsRecord(after.memory, b, other) && ClosedOn(after.chain, other)
      ensures other in unread || Named(w.closing, w.patched, b, other)
    {
      if other != k { assert HoldsRecord(w.memory, b, other); }
    }
  }

  lemma EndPeriodsNoted(w: World, unread: set<Key>)
    requires Noted(w.chain, w.memory, w.closing, w.patched, unread)
    ensures var after := PeriodsEnded(w);
            Noted(after.chain, after.memory, after.closing, after.patched, unread)
  {
    var after := PeriodsEnded(w);
    forall a, k | HoldsRecord(after.memory, a, k) && ClosedOn(after.chain, k) ensures k in unread {
      assert after.memory[a] == Acknowledged(w.closing, w.patched, a, w.memory[a]);
      assert HoldsRecord(w.memory, a, k);
    }
  }

  lemma ReconcileNoted(w: World, open: map<Key, Key>)
    requires ReadOf(w.chain, open)
    ensures var after := ReconciledWorld(w, open);
            Noted(after.chain, after.memory, after.closing, after.patched, {})
  {
    var after := ReconciledWorld(w, open);
    forall a, k | HoldsRecord(after.memory, a, k) ensures !ClosedOn(after.chain, k) {
      assert after.memory[a] == Matched(w.chain, open, a, Forgotten(w.chain, open, a, w.memory[a]));
      assert IsOldest(w.chain, a, open[a]);
    }
  }

  lemma CountNoted(w: World, open: map<Key, Key>, stop: bool, unread: set<Key>)
    requires PhaseSound(w) && w.phase == Idle && Noted(w.chain, w.memory, w.closing, w.patched, unread)
    ensures var after := CountSent(w, open, stop);
            Noted(after.chain, after.memory, after.closing, after.patched, unread)
  {
  }

  lemma InvPhase(w: World)
    requires Inv(w)
    ensures PhaseSound(w)
  {
  }

  lemma StepNoted(w: World, step: Step, unread: set<Key>)
    requires Inv(w) && Enabled(w, step) && Noted(w.chain, w.memory, w.closing, w.patched, unread)
    ensures NotedIn(Apply(w, step), Unread(w, step, unread))
  {
    InvPhase(w);
    if step.LandPatch? || step.LandCreate? || step.EndPeriods? {
      BatchStepNoted(w, step, unread);
    } else if step.Reconcile? || step.Count? {
      ReadStepNoted(w, step, unread);
    } else {
      OtherNoted(w, step, unread);
    }
    hide Inv, Noted, Unread, Enabled, Apply;
  }

  ghost predicate NotedIn(w: World, unread: set<Key>) {
    Noted(w.chain, w.memory, w.closing, w.patched, unread)
  }

  lemma BatchStepNoted(w: World, step: Step, unread: set<Key>)
    requires Inv(w) && Enabled(w, step) && Noted(w.chain, w.memory, w.closing, w.patched, unread)
    requires step.LandPatch? || step.LandCreate? || step.EndPeriods?
    ensures NotedIn(Apply(w, step), Unread(w, step, unread))
  {
    hide Inv, Noted, PatchLanded, CreateLanded, PeriodsEnded;
    match step
    case LandPatch(k, answered) => PatchNoted(w, k, answered, unread);
    case LandCreate(a, k, life, answered) => CreateNoted(w, a, k, life, answered, unread);
    case EndPeriods => EndPeriodsNoted(w, unread);
  }

  lemma ReadStepNoted(w: World, step: Step, unread: set<Key>)
    requires PhaseSound(w) && Enabled(w, step) && Noted(w.chain, w.memory, w.closing, w.patched, unread)
    requires step.Reconcile? || step.Count?
    ensures NotedIn(Apply(w, step), Unread(w, step, unread))
  {
    hide Noted, PhaseSound, ReconciledWorld, CountSent;
    match step
    case Reconcile(open) => ReconcileNoted(w, open);
    case Count(open, stop) => CountNoted(w, open, stop, unread);
  }

  lemma OtherNoted(w: World, step: Step, unread: set<Key>)
    requires Enabled(w, step) && Noted(w.chain, w.memory, w.closing, w.patched, unread)
    requires !step.LandPatch? && !step.LandCreate? && !step.EndPeriods? && !step.Reconcile? && !step.Count?
    ensures NotedIn(Apply(w, step), Unread(w, step, unread))
  {
    var after := Apply(w, step);
    hide LeftToBill, LostWith, DoubledWith, FinalOrders;
    forall a, k | HoldsRecord(after.memory, a, k) && ClosedOn(after.chain, k)
      ensures k in Unread(w, step, unread) || Named(after.closing, after.patched, a, k)
    {
      assert HoldsRecord(w.memory, a, k) && ClosedOn(w.chain, k);
    }
  }

  lemma NotForgotten(w: World, step: Step, unread: set<Key>)
    requires Noted(w.chain, w.memory, w.closing, w.patched, unread) && !(step.Expire? && step.k in unread)
    ensures !ForgetsAClose(w, step)
  {
  }

  /** A condition an operator can see to: with every unanswered close read back before its record expires, no
      close is forgotten. */
  lemma {:induction false} ReadInTimeForgetsNone(w: World, run: seq<Step>, unread: set<Key>)
    requires Inv(w) && Feasible(w, run) && Noted(w.chain, w.memory, w.closing, w.patched, unread)
    requires ReadInTime(w, run, unread)
    ensures NeverForgets(w, run)
    decreases |run|
  {
    if run != [] {
      var next := Apply(w, run[0]);
      StepKeeps(w, run[0]);
      StepNoted(w, run[0], unread);
      NotForgotten(w, run[0], unread);
      hide Inv, Noted, ForgetsAClose;
      ReadInTimeForgetsNone(next, run[1..], Unread(w, run[0], unread));
    }
  }

  /** So no run from a first start that reads in time bills a forward twice. */
  lemma ReadInTimeBillsOnce(period: nat, head: nat, run: seq<Step>)
    requires Feasible(Genesis(period, head), run) && ReadInTime(Genesis(period, head), run, {})
    ensures forall a :: Billed(After(Genesis(period, head), run).ledger, a) <= At(After(Genesis(period, head), run).requests, a)
  {
    GenesisSound(period, head);
    ReadInTimeForgetsNone(Genesis(period, head), run, {});
    hide Feasible, NeverForgets, Inv, After, Billed;
    BilledOnce(period, head, run);
  }

  /* ---------- all of it can be billed ---------- */

  /** What was served, billed again and lost of one agreement is the same. */
  predicate SameTallies(w: World, after: World, a: Key) {
    && At(after.requests, a) == At(w.requests, a) && At(after.doubled, a) == At(w.doubled, a)
    && At(after.lost, a) == At(w.lost, a)
  }

  lemma {:induction false} LeadsSound(w: World, after: World)
    requires Inv(w) && Single(w) && Leads(w, after)
    ensures Inv(after) && Single(after)
  {
    var run :| Feasible(w, run) && After(w, run) == after;
    RunKeeps(w, run);
    RunSingle(w, run);
  }

  lemma {:induction false} Joined(w: World, run: seq<Step>, more: seq<Step>)
    requires Feasible(w, run) && Feasible(After(w, run), more)
    ensures Feasible(w, run + more) && After(w, run + more) == After(After(w, run), more)
    decreases |run|
  {
    if run == [] {
      assert run + more == more;
    } else {
      assert (run + more)[0] == run[0] && (run + more)[1..] == run[1..] + more;
      Joined(Apply(w, run[0]), run[1..], more);
    }
  }

  lemma LeadsOn(w: World, between: World, after: World)
    requires Leads(w, between) && Leads(between, after)
    ensures Leads(w, after)
  {
    var run :| Feasible(w, run) && After(w, run) == between;
    var more :| Feasible(between, more) && After(between, more) == after;
    Joined(w, run, more);
  }

  lemma ReachableOn(w: World, after: World)
    requires Reachable(w) && Leads(w, after)
    ensures Reachable(after)
  {
    var period: nat, head: nat :| Leads(Genesis(period, head), w);
    LeadsOn(Genesis(period, head), w, after);
  }

  /* ---------- one step further ---------- */

  lemma SendingCounts(start: World, w: World, open: map<Key, Key>)
    requires Leads(start, w) && w.phase == Idle && ReadOf(w.chain, open) && InStep(w.chain, open, w.memory)
    ensures Leads(start, CountSent(w, open, false))
  {
    Onward(start, w, Count(open, false));
  }

  lemma Landing(start: World, w: World, k: Key, answered: bool)
    requires Leads(start, w) && Lands(w, k)
    ensures Leads(start, PatchLanded(w, k, answered))
  {
    Onward(start, w, LandPatch(k, answered));
  }

  lemma Flushed(start: World, w: World)
    requires Leads(start, w) && w.phase == Counting
    ensures Leads(start, PeriodsEnded(w).(phase := Idle, orders := NO_ORDERS))
  {
    Onward(start, w, EndPeriods);
    Onward(start, PeriodsEnded(w), FinishFlush);
  }

  lemma Waiting(start: World, w: World, n: nat)
    requires Leads(start, w)
    ensures Leads(start, w.(head := w.head + n))
  {
    Onward(start, w, Blocks(n));
  }

  lemma Reconciling(start: World, w: World, open: map<Key, Key>)
    requires Leads(start, w) && w.phase == Idle && ReadOf(w.chain, open)
    ensures Leads(start, ReconciledWorld(w, open))
  {
    Onward(start, w, Reconcile(open));
  }

  lemma Opening(start: World, w: World, a: Key, k: Key, life: nat)
    requires Leads(start, w) && a in w.orders.creates && k !in w.issued
    ensures Leads(start, CreateLanded(w, a, k, life, false))
  {
    Onward(start, w, LandCreate(a, k, life, false));
  }

  lemma AcceptedOne(start: World, w: World)
    requires Leads(start, w) && w.phase == Accepting
    ensures Leads(start, w.(phase := Idle, orders := NO_ORDERS))
  {
    Onward(start, w, FinishAccept);
  }

  lemma EndedSome(start: World, w: World)
    requires Leads(start, w) && w.phase == Ending
    ensures Leads(start, EndingFinished(w))
  {
    Onward(start, w, FinishEnding);
  }

  lemma Followed(start: World, w: World)
    requires Leads(start, w) && w.phase == Following
    ensures Leads(start, w.(phase := Idle, orders := NO_ORDERS))
  {
    Onward(start, w, FinishFlush);
  }

  /** The batch that is out, ended without another landing. */
  function Quieted(w: World): World {
    match w.phase
    case Idle => w
    case Ending => EndingFinished(w)
    case Counting => PeriodsEnded(w).(phase := Idle, orders := NO_ORDERS)
    case _ => w.(phase := Idle, orders := NO_ORDERS)
  }

  lemma ToIdle(w: World)
    ensures Leads(w, Quieted(w))
  {
    hide Leads, EndingFinished, PeriodsEnded;
    Still(w);
    match w.phase
    case Idle =>
    case Accepting => AcceptedOne(w, w);
    case Ending => EndedSome(w, w);
    case Counting => Flushed(w, w);
    case Following => Followed(w, w);
  }

  lemma QuietedIs(w: World, a: Key)
    requires PhaseSound(w) && a in w.memory
    ensures Quieted(w).phase == Idle && a in Quieted(w).memory && SameTallies(w, Quieted(w), a)
  {
    assert w.phase == Ending ==> At(w.ending, a) == 0;
    hide PhaseSound, PeriodsEnded, EndingFinished;
    if w.phase == Counting { PeriodsEndedIs(w, a); }
    if w.phase == Ending { EndingFinishedIs(w, a); }
  }

  lemma PeriodsEndedIs(w: World, a: Key)
    requires a in w.memory
    ensures a in PeriodsEnded(w).memory && SameTallies(w, PeriodsEnded(w), a)
  {
    hide Acknowledged, Successors;
  }

  lemma EndingFinishedIs(w: World, a: Key)
    requires a in w.memory && At(w.ending, a) == 0
    ensures EndingFinished(w).phase == Idle && a in EndingFinished(w).memory && SameTallies(w, EndingFinished(w), a)
  {
  }

  ghost function OpenOf(chain: Chain, a: Key): Key
    requires exists k :: OpenFor(chain, a, k)
  {
    var k :| OpenFor(chain, a, k);
    k
  }

  /** What a read of a chain with one open record an agreement gives. */
  ghost function ReadAll(chain: Chain): map<Key, Key> {
    map a | a in (set k | k in chain && chain[k].record.state == Open :: chain[k].record.agreement)
            && (exists k :: OpenFor(chain, a, k)) :: OpenOf(chain, a)
  }

  lemma ReadAllReads(chain: Chain)
    requires AtMostOne(chain)
    ensures ReadOf(chain, ReadAll(chain))
  {
    forall k | k in chain && chain[k].record.state == Open ensures chain[k].record.agreement in ReadAll(chain) {
      assert OpenFor(chain, chain[k].record.agreement, k);
    }
    forall a | a in ReadAll(chain) ensures IsOldest(chain, a, ReadAll(chain)[a]) {
      assert OpenFor(chain, a, OpenOf(chain, a));
    }
  }

  /** A reconcile, and memory shows what it read. */
  lemma Reread(w: World, a: Key) returns (after: World)
    requires Inv(w) && Single(w) && w.phase == Idle && a in w.memory
    ensures Leads(w, after) && after.phase == Idle && a in after.memory && SameTallies(w, after, a)
    ensures after.chain == w.chain && InStep(after.chain, ReadAll(after.chain), after.memory)
  {
    var open := ReadAll(w.chain);
    ReadAllReads(w.chain);
    Still(w);
    ReconcileSingle(w, open);
    hide Inv, Single, Hidden, Leads, ReadOf, ReadAll;
    Reconciling(w, w, open);
    after := ReconciledWorld(w, open);
    ReconciledInStep(w.chain, open, w.memory);
  }

  lemma ReconciledInStep(chain: Chain, open: map<Key, Key>, memory: Memory)
    ensures InStep(chain, open, Reconciled(chain, open, memory))
  {
    forall a | a in memory
      ensures Reconciled(chain, open, memory)[a] == Matched(chain, open, a, Forgotten(chain, open, a, memory[a])) {}
  }

  lemma {:induction false} Above(keys: set<Key>) returns (bound: Key)
    ensures forall k :: k in keys ==> k < bound
    decreases keys
  {
    if keys == {} {
      bound := 0;
    } else {
      var k :| k in keys;
      var rest := keys - {k};
      bound := Above(rest);
      bound := if k < bound then bound else k + 1;
      assert forall other :: other in keys ==> other == k || other in rest;
    }
  }

  /** A flush whose only write to land is the successor of `a`. */
  function OpenedBy(w: World, open: map<Key, Key>, a: Key, k: Key): World
    requires a in CountSent(w, open, false).orders.creates
  {
    PeriodsEnded(CreateLanded(CountSent(w, open, false), a, k, 0, false)).(phase := Idle, orders := NO_ORDERS)
  }

  lemma OpenedLeads(w: World, open: map<Key, Key>, a: Key, k: Key)
    requires w.phase == Idle && ReadOf(w.chain, open) && InStep(w.chain, open, w.memory)
    requires a in CountSent(w, open, false).orders.creates && k !in w.issued
    ensures Leads(w, OpenedBy(w, open, a, k))
  {
    hide Leads, ReadOf, InStep, CountOrders, ClosingsOf;
    Still(w);
    SendingCounts(w, w, open);
    var sent := CountSent(w, open, false);
    Opening(w, sent, a, k, 0);
    hide PeriodsEnded;
    Flushed(w, CreateLanded(sent, a, k, 0, false));
  }

  lemma OpenedIs(w: World, open: map<Key, Key>, a: Key, k: Key)
    requires a in w.memory && a !in open
    ensures a in CountSent(w, open, false).orders.creates
    ensures var after := OpenedBy(w, open, a, k);
            after.phase == Idle && a in after.memory && SameTallies(w, after, a) && OpenFor(after.chain, a, k)
  {
    var sent := CountSent(w, open, false);
    assert sent.orders.creates[a] == FreshRecord(a, w.memory[a].terms, w.head);
    hide CountOrders, ClosingsOf, Acknowledged, Successors;
  }

  lemma OpenOne(w: World, a: Key) returns (after: World)
    requires w.phase == Idle && a in w.memory && a !in ReadAll(w.chain) && AtMostOne(w.chain)
    requires InStep(w.chain, ReadAll(w.chain), w.memory)
    ensures Leads(w, after) && after.phase == Idle && a in after.memory && SameTallies(w, after, a)
    ensures exists k :: OpenFor(after.chain, a, k)
  {
    var open := ReadAll(w.chain);
    ReadAllReads(w.chain);
    var k := Above(w.issued);
    hide Leads, ReadOf, InStep, ReadAll, AtMostOne, CountSent, SameTallies, OpenedBy;
    OpenedIs(w, open, a, k);
    OpenedLeads(w, open, a, k);
    after := OpenedBy(w, open, a, k);
  }

  lemma InStepHolds(chain: Chain, open: map<Key, Key>, memory: Memory, a: Key)
    requires InStep(chain, open, memory) && a in memory && a in open && open[a] in chain
    ensures HoldsRecord(memory, a, open[a])
  {
  }

  /** A flush once the period is over, whose only write to land closes the record of `a`, unanswered. */
  function ClosedBy(w: World, open: map<Key, Key>, k: Key): World
    requires Lands(CountSent(w, open, false), k)
  {
    PatchLanded(CountSent(w, open, false), k, false)
  }

  lemma ClosedIs(w: World, open: map<Key, Key>, a: Key)
    requires w.phase == Idle && a in w.memory && a in open && OpenFor(w.chain, a, open[a])
    requires w.memory[a].served > 0 && HoldsRecord(w.memory, a, open[a])
    requires w.head >= w.chain[open[a]].record.openedBlock + w.period
    ensures Lands(CountSent(w, open, false), open[a])
    ensures SameTallies(w, ClosedBy(w, open, open[a]), a) && Carried(ClosedBy(w, open, open[a]), a) == 0
  {
    var k := open[a];
    var sent := CountSent(w, open, false);
    assert PatchFor(w, open, false, k) == Some(ClosedWith(w.chain[k].record, w.memory[a].served, w.head));
    assert sent.orders.patches[k] == ClosedWith(w.chain[k].record, w.memory[a].served, w.head);
    hide CountOrders, ClosingsOf, PatchFor, OpenCount;
    var after := PatchLanded(sent, k, false);
    assert after.chain[k].record.count == w.memory[a].served && ClosedOn(after.chain, k);
  }

  lemma ClosedLeads(w: World, open: map<Key, Key>, k: Key)
    requires w.phase == Idle && ReadOf(w.chain, open) && InStep(w.chain, open, w.memory)
    requires Lands(CountSent(w, open, false), k)
    ensures Leads(w, ClosedBy(w, open, k))
  {
    hide Leads, ReadOf, InStep, CountOrders, ClosingsOf;
    Still(w);
    SendingCounts(w, w, open);
    var sent := CountSent(w, open, false);
    hide CountSent;
    Landing(w, sent, k, false);
  }

  lemma CloseOne(w: World, a: Key) returns (after: World)
    requires w.phase == Idle && a in w.memory && a in ReadAll(w.chain) && AtMostOne(w.chain)
    requires InStep(w.chain, ReadAll(w.chain), w.memory) && w.memory[a].served > 0
    ensures Leads(w, after) && SameTallies(w, after, a) && Carried(after, a) == 0
  {
    var open := ReadAll(w.chain);
    ReadAllReads(w.chain);
    assert IsOldest(w.chain, a, open[a]);
    InStepHolds(w.chain, open, w.memory, a);
    var n := w.chain[open[a]].record.openedBlock + w.period;
    var later := w.(head := w.head + n);
    hide Leads, ReadOf, InStep, ReadAll, AtMostOne, IsOldest, CountSent, ClosedBy, Carried, HoldsRecord;
    Still(w);
    Waiting(w, w, n);
    ClosedIs(later, open, a);
    ClosedLeads(later, open, open[a]);
    after := ClosedBy(later, open, open[a]);
    LeadsOn(w, later, after);
  }

  lemma OpenIsRead(chain: Chain, a: Key)
    requires exists k :: OpenFor(chain, a, k)
    ensures a in ReadAll(chain)
  {
    var k :| OpenFor(chain, a, k);
    assert chain[k].record.agreement == a;
  }

  /** An entry at zero that counts into the record on the chain has nothing to carry. */
  lemma NothingCarried(w: World, a: Key)
    requires Shape(w) && a in w.memory && a in ReadAll(w.chain) && AtMostOne(w.chain) && w.memory[a].served == 0
    requires InStep(w.chain, ReadAll(w.chain), w.memory)
    ensures Carried(w, a) == 0
  {
    ReadAllReads(w.chain);
    assert IsOldest(w.chain, a, ReadAll(w.chain)[a]);
    AtRiskIs(w, a);
    assert CounterSound(w.chain, w.issued, a, w.memory[a].served, w.memory[a].counter.value);
    OpenCountZero(w.chain, a);
  }

  /** From any sound state some run, in which nothing more is served, lost or doubled of the agreement, has closed
      records carry all of it: what was served and billed again, less what is lost. */
  lemma AllCanBeBilled(w: World, a: Key) returns (after: World)
    requires Inv(w) && Single(w) && a in w.memory
    ensures Leads(w, after) && SameTallies(w, after, a)
    ensures Billed(after.ledger, a) == At(w.requests, a) + At(w.doubled, a) - At(w.lost, a)
  {
    hide Inv, Single, Leads, Billed;
    InvPhase(w);
    ToIdle(w);
    QuietedIs(w, a);
    var idle := Quieted(w);
    hide Quieted, SameTallies;
    LeadsSound(w, idle);
    var read := Reread(idle, a);
    LeadsOn(w, idle, read);
    LeadsSound(w, read);
    after := BilledFrom(read, a);
    LeadsOn(w, read, after);
  }

  lemma BilledFrom(w: World, a: Key) returns (after: World)
    requires Inv(w) && Single(w) && a in w.memory && w.phase == Idle && InStep(w.chain, ReadAll(w.chain), w.memory)
    ensures Leads(w, after) && SameTallies(w, after, a)
    ensures Billed(after.ledger, a) == At(w.requests, a) + At(w.doubled, a) - At(w.lost, a)
  {
    after := w;
    Still(w);
    if a !in ReadAll(w.chain) {
      var started := OpenOne(w, a);
      hide Inv, Single, Leads, Billed, Carried;
      LeadsSound(w, started);
      after := Reread(started, a);
      LeadsOn(w, started, after);
      OpenIsRead(after.chain, a);
    }
    hide Inv, Single, Leads, Billed, Carried;
    LeadsSound(w, after);
    if after.memory[a].served == 0 {
      NothingCarried(after, a);
    } else {
      var closed := CloseOne(after, a);
      LeadsOn(w, after, closed);
      after := closed;
    }
    LeadsSound(w, after);
    InvConserves(after, a);
  }

  /* ---------- more billed than served ---------- */

  /** Some run, in which nothing more is served, lost or doubled of the agreement, has closed records carry more
      than was served. */
  ghost predicate CanOverbill(w: World, a: Key) {
    exists after :: Leads(w, after) && SameTallies(w, after, a) && Billed(after.ledger, a) > At(after.requests, a)
  }

  /** What is billed can come to more than what was served exactly when more is billed again than is lost. */
  lemma OverbillsExactlyWhen(w: World, a: Key)
    requires Reachable(w) && a in w.memory
    ensures CanOverbill(w, a) <==> At(w.doubled, a) > At(w.lost, a)
  {
    ReachableSound(w);
    hide Inv, Single, Leads, Billed;
    if after :| Leads(w, after) && SameTallies(w, after, a) && Billed(after.ledger, a) > At(after.requests, a) {
      LeadsSound(w, after);
      InvConserves(after, a);
    }
    if At(w.doubled, a) > At(w.lost, a) {
      var after := AllCanBeBilled(w, a);
    }
  }

  /** So a close that is forgotten, with nothing lost before, can be billed twice. */
  lemma ForgottenCloseOverbills(w: World, k: Key)
    requires Reachable(w) && ForgetsAClose(w, Expire(k)) && Enabled(w, Expire(k))
    requires At(w.lost, w.chain[k].record.agreement) == 0
    ensures CanOverbill(Expired(w, k), w.chain[k].record.agreement)
  {
    var a := w.chain[k].record.agreement;
    ReachableSound(w);
    assert At(w.doubled, a) >= 0 by { InvConserves(w, a); }
    Still(w);
    Onward(w, w, Expire(k));
    hide Inv, Single, Leads, Reachable, CanOverbill;
    ReachableOn(w, Expired(w, k));
    OverbillsExactlyWhen(Expired(w, k), a);
  }
}

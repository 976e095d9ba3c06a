/** Runs that show each condition of the counter theorems is needed. */
module CounterExamples {
  import opened Basics
  import opened CounterRecords
  import opened CounterProtocol
  import opened CounterInvariant
  import opened CounterTheorems
  import opened CounterBilling

  const TERMS := Terms(7, 5)

  lemma AcceptingOne(start: World, w: World, a: Key, terms: Terms, k: Key, life: nat)
    requires Leads(start, w) && w.phase == Idle && a !in w.issued && a !in w.terms && k !in w.issued && k != a
    ensures Leads(start, CreateLanded(Accepted(w, a, terms), a, k, life, true).(phase := Idle, orders := NO_ORDERS))
  {
    Onward(start, w, Accept(a, terms));
    Onward(start, Accepted(w, a, terms), LandCreate(a, k, life, true));
    Onward(start, CreateLanded(Accepted(w, a, terms), a, k, life, true), FinishAccept);
  }

  lemma Serving(start: World, w: World, a: Key)
    requires Leads(start, w)
    ensures Leads(start, Served(w, a))
  {
    Onward(start, w, Serve(a));
  }

  function OpenAt(block: nat): CounterRecord { CounterRecord(1, 7, Open, 0, 5, block, None) }

  function ClosedAt(count: nat, start: nat, block: nat): CounterRecord {
    CounterRecord(1, 7, Closed, count, 5, start, Some(block))
  }

  /** One agreement in the world, with one record; nothing is out. */
  function Quiet(head: nat, record: CounterRecord, served: nat, ledger: map<Key, CounterRecord>): World {
    World(1, head, map[10 := Stored(0, 2, record)], map[1 := Live(TERMS, served, Some(OpenCounter(10, 0)))],
          Idle, NO_ORDERS, if record.state == Open then 0 else 1, map[], {}, map[], {1, 10}, map[1 := TERMS], ledger, map[1 := served], map[1 := 0], map[])
  }

  /** An accepted agreement that has served one forward, one block into its first period. */
  lemma ServedOne()
    ensures Leads(Genesis(1, 0), Quiet(1, OpenAt(0), 1, map[]))
  {
    var start := Genesis(1, 0);
    Still(start);
    AcceptingOne(start, start, 1, TERMS, 10, 2);
    var w := CreateLanded(Accepted(start, 1, TERMS), 1, 10, 2, true).(phase := Idle, orders := NO_ORDERS);
    Serving(start, w, 1);
    Waiting(start, Served(w, 1), 1);
    ServedOneIs();
  }

  lemma ServedOneIs()
    ensures var w := CreateLanded(Accepted(Genesis(1, 0), 1, TERMS), 1, 10, 2, true).(phase := Idle, orders := NO_ORDERS);
            Served(w, 1).(head := 1) == Quiet(1, OpenAt(0), 1, map[])
  {
    var w := CreateLanded(Accepted(Genesis(1, 0), 1, TERMS), 1, 10, 2, true).(phase := Idle, orders := NO_ORDERS);
    assert w.chain == map[10 := Stored(0, 2, OpenAt(0))];
    assert w.memory == map[1 := Live(TERMS, 0, Some(OpenCounter(10, 0)))];
    assert Served(w, 1).memory == map[1 := Live(TERMS, 1, Some(OpenCounter(10, 0)))];
    assert w.issued == {1, 10};
  }

  const READ: map<Key, Key> := map[1 := 10]

  lemma CloseSent()
    ensures var w := Quiet(1, OpenAt(0), 1, map[]);
            && ReadOf(w.chain, READ) && InStep(w.chain, READ, w.memory)
            && CountSent(w, READ, false).orders == Orders(map[10 := ClosedAt(1, 0, 1)], {}, map[])
            && CountSent(w, READ, false).closing == map[1 := Closing(10, 1)]
  {
    var w := Quiet(1, OpenAt(0), 1, map[]);
    assert OpenFor(w.chain, 1, 10);
    assert IsOldest(w.chain, 1, 10);
  }

  lemma CloseLanded(w: World)
    requires w == Quiet(1, OpenAt(0), 1, map[]).(phase := Counting, flushHead := 1, closing := map[1 := Closing(10, 1)],
                    orders := Orders(map[10 := ClosedAt(1, 0, 1)], {}, map[]))
    ensures Lands(w, 10)
    ensures PeriodsEnded(PatchLanded(w, 10, false)).(phase := Idle, orders := NO_ORDERS)
         == Quiet(1, ClosedAt(1, 0, 1), 1, map[10 := ClosedAt(1, 0, 1)])
  {
    var landed := PatchLanded(w, 10, false);
    assert landed.chain == map[10 := Stored(0, 2, ClosedAt(1, 0, 1))];
    assert landed.ledger == map[10 := ClosedAt(1, 0, 1)];
    assert landed.ending == map[];
    assert PeriodsEnded(landed).memory == w.memory;
  }

  /** Its close lands and the answer is lost: the chain has the period, and so does memory. */
  lemma ClosedUnanswered()
    ensures Leads(Genesis(1, 0), Quiet(1, ClosedAt(1, 0, 1), 1, map[10 := ClosedAt(1, 0, 1)]))
  {
    var start := Genesis(1, 0);
    ServedOne();
    CloseSent();
    var sent := CountSent(Quiet(1, OpenAt(0), 1, map[]), READ, false);
    SendingCounts(start, Quiet(1, OpenAt(0), 1, map[]), READ);
    CloseLanded(sent);
    Landing(start, sent, 10, false);
    Flushed(start, PatchLanded(sent, 10, false));
  }

  lemma ExpiredUnseen(w: World)
    requires w == Quiet(2, ClosedAt(1, 0, 1), 1, map[10 := ClosedAt(1, 0, 1)])
    ensures Enabled(w, Expire(10)) && ForgetsAClose(w, Expire(10))
    ensures At(Expired(w, 10).doubled, 1) == 1 && At(Expired(w, 10).lost, 1) == 0
  {
  }

  lemma Expiring(start: World, w: World, k: Key)
    requires Leads(start, w) && k in w.chain && w.chain[k].expiresAt <= w.head
    ensures Leads(start, Expired(w, k))
  {
    Onward(start, w, Expire(k));
  }

  lemma ClosedTwoBlocksIn() returns (w: World)
    ensures Leads(Genesis(1, 0), w) && w == Quiet(2, ClosedAt(1, 0, 1), 1, map[10 := ClosedAt(1, 0, 1)])
  {
    ClosedUnanswered();
    w := Quiet(1, ClosedAt(1, 0, 1), 1, map[10 := ClosedAt(1, 0, 1)]);
    Waiting(Genesis(1, 0), w, 1);
    w := w.(head := 2);
  }

  lemma ReachableFrom(period: nat, head: nat, w: World)
    requires Leads(Genesis(period, head), w)
    ensures Reachable(w)
  {
  }

  lemma ExpiredReachable() returns (after: World)
    ensures Reachable(after) && 1 in after.memory
    ensures At(after.requests, 1) == 1 && At(after.doubled, 1) == 1 && At(after.lost, 1) == 0
  {
    var w := ClosedTwoBlocksIn();
    ExpiredUnseen(w);
    Expiring(Genesis(1, 0), w, 10);
    after := Expired(w, 10);
    ReachableFrom(1, 0, after);
  }

  /** One forward served, and two billed for it: the condition of `BilledOnce` cannot be dropped. */
  lemma BilledTwice()
    ensures exists w :: Reachable(w) && At(w.requests, 1) == 1 && Billed(w.ledger, 1) == 2
  {
    var expired := ExpiredReachable();
    hide Inv, Single, Reachable, Leads;
    ReachableSound(expired);
    var after := AllCanBeBilled(expired, 1);
    ReachableOn(expired, after);
  }

  const LAST_WRITE := Orders(map[10 := ClosedAt(2, 0, 1)], {}, map[])

  lemma EndedUnanswered(w: World)
    requires w == Quiet(1, ClosedAt(1, 0, 1), 1, map[10 := ClosedAt(1, 0, 1)])
    ensures FinalOrders(Served(w, 1).memory, {1}, 1, LAST_WRITE)
    ensures Lands(Ended(Served(w, 1), {1}, LAST_WRITE), 10)
    ensures PatchLanded(Ended(Served(w, 1), {1}, LAST_WRITE), 10, true).ledger[10].count == 2
  {
    assert EndedWith(Served(w, 1).memory, {1}, 1, 10);
  }

  /** A record closed at one forward is changed to two by the last write of its agreement: closed does not
      mean final while the close is unanswered. */
  lemma ClosedThenChanged()
    ensures exists w :: Reachable(w) && Reclosed(w, LandPatch(10, true)) && Lands(w, 10) && 10 in w.ledger
              && w.ledger[10].count == 1 && PatchLanded(w, 10, true).ledger[10].count == 2
  {
    var start := Genesis(1, 0);
    ClosedUnanswered();
    var w := Quiet(1, ClosedAt(1, 0, 1), 1, map[10 := ClosedAt(1, 0, 1)]);
    EndedUnanswered(w);
    Serving(start, w, 1);
    Onward(start, Served(w, 1), EndAgreements({1}, LAST_WRITE));
    var ended := Ended(Served(w, 1), {1}, LAST_WRITE);
    assert Reachable(ended);
    assert Reclosed(ended, LandPatch(10, true));
  }

  /** Two open records, the younger at zero: what the rest of the proof allows, and no run leads to. */
  function TwoOpen(): World {
    World(1, 1, map[10 := Stored(0, 50, OpenAt(0)), 11 := Stored(1, 50, OpenAt(1))],
          map[1 := Live(TERMS, 1, Some(OpenCounter(10, 0)))], Idle, NO_ORDERS, 0, map[], {}, map[], {1, 10, 11},
          map[1 := TERMS], map[], map[1 := 1], map[], map[])
  }

  lemma TwoOpenShape()
    ensures Shape(TwoOpen())
  {
    var w := TwoOpen();
    assert forall a, k :: OpenFor(w.chain, a, k) <==> a == 1 && (k == 10 || k == 11);
    assert IsOldest(w.chain, 1, 10);
    assert OthersZero(w.chain, 1, 10);
    NoOrdersSound(w);
  }

  lemma TwoOpenTallies()
    ensures Tallies(TwoOpen())
  {
    var w := TwoOpen();
    forall a ensures Balanced(w, a) { OpenCountZero(w.chain, a); }
  }

  lemma TwoOpenSent()
    ensures var w := TwoOpen();
            && ReadOf(w.chain, READ) && InStep(w.chain, READ, w.memory)
            && CountSent(w, READ, false).orders == Orders(map[10 := ClosedAt(1, 0, 1)], {11}, map[])
            && CountSent(w, READ, false).closing == map[1 := Closing(10, 1)]
  {
    var w := TwoOpen();
    assert forall a, k :: OpenFor(w.chain, a, k) <==> a == 1 && (k == 10 || k == 11);
    assert IsOldest(w.chain, 1, 10);
  }

  function HalfLanded(): World {
    PatchLanded(TwoOpen().(phase := Counting, flushHead := 1, closing := map[1 := Closing(10, 1)],
                           orders := Orders(map[10 := ClosedAt(1, 0, 1)], {11}, map[])), 10, false)
  }

  lemma HalfLandedReads()
    ensures var w := PeriodsEnded(HalfLanded()).(phase := Idle, orders := NO_ORDERS);
            && ReadOf(w.chain, map[1 := 11])
            && At(ReconciledWorld(w, map[1 := 11]).doubled, 1) == 1
  {
    var w := PeriodsEnded(HalfLanded()).(phase := Idle, orders := NO_ORDERS);
    assert w.chain == map[10 := Stored(0, 50, ClosedAt(1, 0, 1)), 11 := Stored(1, 50, OpenAt(1))];
    assert w.memory == TwoOpen().memory;
    assert forall a, k :: OpenFor(w.chain, a, k) <==> a == 1 && k == 11;
    assert IsOldest(w.chain, 1, 11);
  }

  lemma TwoOpenHalfLanded()
    ensures Leads(TwoOpen(), PeriodsEnded(HalfLanded()).(phase := Idle, orders := NO_ORDERS))
  {
    var start := TwoOpen();
    Still(start);
    TwoOpenSent();
    SendingCounts(start, start, READ);
    Landing(start, CountSent(start, READ, false), 10, false);
    Flushed(start, HalfLanded());
  }

  lemma TwoOpenSound()
    ensures Inv(TwoOpen())
  {
    TwoOpenShape();
    TwoOpenTallies();
  }

  lemma TwoAreOpen()
    ensures !AtMostOne(TwoOpen().chain)
  {
    assert OpenFor(TwoOpen().chain, 1, 10) && OpenFor(TwoOpen().chain, 1, 11);
  }

  /** From two open records a flush sent in parts bills a forward again: the close lands unanswered, the
      delete of the younger record does not, and the younger hides that the older one closed. */
  lemma SplitBatchHides()
    ensures Inv(TwoOpen()) && !AtMostOne(TwoOpen().chain)
    ensures exists w :: Leads(TwoOpen(), w) && At(w.doubled, 1) == 1
  {
    TwoOpenSound();
    TwoAreOpen();
    hide Inv;
    var w := PeriodsEnded(HalfLanded()).(phase := Idle, orders := NO_ORDERS);
    TwoOpenHalfLanded();
    HalfLandedReads();
    Reconciling(TwoOpen(), w, map[1 := 11]);
  }
}

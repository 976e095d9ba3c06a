/** What every step of the counter protocol keeps. */
module CounterInvariant {
  import opened Basics
  import opened CounterRecords
  import opened CounterProtocol

  /* ---------- the invariant ---------- */

  /** A record names a known agreement and carries that agreement's own terms. */
  predicate OnTerms(terms: map<Key, Terms>, record: CounterRecord) {
    && record.agreement in terms
    && record.provider == terms[record.agreement].provider
    && record.weiPerCall == terms[record.agreement].rate
  }

  ghost predicate ChainSound(chain: Chain, issued: set<Key>, terms: map<Key, Terms>, ledger: map<Key, CounterRecord>) {
    forall k :: k in chain ==>
      && k in issued && OnTerms(terms, chain[k].record)
      && (chain[k].record.state == Closed ==> k in ledger && ledger[k] == chain[k].record)
      && (chain[k].record.state == Open ==> k !in ledger)
  }

  ghost predicate LedgerSound(issued: set<Key>, terms: map<Key, Terms>, ledger: map<Key, CounterRecord>) {
    forall k :: k in ledger ==>
      k in issued && OnTerms(terms, ledger[k]) && ledger[k].state == Closed && ledger[k].count > 0
  }

  /** Of an agreement's open records only the oldest can carry a count. */
  ghost predicate YoungerZero(chain: Chain) {
    forall a, k, other :: OpenFor(chain, a, k) && OpenFor(chain, a, other) && Before(chain, k, other)
      ==> chain[other].record.count == 0
  }

  ghost predicate OthersZero(chain: Chain, a: Key, k: Key) {
    forall other :: OpenFor(chain, a, other) && other != k ==> chain[other].record.count == 0
  }

  ghost predicate CounterSound(chain: Chain, issued: set<Key>, a: Key, served: nat, counter: OpenCounter) {
    && counter.key in issued
    && (counter.key in chain ==>
         && chain[counter.key].record.agreement == a
         && chain[counter.key].record.openedBlock == counter.openedBlock
         && chain[counter.key].record.count <= served
         && (chain[counter.key].record.state == Open ==> IsOldest(chain, a, counter.key)))
    && OthersZero(chain, a, counter.key)
  }

  ghost predicate MemorySound(chain: Chain, issued: set<Key>, terms: map<Key, Terms>, memory: Memory) {
    forall a :: a in memory ==>
      && a in terms && memory[a].terms == terms[a]
      && (memory[a].counter.Some? ==> CounterSound(chain, issued, a, memory[a].served, memory[a].counter.value))
  }

  ghost predicate ClosingSound(chain: Chain, memory: Memory, closing: Closings, patched: set<Key>) {
    forall a :: a in closing ==>
      var close := closing[a];
      && HoldsRecord(memory, a, close.counter)
      && 0 < close.count <= memory[a].served
      && (ClosedOn(chain, close.counter) ==> chain[close.counter].record.count == close.count)
      && (close.counter in patched && close.counter in chain ==> ClosedOn(chain, close.counter))
  }

  /** A patch changes the count of the record it is for, and may close it. */
  predicate Rewrites(record: CounterRecord, meant: CounterRecord) {
    && meant.agreement == record.agreement && meant.provider == record.provider
    && meant.weiPerCall == record.weiPerCall && meant.openedBlock == record.openedBlock
    && (meant.state == Closed ==> meant.count > 0)
  }

  /** A flush's patches still out: a copy of the entry's count, a close with it, or a stray closed as it is. */
  ghost predicate CountPatches(chain: Chain, memory: Memory, closing: Closings, patches: map<Key, CounterRecord>) {
    forall k :: k in patches && k in chain ==>
      var meant, record := patches[k], chain[k].record;
      var a := record.agreement;
      && Rewrites(record, meant) && record.state == Open
      && (a in memory ==>
           && HoldsRecord(memory, a, k) && meant.count <= memory[a].served
           && (meant.state == Closed ==> a in closing && closing[a] == Closing(k, meant.count))
           && (meant.state == Open ==> a !in closing))
      && (a !in memory ==> meant.state == Closed && meant.count == record.count)
  }

  /** The patches of ended agreements still out: closed with everything served. */
  ghost predicate FinalPatches(chain: Chain, ending: map<Key, int>, patches: map<Key, CounterRecord>) {
    forall k :: k in patches && k in chain ==>
      var meant, record := patches[k], chain[k].record;
      && Rewrites(record, meant) && meant.state == Closed
      && record.agreement in ending && meant.count == ending[record.agreement] + record.count
      && OthersZero(chain, record.agreement, k)
      && (forall other :: other in patches && other in chain && other != k ==>
           chain[other].record.agreement != record.agreement)
  }

  ghost predicate DeletesSound(chain: Chain, orders: Orders) {
    forall k :: k in orders.deletes && k in chain ==>
      k !in orders.patches && chain[k].record.state == Open && chain[k].record.count == 0
  }

  ghost predicate CreatesSound(chain: Chain, terms: map<Key, Terms>, memory: Memory, creates: map<Key, CounterRecord>) {
    forall a :: a in creates ==>
      && a in memory && memory[a].counter.None? && OnTerms(terms, creates[a])
      && creates[a].agreement == a && creates[a].state == Open && creates[a].count == 0
      && (forall k :: OpenFor(chain, a, k) ==> chain[k].record.count == 0)
  }

  ghost predicate OrdersSound(w: World) {
    && (w.phase != Ending ==> CountPatches(w.chain, w.memory, w.closing, w.orders.patches))
    && (w.phase == Ending ==> FinalPatches(w.chain, w.ending, w.orders.patches))
    && DeletesSound(w.chain, w.orders)
    && CreatesSound(w.chain, w.terms, w.memory, w.orders.creates)
    && w.orders.patches.Keys + w.orders.deletes <= w.issued
    && (w.phase == Accepting ==> forall a, k :: a in w.orders.creates ==> !OpenFor(w.chain, a, k))
  }

  ghost predicate PhaseSound(w: World) {
    && (w.phase != Counting ==> w.closing == map[] && w.patched == {})
    && (w.phase != Ending ==> w.ending == map[])
    && (w.phase == Idle ==> w.orders == NO_ORDERS)
    && (w.phase == Ending ==> w.orders.creates == map[])
    && (w.phase == Accepting || w.phase == Following ==> w.orders.patches == map[] && w.orders.deletes == {})
    && w.memory.Keys !! w.ending.Keys
  }

  ghost predicate NonNegative(tally: map<Key, int>) {
    forall a: Key :: At(tally, a) >= 0
  }

  /** Conservation: every forward of `a` is in a closed record, still to be billed, or lost, and is there
      once, but for the ones counted as doubled. */
  ghost predicate Balanced(w: World, a: Key) {
    Billed(w.ledger, a) + Carried(w, a) + At(w.lost, a) == At(w.requests, a) + At(w.doubled, a)
  }

  ghost predicate Shape(w: World) {
    && ChainSound(w.chain, w.issued, w.terms, w.ledger)
    && LedgerSound(w.issued, w.terms, w.ledger)
    && YoungerZero(w.chain)
    && MemorySound(w.chain, w.issued, w.terms, w.memory)
    && ClosingSound(w.chain, w.memory, w.closing, w.patched)
    && OrdersSound(w)
    && PhaseSound(w)
  }

  ghost predicate Tallies(w: World) {
    && NonNegative(w.ending) && NonNegative(w.lost) && NonNegative(w.doubled)
    && forall a :: Balanced(w, a)
  }

  ghost predicate Inv(w: World) {
    Shape(w) && Tallies(w)
  }

  /* ---------- counts on the chain ---------- */

  lemma CarryingUnique(chain: Chain, a: Key, k: Key, other: Key)
    requires YoungerZero(chain)
    requires Carrying(chain, a, k) && Carrying(chain, a, other)
    ensures k == other
  {
    var order := Before(chain, k, other) || Before(chain, other, k);
  }

  lemma OpenCountIs(chain: Chain, a: Key, k: Key)
    requires YoungerZero(chain)
    requires OpenFor(chain, a, k)
    requires forall other :: OpenFor(chain, a, other) && other != k ==> chain[other].record.count == 0
    ensures OpenCount(chain, a) == chain[k].record.count
  {
    if chain[k].record.count > 0 {
      assert Carrying(chain, a, k);
    } else {
      assert forall other :: !Carrying(chain, a, other);
    }
  }

  lemma OpenCountZero(chain: Chain, a: Key)
    requires forall k :: OpenFor(chain, a, k) ==> chain[k].record.count == 0
    ensures OpenCount(chain, a) == 0
  {
    assert forall k :: !Carrying(chain, a, k);
  }

  lemma OpenCountSame(chain: Chain, after: Chain, a: Key)
    requires YoungerZero(chain) && YoungerZero(after)
    requires forall k :: Carrying(chain, a, k) <==> Carrying(after, a, k)
    requires forall k :: Carrying(chain, a, k) && k in after ==> chain[k].record.count == after[k].record.count
    ensures OpenCount(chain, a) == OpenCount(after, a)
  {
    if k :| Carrying(chain, a, k) {
      assert Carrying(after, a, k);
      forall other | Carrying(chain, a, other) ensures other == k { CarryingUnique(chain, a, k, other); }
      forall other | Carrying(after, a, other) ensures other == k { CarryingUnique(after, a, k, other); }
    } else {
      assert forall k :: !Carrying(after, a, k);
    }
  }

  lemma OldestCarries(chain: Chain, a: Key, k: Key)
    requires YoungerZero(chain) && IsOldest(chain, a, k)
    ensures OpenCount(chain, a) == chain[k].record.count
  {
    forall other | OpenFor(chain, a, other) && other != k ensures chain[other].record.count == 0 {
      assert Before(chain, k, other);
    }
    OpenCountIs(chain, a, k);
  }

  lemma OpenCountNonNegative(chain: Chain, a: Key)
    ensures OpenCount(chain, a) >= 0
  {
  }

  /* ---------- the ledger's sums ---------- */

  lemma {:induction false} BilledWithout(ledger: map<Key, CounterRecord>, a: Key, k: Key)
    requires k in ledger
    ensures Billed(ledger, a) == Share(ledger[k], a) + Billed(ledger - {k}, a)
    decreases |ledger|
  {
    var picked :| picked in ledger && Billed(ledger, a) == Share(ledger[picked], a) + Billed(ledger - {picked}, a);
    if picked != k {
      assert |ledger - {picked}| < |ledger| && |ledger - {k}| < |ledger| by {
        assert (ledger - {picked}).Keys == ledger.Keys - {picked};
        assert (ledger - {k}).Keys == ledger.Keys - {k};
      }
      BilledWithout(ledger - {picked}, a, k);
      BilledWithout(ledger - {k}, a, picked);
      assert ledger - {picked} - {k} == ledger - {k} - {picked};
    }
  }

  lemma BilledAfter(ledger: map<Key, CounterRecord>, a: Key, k: Key, record: CounterRecord)
    ensures Billed(ledger[k := record], a)
         == Billed(ledger, a) + Share(record, a) - (if k in ledger then Share(ledger[k], a) else 0)
  {
    BilledWithout(ledger[k := record], a, k);
    if k in ledger {
      BilledWithout(ledger, a, k);
      assert ledger[k := record] - {k} == ledger - {k};
    } else {
      assert ledger[k := record] - {k} == ledger;
    }
  }

  /* ---------- one lemma a step ---------- */

  /** The orders that stand on memory, read off the parts of a world. */
  ghost predicate StandsOn(chain: Chain, issued: set<Key>, terms: map<Key, Terms>, closing: Closings,
                           patched: set<Key>, orders: Orders, memory: Memory) {
    && MemorySound(chain, issued, terms, memory)
    && ClosingSound(chain, memory, closing, patched)
    && CreatesSound(chain, terms, memory, orders.creates)
  }

  lemma MoreServedStands(chain: Chain, issued: set<Key>, terms: map<Key, Terms>, closing: Closings,
                         patched: set<Key>, orders: Orders, memory: Memory, a: Key)
    requires StandsOn(chain, issued, terms, closing, patched, orders, memory)
    ensures StandsOn(chain, issued, terms, closing, patched, orders, WithOneMore(memory, a))
    ensures CountPatches(chain, memory, closing, orders.patches)
        ==> CountPatches(chain, WithOneMore(memory, a), closing, orders.patches)
  {
  }

  lemma ServeBalances(w: World, a: Key, b: Key)
    requires Balanced(w, b)
    ensures Balanced(Served(w, a), b)
  {
    var after := Served(w, a);
    assert At(after.requests, b) == At(w.requests, b) + if b == a then 1 else 0;
    assert b in after.memory <==> b in w.memory;
  }

  lemma ServeShape(w: World, a: Key)
    requires Shape(w)
    ensures Shape(Served(w, a))
  {
    MoreServedStands(w.chain, w.issued, w.terms, w.closing, w.patched, w.orders, w.memory, a);
    ServePhase(w, a);
  }

  lemma ServePhase(w: World, a: Key)
    requires PhaseSound(w)
    ensures PhaseSound(Served(w, a))
  {
    assert WithOneMore(w.memory, a).Keys == w.memory.Keys;
  }

  lemma ServeTallies(w: World, a: Key)
    requires Tallies(w)
    ensures Tallies(Served(w, a))
  {
    forall b ensures Balanced(Served(w, a), b) { ServeBalances(w, a, b); }
  }

  lemma BlocksKeep(w: World, n: nat)
    requires Inv(w)
    ensures Inv(w.(head := w.head + n))
  {
    var after := w.(head := w.head + n);
    forall b ensures Balanced(after, b) { assert Balanced(w, b); }
  }

  /** The end of a batch: what has not landed by then never does. */
  lemma BatchOver(w: World)
    requires Inv(w) && w.phase != Ending && w.phase != Counting
    ensures Inv(w.(phase := Idle, orders := NO_ORDERS))
  {
    var after := w.(phase := Idle, orders := NO_ORDERS);
    forall b ensures Balanced(after, b) { assert Balanced(w, b); }
    assert Tallies(after);
  }

  /* Expiry. */

  lemma WithoutSame(chain: Chain, k: Key, a: Key)
    requires YoungerZero(chain) && k in chain
    ensures YoungerZero(chain - {k})
    ensures !Carrying(chain, a, k) ==> OpenCount(chain - {k}, a) == OpenCount(chain, a)
    ensures Carrying(chain, a, k) ==> OpenCount(chain - {k}, a) == 0 && OpenCount(chain, a) == chain[k].record.count
  {
    var after := chain - {k};
    assert forall b, other :: OpenFor(after, b, other) ==> OpenFor(chain, b, other) && after[other] == chain[other];
    if Carrying(chain, a, k) {
      forall other | OpenFor(chain, a, other) && other != k ensures chain[other].record.count == 0 {
        if chain[other].record.count > 0 { CarryingUnique(chain, a, k, other); }
      }
      OpenCountIs(chain, a, k);
      OpenCountZero(after, a);
    } else {
      assert forall other :: Carrying(chain, a, other) <==> Carrying(after, a, other);
      OpenCountSame(chain, after, a);
    }
  }

  /** Taking any record off the chain leaves the rest of the invariant standing. */
  lemma WithoutStands(chain: Chain, k: Key, issued: set<Key>, terms: map<Key, Terms>, memory: Memory)
    requires MemorySound(chain, issued, terms, memory)
    ensures MemorySound(chain - {k}, issued, terms, memory)
  {
    var after := chain - {k};
    assert forall b, other :: OpenFor(after, b, other) ==> OpenFor(chain, b, other);
    assert forall b, other :: IsOldest(chain, b, other) && other != k ==> IsOldest(after, b, other);
  }

  lemma WithoutOrders(w: World, k: Key, after: World)
    requires OrdersSound(w)
    requires after.chain == w.chain - {k} && after.memory == w.memory && after.phase == w.phase
    requires after.orders == w.orders && after.closing == w.closing && after.ending == w.ending
    requires after.terms == w.terms && after.issued == w.issued
    ensures OrdersSound(after)
  {
    assert forall b, other :: OpenFor(after.chain, b, other) ==> OpenFor(w.chain, b, other);
  }

  lemma WithoutClosing(chain: Chain, k: Key, memory: Memory, closing: Closings, patched: set<Key>)
    requires ClosingSound(chain, memory, closing, patched)
    ensures ClosingSound(chain - {k}, memory, closing, patched)
  {
  }

  lemma ExpireShape(w: World, k: Key)
    requires Shape(w) && k in w.chain
    ensures Shape(Expired(w, k))
  {
    WithoutStands(w.chain, k, w.issued, w.terms, w.memory);
    WithoutClosing(w.chain, k, w.memory, w.closing, w.patched);
    WithoutOrders(w, k, Expired(w, k));
    WithoutSame(w.chain, k, 0);
  }

  lemma PendingWithout(chain: Chain, k: Key, closing: Closings, patched: set<Key>, b: Key, c: Key)
    ensures Pending(chain - {k}, closing, patched, b, c)
         == if c == k && ClosedOn(chain, k) && !Named(closing, patched, b, k) then 0 else Pending(chain, closing, patched, b, c)
  {
  }

  /** An expiry costs a live agreement the open record it had not taken up, or shows it again a close it had
      not learned of. */
  lemma ExpireHeld(w: World, k: Key, b: Key)
    requires YoungerZero(w.chain) && k in w.chain && b in w.memory
    requires w.memory[b].counter.Some? ==> CounterSound(w.chain, w.issued, b, w.memory[b].served, w.memory[b].counter.value)
    ensures var own := w.chain[k].record.agreement == b;
            Held(w.chain - {k}, w.closing, w.patched, b, w.memory[b]) + (if own then LostWith(w, k) else 0)
            == Held(w.chain, w.closing, w.patched, b, w.memory[b]) + (if own then DoubledWith(w, k) else 0)
  {
    if w.memory[b].counter.Some? {
      PendingWithout(w.chain, k, w.closing, w.patched, b, w.memory[b].counter.value.key);
      hide YoungerZero, OpenCount, IsOldest, OthersZero;
    } else {
      WithoutSame(w.chain, k, b);
      hide YoungerZero, OpenCount;
    }
  }

  lemma ExpireCarried(w: World, k: Key, b: Key)
    requires YoungerZero(w.chain) && MemorySound(w.chain, w.issued, w.terms, w.memory) && k in w.chain
    ensures var own := w.chain[k].record.agreement == b;
            Carried(Expired(w, k), b) + (if own then LostWith(w, k) else 0)
            == Carried(w, b) + (if own then DoubledWith(w, k) else 0)
  {
    if b in w.memory {
      ExpireHeld(w, k, b);
      hide YoungerZero, MemorySound, Held, LostWith, DoubledWith;
    } else {
      WithoutSame(w.chain, k, b);
      hide YoungerZero, OpenCount, MemorySound;
    }
  }

  lemma ExpireBalances(w: World, k: Key, b: Key)
    requires YoungerZero(w.chain) && MemorySound(w.chain, w.issued, w.terms, w.memory)
    requires Balanced(w, b) && k in w.chain
    ensures Balanced(Expired(w, k), b)
  {
    ExpireCarried(w, k, b);
    hide Carried, LostWith, DoubledWith, MemorySound, YoungerZero, Billed;
  }

  /* The end of a process, and of an agreement. */

  /** What memory counts for an agreement is never less than what its open record says. */
  lemma HeldCoversOpen(w: World, a: Key)
    requires Shape(w) && a in w.memory
    ensures Held(w.chain, w.closing, w.patched, a, w.memory[a]) >= OpenCount(w.chain, a)
    ensures w.memory[a].counter.Some? ==>
              OpenCount(w.chain, a) == if OpenFor(w.chain, a, w.memory[a].counter.value.key)
                                       then w.chain[w.memory[a].counter.value.key].record.count else 0
  {
    var live := w.memory[a];
    if live.counter.Some? {
      var k := live.counter.value.key;
      assert CounterSound(w.chain, w.issued, a, live.served, live.counter.value);
      if OpenFor(w.chain, a, k) {
        OldestCarries(w.chain, a, k);
      } else {
        OpenCountZero(w.chain, a);
      }
    }
  }

  lemma LeftNonNegative(w: World, gone: set<Key>)
    requires Shape(w)
    ensures NonNegative(LeftToBill(w, gone))
  {
    forall a | a in gone && a in w.memory
      ensures Held(w.chain, w.closing, w.patched, a, w.memory[a]) >= OpenCount(w.chain, a)
    {
      HeldCoversOpen(w, a);
    }
  }

  lemma CrashShape(w: World)
    requires Shape(w)
    ensures Shape(Crashed(w))
  {
    assert OrdersSound(Crashed(w));
  }

  lemma CrashTallies(w: World)
    requires Inv(w)
    ensures Tallies(Crashed(w))
  {
    var after := Crashed(w);
    LeftNonNegative(w, w.memory.Keys);
    forall b ensures Balanced(after, b) {
      assert Balanced(w, b);
      assert At(after.lost, b) == At(w.lost, b) + At(LeftToBill(w, w.memory.Keys), b) + At(w.ending, b);
    }
  }

  lemma EndedKeyed(w: World, gone: set<Key>, a: Key, k: Key)
    requires Shape(w) && EndedWith(w.memory, gone, a, k)
    ensures k in w.issued && (k in w.chain ==> w.chain[k].record.agreement == a)
  {
    assert CounterSound(w.chain, w.issued, a, w.memory[a].served, w.memory[a].counter.value);
  }

  lemma FinalPatchSound(w: World, gone: set<Key>, a: Key, k: Key)
    requires Shape(w) && w.phase == Idle && k in w.chain && EndedWith(w.memory, gone, a, k)
    ensures Rewrites(w.chain[k].record, FinalRecord(a, w.memory[a], w.head)) || w.memory[a].served == 0
    ensures a in LeftToBill(w, gone)
    ensures LeftToBill(w, gone)[a] + w.chain[k].record.count == w.memory[a].served
    ensures OthersZero(w.chain, a, k)
    ensures w.memory[a].served == 0 ==> w.chain[k].record.state == Open && w.chain[k].record.count == 0
  {
    HeldCoversOpen(w, a);
    assert CounterSound(w.chain, w.issued, a, w.memory[a].served, w.memory[a].counter.value);
  }

  lemma FinalPatchesSound(w: World, gone: set<Key>, finals: Orders)
    requires Shape(w) && w.phase == Idle && FinalOrders(w.memory, gone, w.head, finals)
    ensures FinalPatches(w.chain, LeftToBill(w, gone), finals.patches)
  {
    forall k | k in finals.patches && k in w.chain
      ensures exists a :: EndedWith(w.memory, gone, a, k) && w.chain[k].record.agreement == a
                && Rewrites(w.chain[k].record, finals.patches[k]) && finals.patches[k].state == Closed
                && a in LeftToBill(w, gone)
                && finals.patches[k].count == LeftToBill(w, gone)[a] + w.chain[k].record.count
                && OthersZero(w.chain, a, k)
    {
      var a :| EndedWith(w.memory, gone, a, k) && w.memory[a].served > 0
               && finals.patches[k] == FinalRecord(a, w.memory[a], w.head);
      FinalPatchSound(w, gone, a, k);
      EndedKeyed(w, gone, a, k);
    }
  }

  lemma FinalDeletesSound(w: World, gone: set<Key>, finals: Orders)
    requires Shape(w) && w.phase == Idle && FinalOrders(w.memory, gone, w.head, finals)
    ensures DeletesSound(w.chain, finals)
  {
    forall k | k in finals.deletes && k in w.chain
      ensures k !in finals.patches && w.chain[k].record.state == Open && w.chain[k].record.count == 0
    {
      var a :| EndedWith(w.memory, gone, a, k) && w.memory[a].served == 0;
      FinalPatchSound(w, gone, a, k);
      forall other | EndedWith(w.memory, gone, other, k) ensures other == a {
        EndedKeyed(w, gone, a, k);
        EndedKeyed(w, gone, other, k);
      }
    }
  }

  lemma FinalsIssued(w: World, gone: set<Key>, finals: Orders)
    requires Shape(w) && FinalOrders(w.memory, gone, w.head, finals)
    ensures finals.patches.Keys + finals.deletes <= w.issued
  {
    forall a, k | EndedWith(w.memory, gone, a, k) ensures k in w.issued { EndedKeyed(w, gone, a, k); }
  }

  lemma EndShape(w: World, gone: set<Key>, finals: Orders)
    requires Shape(w) && Enabled(w, EndAgreements(gone, finals))
    ensures Shape(Ended(w, gone, finals))
  {
    FinalPatchesSound(w, gone, finals);
    FinalDeletesSound(w, gone, finals);
    FinalsIssued(w, gone, finals);
    EndOrders(w, gone, finals);
    FewerStand(w.chain, w.issued, w.terms, w.memory, gone);
    hide LeftToBill, FinalOrders, OrdersSound, PhaseSound, FinalPatches, DeletesSound, MemorySound, YoungerZero;
  }

  lemma FewerStand(chain: Chain, issued: set<Key>, terms: map<Key, Terms>, memory: Memory, gone: set<Key>)
    requires MemorySound(chain, issued, terms, memory)
    ensures MemorySound(chain, issued, terms, memory - gone)
    ensures ClosingSound(chain, memory - gone, map[], {})
  {
  }

  lemma EndOrders(w: World, gone: set<Key>, finals: Orders)
    requires PhaseSound(w) && w.phase == Idle && finals.creates == map[]
    requires FinalPatches(w.chain, LeftToBill(w, gone), finals.patches)
    requires DeletesSound(w.chain, finals)
    requires finals.patches.Keys + finals.deletes <= w.issued
    ensures OrdersSound(Ended(w, gone, finals)) && PhaseSound(Ended(w, gone, finals))
  {
  }

  lemma EndTallies(w: World, gone: set<Key>, finals: Orders)
    requires Inv(w) && Enabled(w, EndAgreements(gone, finals))
    ensures Tallies(Ended(w, gone, finals))
  {
    var after := Ended(w, gone, finals);
    LeftNonNegative(w, gone);
    forall b ensures Balanced(after, b) {
      assert Balanced(w, b);
    }
  }

  lemma EndingFinishedShape(w: World)
    requires Shape(w) && w.phase == Ending
    ensures Shape(EndingFinished(w))
  {
    NoOrdersSound(EndingFinished(w));
  }

  lemma NoOrdersSound(w: World)
    requires w.orders == NO_ORDERS
    ensures OrdersSound(w)
  {
  }

  lemma EndingFinishedTallies(w: World)
    requires Tallies(w) && PhaseSound(w) && w.phase == Ending
    ensures Tallies(EndingFinished(w))
  {
    var after := EndingFinished(w);
    forall b ensures Balanced(after, b) { assert Balanced(w, b); }
  }

  /* A new agreement. */

  lemma NewTermsStand(chain: Chain, issued: set<Key>, terms: map<Key, Terms>, ledger: map<Key, CounterRecord>,
                      a: Key, its: Terms)
    requires ChainSound(chain, issued, terms, ledger) && LedgerSound(issued, terms, ledger)
    requires a in terms ==> terms[a] == its
    ensures ChainSound(chain, issued + {a}, terms[a := its], ledger)
    ensures LedgerSound(issued + {a}, terms[a := its], ledger)
  {
  }

  lemma NewEntryStands(chain: Chain, issued: set<Key>, terms: map<Key, Terms>, memory: Memory, a: Key, its: Terms)
    requires MemorySound(chain, issued, terms, memory) && a !in memory
    requires a in terms ==> terms[a] == its
    ensures MemorySound(chain, issued + {a}, terms[a := its], memory[a := Live(its, 0, None)])
  {
  }

  lemma AcceptShape(w: World, a: Key, terms: Terms)
    requires Shape(w) && Enabled(w, Accept(a, terms))
    ensures Shape(Accepted(w, a, terms))
  {
    NewTermsStand(w.chain, w.issued, w.terms, w.ledger, a, terms);
    assert a !in w.memory;
    NewEntryStands(w.chain, w.issued, w.terms, w.memory, a, terms);
    AcceptOrders(w, a, terms);
  }

  lemma AcceptOrders(w: World, a: Key, terms: Terms)
    requires PhaseSound(w) && w.phase == Idle && ChainSound(w.chain, w.issued, w.terms, w.ledger) && a !in w.terms
    ensures OrdersSound(Accepted(w, a, terms)) && PhaseSound(Accepted(w, a, terms))
  {
    assert forall k :: !OpenFor(w.chain, a, k);
  }

  lemma AdoptShape(w: World, a: Key, terms: Terms)
    requires Shape(w) && Enabled(w, Adopt(a, terms))
    ensures Shape(Adopted(w, a, terms))
  {
    NewTermsStand(w.chain, w.issued, w.terms, w.ledger, a, terms);
    NewEntryStands(w.chain, w.issued, w.terms, w.memory, a, terms);
    AdoptOrders(w, a, terms);
  }

  lemma AdoptOrders(w: World, a: Key, terms: Terms)
    requires OrdersSound(w) && PhaseSound(w) && Enabled(w, Adopt(a, terms))
    ensures OrdersSound(Adopted(w, a, terms)) && PhaseSound(Adopted(w, a, terms))
  {
    var after := Adopted(w, a, terms);
    assert after.memory.Keys == w.memory.Keys + {a};
  }

  /** An entry that starts at zero leaves what is carried as it was. */
  lemma NewAgreementTallies(w: World, after: World, a: Key, terms: Terms)
    requires Tallies(w) && a !in w.memory && a !in w.ending
    requires after.memory == w.memory[a := Live(terms, 0, None)] && after.chain == w.chain
    requires after.closing == w.closing && after.patched == w.patched && after.ending == w.ending
    requires after.ledger == w.ledger && after.requests == w.requests
    requires after.lost == w.lost && after.doubled == w.doubled
    ensures Tallies(after)
  {
    forall b ensures Balanced(after, b) { assert Balanced(w, b); }
  }

  /* The reconcile. */

  /** What one entry becomes: its count changes by exactly what the chain's records say. */
  lemma ReconcileEntry(w: World, open: map<Key, Key>, a: Key)
    requires Shape(w) && w.phase == Idle && ReadOf(w.chain, open) && a in w.memory
    ensures var live := Reconciled(w.chain, open, w.memory)[a];
            && live.terms == w.memory[a].terms
            && (live.counter.Some? ==> CounterSound(w.chain, w.issued, a, live.served, live.counter.value))
            && Held(w.chain, w.closing, w.patched, a, live)
               == Held(w.chain, w.closing, w.patched, a, w.memory[a]) + At(Hidden(w.chain, open, w.memory), a)
  {
    HeldCoversOpen(w, a);
    var live := w.memory[a];
    if a in open {
      OldestCarries(w.chain, a, open[a]);
      ReconcileFound(w, open, a);
    } else {
      assert forall k :: !OpenFor(w.chain, a, k);
      assert !Carrying(w.chain, a, 0);
      OpenCountZero(w.chain, a);
    }
  }

  lemma ReconcileFound(w: World, open: map<Key, Key>, a: Key)
    requires Shape(w) && w.phase == Idle && ReadOf(w.chain, open) && a in w.memory && a in open
    ensures var live := Reconciled(w.chain, open, w.memory)[a];
            live.counter.Some? && CounterSound(w.chain, w.issued, a, live.served, live.counter.value)
  {
    var k := open[a];
    assert IsOldest(w.chain, a, k);
    if w.memory[a].counter.Some? {
      assert CounterSound(w.chain, w.issued, a, w.memory[a].served, w.memory[a].counter.value);
    }
    assert OthersZero(w.chain, a, k);
  }

  lemma ReconcileShape(w: World, open: map<Key, Key>)
    requires Shape(w) && w.phase == Idle && ReadOf(w.chain, open)
    ensures Shape(ReconciledWorld(w, open))
  {
    forall a | a in w.memory
      ensures Reconciled(w.chain, open, w.memory)[a].terms == w.memory[a].terms
      ensures Reconciled(w.chain, open, w.memory)[a].counter.Some? ==>
                CounterSound(w.chain, w.issued, a, Reconciled(w.chain, open, w.memory)[a].served,
                             Reconciled(w.chain, open, w.memory)[a].counter.value)
    {
      ReconcileEntry(w, open, a);
    }
    NoOrdersSound(ReconciledWorld(w, open));
    assert Reconciled(w.chain, open, w.memory).Keys == w.memory.Keys;
  }

  lemma ReconcileBalances(w: World, open: map<Key, Key>, b: Key)
    requires Shape(w) && Balanced(w, b) && w.phase == Idle && ReadOf(w.chain, open)
    ensures Balanced(ReconciledWorld(w, open), b)
  {
    if b in w.memory { ReconcileEntry(w, open, b); }
  }

  lemma HiddenNonNegative(chain: Chain, open: map<Key, Key>, memory: Memory)
    ensures NonNegative(Hidden(chain, open, memory))
  {
  }

  lemma ReconcileTallies(w: World, open: map<Key, Key>)
    requires Inv(w) && w.phase == Idle && ReadOf(w.chain, open)
    ensures Tallies(ReconciledWorld(w, open))
  {
    HiddenNonNegative(w.chain, open, w.memory);
    forall b ensures Balanced(ReconciledWorld(w, open), b) { ReconcileBalances(w, open, b); }
  }

  /* The flush. */

  lemma CountPatchSound(w: World, open: map<Key, Key>, stop: bool, k: Key)
    requires ReadOf(w.chain, open) && InStep(w.chain, open, w.memory)
    requires k in w.chain && PatchFor(w, open, stop, k).Some?
    ensures CountPatches(w.chain, w.memory, ClosingsOf(w, open, stop), map[k := PatchFor(w, open, stop, k).value])
  {
    assert OpenFor(w.chain, w.chain[k].record.agreement, k);
  }

  lemma CountPatchesSound(w: World, open: map<Key, Key>, stop: bool)
    requires ReadOf(w.chain, open) && InStep(w.chain, open, w.memory)
    ensures CountPatches(w.chain, w.memory, ClosingsOf(w, open, stop), CountOrders(w, open, stop).patches)
  {
    forall k | k in w.chain && PatchFor(w, open, stop, k).Some?
      ensures CountPatches(w.chain, w.memory, ClosingsOf(w, open, stop), map[k := PatchFor(w, open, stop, k).value])
    {
      CountPatchSound(w, open, stop, k);
    }
    PatchesOneByOne(w.chain, w.memory, ClosingsOf(w, open, stop), CountOrders(w, open, stop).patches);
  }

  lemma PatchesOneByOne(chain: Chain, memory: Memory, closing: Closings, patches: map<Key, CounterRecord>)
    requires forall k :: k in patches ==> CountPatches(chain, memory, closing, map[k := patches[k]])
    ensures CountPatches(chain, memory, closing, patches)
  {
    forall k | k in patches && k in chain
      ensures CountPatches(chain, memory, closing, map[k := patches[k]]) && k in map[k := patches[k]]
    {
    }
  }

  lemma CountDeletesSound(w: World, open: map<Key, Key>, stop: bool)
    requires YoungerZero(w.chain) && ReadOf(w.chain, open)
    ensures DeletesSound(w.chain, CountOrders(w, open, stop))
  {
    forall k | k in w.chain && DeleteFor(w, open, stop, k)
      ensures w.chain[k].record.count == 0
    {
      var a := w.chain[k].record.agreement;
      assert IsOldest(w.chain, a, open[a]);
      assert OpenFor(w.chain, a, k);
    }
  }

  lemma CountCreatesSound(w: World, open: map<Key, Key>, stop: bool)
    requires ReadOf(w.chain, open) && InStep(w.chain, open, w.memory)
    requires MemorySound(w.chain, w.issued, w.terms, w.memory)
    ensures CreatesSound(w.chain, w.terms, w.memory, CountOrders(w, open, stop).creates)
  {
  }

  lemma CountClosingSound(w: World, open: map<Key, Key>, stop: bool)
    requires ReadOf(w.chain, open) && InStep(w.chain, open, w.memory)
    ensures ClosingSound(w.chain, w.memory, ClosingsOf(w, open, stop), {})
  {
  }

  lemma CountIssued(w: World, open: map<Key, Key>, stop: bool)
    requires ChainSound(w.chain, w.issued, w.terms, w.ledger)
    ensures CountOrders(w, open, stop).patches.Keys + CountOrders(w, open, stop).deletes <= w.issued
  {
  }

  lemma CountShape(w: World, open: map<Key, Key>, stop: bool)
    requires Shape(w) && Enabled(w, Count(open, stop))
    ensures Shape(CountSent(w, open, stop))
  {
    CountClosingSound(w, open, stop);
    CountSentOrders(w, open, stop);
    CountPhase(w, open, stop);
  }

  lemma CountSentOrders(w: World, open: map<Key, Key>, stop: bool)
    requires ReadOf(w.chain, open) && InStep(w.chain, open, w.memory) && YoungerZero(w.chain)
    requires MemorySound(w.chain, w.issued, w.terms, w.memory)
    requires ChainSound(w.chain, w.issued, w.terms, w.ledger)
    ensures OrdersSound(CountSent(w, open, stop))
  {
    CountPatchesSound(w, open, stop);
    CountDeletesSound(w, open, stop);
    CountCreatesSound(w, open, stop);
    CountIssued(w, open, stop);
    OrdersTogether(CountSent(w, open, stop));
  }

  lemma OrdersTogether(w: World)
    requires w.phase == Counting
    requires CountPatches(w.chain, w.memory, w.closing, w.orders.patches)
    requires DeletesSound(w.chain, w.orders)
    requires CreatesSound(w.chain, w.terms, w.memory, w.orders.creates)
    requires w.orders.patches.Keys + w.orders.deletes <= w.issued
    ensures OrdersSound(w)
  {
  }

  lemma CountPhase(w: World, open: map<Key, Key>, stop: bool)
    requires PhaseSound(w) && w.phase == Idle
    ensures PhaseSound(CountSent(w, open, stop))
  {
  }

  lemma CountTallies(w: World, open: map<Key, Key>, stop: bool)
    requires Tallies(w) && PhaseSound(w) && w.phase == Idle
    ensures Tallies(CountSent(w, open, stop))
  {
    var after := CountSent(w, open, stop);
    forall b ensures Balanced(after, b) { assert Balanced(w, b); }
  }

  lemma EndPeriodsEntry(w: World, a: Key)
    requires Shape(w) && w.phase == Counting && a in w.memory
    ensures var live := Acknowledged(w.closing, w.patched, a, w.memory[a]);
            && live.terms == w.memory[a].terms
            && (live.counter.Some? ==> CounterSound(w.chain, w.issued, a, live.served, live.counter.value))
            && Held(w.chain, map[], {}, a, live) == Held(w.chain, w.closing, w.patched, a, w.memory[a])
            && (a in Successors(w) ==> live.counter.None? && forall k :: OpenFor(w.chain, a, k) ==> w.chain[k].record.count == 0)
  {
    HeldCoversOpen(w, a);
    if a in w.closing && w.closing[a].counter in w.patched {
      var k := w.closing[a].counter;
      assert CounterSound(w.chain, w.issued, a, w.memory[a].served, w.memory[a].counter.value);
      assert !OpenFor(w.chain, a, k);
    }
  }

  lemma EndPeriodsShape(w: World)
    requires Shape(w) && w.phase == Counting
    ensures Shape(PeriodsEnded(w))
  {
    forall a | a in w.memory
      ensures var live := Acknowledged(w.closing, w.patched, a, w.memory[a]);
              && live.terms == w.memory[a].terms
              && (live.counter.Some? ==> CounterSound(w.chain, w.issued, a, live.served, live.counter.value))
    {
      EndPeriodsEntry(w, a);
    }
    EndPeriodsOrders(w);
  }

  lemma EndPeriodsOrders(w: World)
    requires Shape(w) && w.phase == Counting
    ensures OrdersSound(PeriodsEnded(w)) && PhaseSound(PeriodsEnded(w))
  {
    forall a | a in Successors(w)
      ensures var live := Acknowledged(w.closing, w.patched, a, w.memory[a]);
              live.counter.None? && forall k :: OpenFor(w.chain, a, k) ==> w.chain[k].record.count == 0
    {
      EndPeriodsEntry(w, a);
    }
    assert PeriodsEnded(w).memory.Keys == w.memory.Keys;
  }

  lemma EndPeriodsTallies(w: World)
    requires Inv(w) && w.phase == Counting
    ensures Tallies(PeriodsEnded(w))
  {
    var after := PeriodsEnded(w);
    forall b ensures Balanced(after, b) {
      assert Balanced(w, b);
      if b in w.memory { EndPeriodsEntry(w, b); }
    }
  }

  /* A patch lands. */

  predicate Lands(w: World, k: Key) {
    k in w.chain && k in w.orders.patches
  }

  function ChainAfter(w: World, k: Key): Chain
    requires Lands(w, k)
  {
    w.chain[k := w.chain[k].(record := PatchEffect(w.chain[k].record, w.orders.patches[k]))]
  }

  /** What is known of a patch at the moment it lands: it does what it was meant to. */
  lemma PatchFacts(w: World, k: Key)
    requires Shape(w) && Lands(w, k)
    ensures w.phase == Counting || w.phase == Ending
    ensures Rewrites(w.chain[k].record, w.orders.patches[k])
    ensures PatchEffect(w.chain[k].record, w.orders.patches[k]) == w.orders.patches[k]
    ensures w.chain[k].record.state == Closed ==> w.phase == Ending && w.orders.patches[k].state == Closed
    ensures w.orders.patches[k].state == Open ==> HoldsRecord(w.memory, w.chain[k].record.agreement, k)
    ensures k !in w.orders.deletes
  {
  }

  lemma PatchedOpen(w: World, k: Key)
    requires Shape(w) && Lands(w, k)
    ensures forall a, other :: OpenFor(ChainAfter(w, k), a, other) ==>
              OpenFor(w.chain, a, other) && (other != k ==> ChainAfter(w, k)[other] == w.chain[other])
    ensures forall a, other :: OpenFor(w.chain, a, other) && other != k ==> OpenFor(ChainAfter(w, k), a, other)
    ensures forall a, other :: IsOldest(w.chain, a, other) && OpenFor(ChainAfter(w, k), a, other)
              ==> IsOldest(ChainAfter(w, k), a, other)
  {
    PatchFacts(w, k);
    hide Shape;
    RewrittenOpen(w.chain, k, w.orders.patches[k]);
  }

  /** A record rewritten in place opens nothing and moves nobody in the order of creation. */
  lemma RewrittenOpen(chain: Chain, k: Key, meant: CounterRecord)
    requires k in chain && Rewrites(chain[k].record, meant) && (chain[k].record.state == Closed ==> meant.state == Closed)
    ensures var after := chain[k := chain[k].(record := meant)];
            && (forall a, other :: OpenFor(after, a, other) ==> OpenFor(chain, a, other) && (other != k ==> after[other] == chain[other]))
            && (forall a, other :: OpenFor(chain, a, other) && other != k ==> OpenFor(after, a, other))
            && (forall a, other :: IsOldest(chain, a, other) && OpenFor(after, a, other) ==> IsOldest(after, a, other))
  {
    var after := chain[k := chain[k].(record := meant)];
    assert forall one, two :: one in chain && two in chain ==> (Before(after, one, two) <==> Before(chain, one, two));
  }

  lemma PatchRecords(w: World, k: Key, answered: bool)
    requires Shape(w) && Lands(w, k)
    ensures ChainSound(ChainAfter(w, k), w.issued, w.terms, PatchLanded(w, k, answered).ledger)
    ensures LedgerSound(w.issued, w.terms, PatchLanded(w, k, answered).ledger)
  {
    PatchFacts(w, k);
    RecordRewritten(w.chain, w.issued, w.terms, w.ledger, k, w.orders.patches[k]);
  }

  lemma RecordRewritten(chain: Chain, issued: set<Key>, terms: map<Key, Terms>, ledger: map<Key, CounterRecord>,
                        k: Key, meant: CounterRecord)
    requires ChainSound(chain, issued, terms, ledger) && LedgerSound(issued, terms, ledger)
    requires k in chain && Rewrites(chain[k].record, meant) && (meant.state == Open ==> chain[k].record.state == Open)
    ensures ChainSound(chain[k := chain[k].(record := meant)], issued, terms,
                       if meant.state == Closed then ledger[k := meant] else ledger)
    ensures LedgerSound(issued, terms, if meant.state == Closed then ledger[k := meant] else ledger)
  {
  }

  lemma PatchYounger(w: World, k: Key)
    requires Shape(w) && Lands(w, k)
    ensures YoungerZero(ChainAfter(w, k))
  {
    PatchFacts(w, k);
    PatchedOpen(w, k);
    var a := w.chain[k].record.agreement;
    var after := ChainAfter(w, k);
    if w.orders.patches[k].state == Open {
      assert CounterSound(w.chain, w.issued, a, w.memory[a].served, w.memory[a].counter.value);
      assert forall other :: OpenFor(w.chain, a, other) && other != k ==> !Before(w.chain, other, k);
    }
    assert forall one, two :: one in w.chain && two in w.chain ==> (Before(after, one, two) <==> Before(w.chain, one, two));
  }

  lemma PatchMemory(w: World, k: Key, a: Key)
    requires Shape(w) && Lands(w, k) && a in w.memory && w.memory[a].counter.Some?
    ensures CounterSound(ChainAfter(w, k), w.issued, a, w.memory[a].served, w.memory[a].counter.value)
  {
    PatchFacts(w, k);
    PatchedOpen(w, k);
    assert CounterSound(w.chain, w.issued, a, w.memory[a].served, w.memory[a].counter.value);
    var after := ChainAfter(w, k);
    var c := w.memory[a].counter.value;
    assert OthersZero(after, a, c.key) by {
      if w.chain[k].record.agreement == a && w.orders.patches[k].state == Open {
        assert HoldsRecord(w.memory, a, k);
      }
    }
    if c.key == k {
      assert after[k].record == w.orders.patches[k];
    }
  }

  lemma ClosingIs(w: World, k: Key, a: Key)
    requires Shape(w) && Lands(w, k) && a in w.closing && w.closing[a].counter == k
    ensures w.chain[k].record.agreement == a && w.orders.patches[k].state == Closed
    ensures w.orders.patches[k].count == w.closing[a].count
  {
    PatchFacts(w, k);
    assert CounterSound(w.chain, w.issued, a, w.memory[a].served, w.memory[a].counter.value);
  }

  lemma PatchClosing(w: World, k: Key, answered: bool)
    requires Shape(w) && Lands(w, k)
    ensures ClosingSound(ChainAfter(w, k), w.memory, w.closing, PatchLanded(w, k, answered).patched)
  {
    PatchFacts(w, k);
    forall a | a in w.closing && w.closing[a].counter == k
      ensures w.orders.patches[k].state == Closed && w.orders.patches[k].count == w.closing[a].count
    {
      ClosingIs(w, k, a);
    }
    ClosingRewritten(w.chain, w.memory, w.closing, w.patched, k, w.orders.patches[k]);
  }

  lemma ClosingRewritten(chain: Chain, memory: Memory, closing: Closings, patched: set<Key>, k: Key, meant: CounterRecord)
    requires ClosingSound(chain, memory, closing, patched) && k in chain
    requires forall a :: a in closing && closing[a].counter == k ==> meant.state == Closed && meant.count == closing[a].count
    ensures ClosingSound(chain[k := chain[k].(record := meant)], memory, closing, patched)
    ensures ClosingSound(chain[k := chain[k].(record := meant)], memory, closing, patched + {k})
  {
  }

  lemma PatchCounting(w: World, k: Key)
    requires Shape(w) && Lands(w, k) && w.phase == Counting
    ensures CountPatches(ChainAfter(w, k), w.memory, w.closing, w.orders.patches - {k})
  {
  }

  lemma PatchEnding(w: World, k: Key)
    requires Shape(w) && Lands(w, k) && w.phase == Ending
    ensures FinalPatches(ChainAfter(w, k), w.ending - {w.chain[k].record.agreement}, w.orders.patches - {k})
  {
    PatchedOpen(w, k);
  }

  lemma PatchOthers(w: World, k: Key)
    requires Shape(w) && Lands(w, k)
    ensures DeletesSound(ChainAfter(w, k), w.orders.(patches := w.orders.patches - {k}))
    ensures CreatesSound(ChainAfter(w, k), w.terms, w.memory, w.orders.creates)
  {
    PatchFacts(w, k);
    PatchedOpen(w, k);
  }

  lemma PatchOrders(w: World, k: Key, answered: bool)
    requires Shape(w) && Lands(w, k)
    ensures OrdersSound(PatchLanded(w, k, answered))
  {
    PatchFacts(w, k);
    PatchOthers(w, k);
    if w.phase == Counting { PatchCounting(w, k); PatchOrdersTogether(w, k, answered); }
    else { PatchEnding(w, k); PatchOrdersTogether(w, k, answered); }
  }

  lemma PatchOrdersTogether(w: World, k: Key, answered: bool)
    requires OrdersSound(w) && Lands(w, k) && (w.phase == Counting || w.phase == Ending)
    requires w.phase == Counting ==> CountPatches(ChainAfter(w, k), w.memory, w.closing, w.orders.patches - {k})
    requires w.phase == Ending ==>
               FinalPatches(ChainAfter(w, k), w.ending - {w.chain[k].record.agreement}, w.orders.patches - {k})
    requires DeletesSound(ChainAfter(w, k), w.orders.(patches := w.orders.patches - {k}))
    requires CreatesSound(ChainAfter(w, k), w.terms, w.memory, w.orders.creates)
    ensures OrdersSound(PatchLanded(w, k, answered))
  {
  }

  lemma PatchPhase(w: World, k: Key, answered: bool)
    requires PhaseSound(w) && Lands(w, k)
    ensures PhaseSound(PatchLanded(w, k, answered))
  {
  }

  lemma LandPatchShape(w: World, k: Key, answered: bool)
    requires Shape(w) && Lands(w, k)
    ensures Shape(PatchLanded(w, k, answered))
  {
    PatchRecords(w, k, answered);
    PatchYounger(w, k);
    forall a | a in w.memory && w.memory[a].counter.Some?
      ensures CounterSound(ChainAfter(w, k), w.issued, a, w.memory[a].served, w.memory[a].counter.value)
    {
      PatchMemory(w, k, a);
    }
    PatchClosing(w, k, answered);
    PatchOrders(w, k, answered);
    PatchPhase(w, k, answered);
  }

  /** The open count a patch leaves: unchanged for every other agreement, and gone with a record that closes. */
  lemma PatchOpenCount(w: World, k: Key, b: Key)
    requires Shape(w) && Lands(w, k)
    ensures b != w.chain[k].record.agreement ==> OpenCount(ChainAfter(w, k), b) == OpenCount(w.chain, b)
    ensures b == w.chain[k].record.agreement && OthersZero(w.chain, b, k) && w.orders.patches[k].state == Closed ==>
              && OpenCount(ChainAfter(w, k), b) == 0
              && OpenCount(w.chain, b) == (if w.chain[k].record.state == Open then w.chain[k].record.count else 0)
  {
    PatchFacts(w, k);
    PatchedOpen(w, k);
    PatchYounger(w, k);
    var after := ChainAfter(w, k);
    if b != w.chain[k].record.agreement {
      assert forall other :: Carrying(w.chain, b, other) <==> Carrying(after, b, other);
      OpenCountSame(w.chain, after, b);
    } else if OthersZero(w.chain, b, k) && w.orders.patches[k].state == Closed {
      OpenCountZero(after, b);
      if w.chain[k].record.state == Open { OpenCountIs(w.chain, b, k); } else { OpenCountZero(w.chain, b); }
    }
  }

  lemma StrayOthersZero(w: World, k: Key)
    requires Shape(w) && Lands(w, k) && w.chain[k].record.agreement !in w.memory
    ensures OthersZero(w.chain, w.chain[k].record.agreement, k)
  {
    PatchFacts(w, k);
    var a := w.chain[k].record.agreement;
    if w.phase == Counting {
      forall other | OpenFor(w.chain, a, other) && other != k ensures w.chain[other].record.count == 0 {
        if w.chain[other].record.count > 0 { CarryingUnique(w.chain, a, k, other); }
      }
    }
  }

  /** Another record's close is pending as before. */
  lemma PatchPendingOther(w: World, k: Key, answered: bool, b: Key, c: Key)
    requires Lands(w, k) && c != k
    ensures Pending(ChainAfter(w, k), w.closing, PatchLanded(w, k, answered).patched, b, c)
         == Pending(w.chain, w.closing, w.patched, b, c)
  {
  }

  /** The record's own close is pending from now on, named or not. */
  lemma PatchPendingOwn(w: World, k: Key, answered: bool, b: Key)
    requires Lands(w, k) && w.chain[k].record.state == Open
    requires PatchEffect(w.chain[k].record, w.orders.patches[k]) == w.orders.patches[k]
    requires w.orders.patches[k].state == Closed ==>
               b in w.closing && k !in w.patched && w.closing[b] == Closing(k, w.orders.patches[k].count)
    requires w.orders.patches[k].state == Open ==> b !in w.closing
    ensures Pending(w.chain, w.closing, w.patched, b, k) == 0
    ensures Pending(ChainAfter(w, k), w.closing, PatchLanded(w, k, answered).patched, b, k)
         == if w.orders.patches[k].state == Closed then w.orders.patches[k].count else 0
  {
  }

  lemma PatchPending(w: World, k: Key, answered: bool, b: Key)
    requires Shape(w) && Lands(w, k) && b in w.memory && w.memory[b].counter.Some?
    ensures var c := w.memory[b].counter.value.key;
            Pending(ChainAfter(w, k), w.closing, PatchLanded(w, k, answered).patched, b, c)
            - Pending(w.chain, w.closing, w.patched, b, c)
            == if b == w.chain[k].record.agreement && w.orders.patches[k].state == Closed then w.orders.patches[k].count else 0
  {
    PatchFacts(w, k);
    HeldKey(w, b);
    if b == w.chain[k].record.agreement { ClosedIsHeld(w, k); }
    hide Shape, Pending;
    if w.memory[b].counter.value.key == k {
      PatchPendingOwn(w, k, answered, b);
    } else {
      PatchPendingOther(w, k, answered, b, w.memory[b].counter.value.key);
    }
  }

  lemma HeldKey(w: World, b: Key)
    requires Shape(w) && b in w.memory && w.memory[b].counter.Some?
    ensures w.memory[b].counter.value.key in w.chain ==> w.chain[w.memory[b].counter.value.key].record.agreement == b
  {
    assert CounterSound(w.chain, w.issued, b, w.memory[b].served, w.memory[b].counter.value);
  }

  /** A live agreement's record that a patch rewrites is the one memory holds, and still open. */
  lemma ClosedIsHeld(w: World, k: Key)
    requires Shape(w) && Lands(w, k) && w.chain[k].record.agreement in w.memory
    ensures HoldsRecord(w.memory, w.chain[k].record.agreement, k) && w.chain[k].record.state == Open
    ensures w.orders.patches[k].state == Closed ==>
              && w.chain[k].record.agreement in w.closing && k !in w.patched
              && w.closing[w.chain[k].record.agreement] == Closing(k, w.orders.patches[k].count)
    ensures w.orders.patches[k].state == Open ==> w.chain[k].record.agreement !in w.closing
  {
    PatchFacts(w, k);
  }

  /** What a landed patch moves from what is carried into a closed record. */
  function Moved(w: World, k: Key, b: Key): int
    requires Lands(w, k)
  {
    if b == w.chain[k].record.agreement && w.orders.patches[k].state == Closed
    then w.orders.patches[k].count - (if w.chain[k].record.state == Closed then w.chain[k].record.count else 0)
    else 0
  }

  lemma PatchBilled(w: World, k: Key, answered: bool, b: Key)
    requires Shape(w) && Lands(w, k)
    ensures Billed(PatchLanded(w, k, answered).ledger, b) - Billed(w.ledger, b) == Moved(w, k, b)
  {
    PatchFacts(w, k);
    if w.orders.patches[k].state == Closed {
      BilledAfter(w.ledger, b, k, w.orders.patches[k]);
    }
  }

  lemma PatchCarriedLive(w: World, k: Key, answered: bool, b: Key)
    requires Shape(w) && Lands(w, k) && b in w.memory
    ensures Carried(w, b) - Carried(PatchLanded(w, k, answered), b) == Moved(w, k, b)
  {
    if w.memory[b].counter.Some? {
      PatchPending(w, k, answered, b);
      if b == w.chain[k].record.agreement { ClosedIsHeld(w, k); }
    } else {
      PatchOpenCount(w, k, b);
      if b == w.chain[k].record.agreement { ClosedIsHeld(w, k); }
    }
  }

  lemma PatchCarriedGone(w: World, k: Key, answered: bool, b: Key)
    requires Shape(w) && Lands(w, k) && b !in w.memory
    ensures Carried(w, b) - Carried(PatchLanded(w, k, answered), b) == Moved(w, k, b)
  {
    PatchOpenCount(w, k, b);
    EndingAfter(w, k, b);
    if b == w.chain[k].record.agreement {
      StrayOthersZero(w, k);
    }
  }

  /** What an ended agreement's last write was still to bill, before it lands and after. */
  lemma EndingAfter(w: World, k: Key, b: Key)
    requires Shape(w) && Lands(w, k) && b !in w.memory
    ensures At(w.ending - {w.chain[k].record.agreement}, b)
         == if b == w.chain[k].record.agreement then 0 else At(w.ending, b)
    ensures b == w.chain[k].record.agreement ==>
              w.orders.patches[k].state == Closed && w.orders.patches[k].count == At(w.ending, b) + w.chain[k].record.count
    ensures PatchEffect(w.chain[k].record, w.orders.patches[k]).agreement == w.chain[k].record.agreement
  {
  }

  lemma PatchBalances(w: World, k: Key, answered: bool, b: Key)
    requires Shape(w) && Lands(w, k) && Balanced(w, b)
    ensures Balanced(PatchLanded(w, k, answered), b)
  {
    PatchBilled(w, k, answered, b);
    if b in w.memory { PatchCarriedLive(w, k, answered, b); } else { PatchCarriedGone(w, k, answered, b); }
  }

  lemma LandPatchTallies(w: World, k: Key, answered: bool)
    requires Inv(w) && Lands(w, k)
    ensures Tallies(PatchLanded(w, k, answered))
  {
    var after := PatchLanded(w, k, answered);
    forall b ensures Balanced(after, b) { PatchBalances(w, k, answered, b); }
    forall b ensures At(after.ending, b) >= 0 { assert At(w.ending, b) >= 0; }
  }

  /* A delete lands. */

  lemma LandDeleteShape(w: World, k: Key)
    requires Shape(w) && k in w.chain && k in w.orders.deletes
    ensures Shape(DeleteLanded(w, k))
  {
    WithoutStands(w.chain, k, w.issued, w.terms, w.memory);
    WithoutClosing(w.chain, k, w.memory, w.closing, w.patched);
    WithoutSame(w.chain, k, 0);
    DeleteOrders(w, k);
  }

  lemma DeleteOrders(w: World, k: Key)
    requires OrdersSound(w) && PhaseSound(w)
    ensures OrdersSound(DeleteLanded(w, k)) && PhaseSound(DeleteLanded(w, k))
  {
    var after := DeleteLanded(w, k);
    WithoutOrders(w, k, w.(chain := w.chain - {k}));
    FewerDeletes(after.chain, w.orders, after.orders);
    hide CountPatches, FinalPatches, DeletesSound, CreatesSound;
  }

  lemma FewerDeletes(chain: Chain, orders: Orders, after: Orders)
    requires DeletesSound(chain, orders) && after.deletes <= orders.deletes && after.patches == orders.patches
    ensures DeletesSound(chain, after)
  {
  }

  /** Nothing is deleted with a count in it, so nothing that is carried changes. */
  lemma DeleteBalances(w: World, k: Key, b: Key)
    requires YoungerZero(w.chain) && DeletesSound(w.chain, w.orders) && Balanced(w, b)
    requires k in w.chain && k in w.orders.deletes
    ensures Balanced(DeleteLanded(w, k), b)
  {
    WithoutSame(w.chain, k, b);
  }

  lemma LandDeleteTallies(w: World, k: Key)
    requires Inv(w) && k in w.chain && k in w.orders.deletes
    ensures Tallies(DeleteLanded(w, k))
  {
    forall b ensures Balanced(DeleteLanded(w, k), b) { DeleteBalances(w, k, b); }
  }

  /* A create lands. */

  ghost predicate Opens(w: World, a: Key, k: Key) {
    a in w.orders.creates && k !in w.issued
  }

  lemma CreatedOpen(w: World, a: Key, k: Key, life: nat, answered: bool)
    requires Shape(w) && Opens(w, a, k)
    ensures var after := CreateLanded(w, a, k, life, answered).chain;
            && k !in w.chain
            && (forall b, other :: OpenFor(after, b, other) <==> OpenFor(w.chain, b, other) || (b == a && other == k))
            && (forall b, other :: Carrying(after, b, other) <==> Carrying(w.chain, b, other))
            && YoungerZero(after)
            && (forall b, other :: b != a && IsOldest(w.chain, b, other) ==> IsOldest(after, b, other))
  {
    var after := CreateLanded(w, a, k, life, answered).chain;
    assert k !in w.chain;
    assert forall b, other :: OpenFor(after, b, other) <==> OpenFor(w.chain, b, other) || (b == a && other == k);
  }

  lemma CreateRecords(w: World, a: Key, k: Key, life: nat, answered: bool)
    requires Shape(w) && Opens(w, a, k)
    ensures ChainSound(CreateLanded(w, a, k, life, answered).chain, w.issued + {k}, w.terms, w.ledger)
    ensures LedgerSound(w.issued + {k}, w.terms, w.ledger)
  {
  }

  lemma CreateMemory(w: World, a: Key, k: Key, life: nat, answered: bool)
    requires Shape(w) && Opens(w, a, k)
    ensures var after := CreateLanded(w, a, k, life, answered);
            MemorySound(after.chain, after.issued, after.terms, after.memory)
  {
    CreatedOpen(w, a, k, life, answered);
    var after := CreateLanded(w, a, k, life, answered);
    forall b | b in w.memory && b != a && w.memory[b].counter.Some?
      ensures CounterSound(after.chain, after.issued, b, w.memory[b].served, w.memory[b].counter.value)
    {
      assert CounterSound(w.chain, w.issued, b, w.memory[b].served, w.memory[b].counter.value);
    }
    if w.phase == Accepting && answered {
      assert IsOldest(after.chain, a, k);
      assert OthersZero(after.chain, a, k);
    }
  }

  lemma CreateClosing(w: World, a: Key, k: Key, life: nat, answered: bool)
    requires Shape(w) && Opens(w, a, k)
    ensures var after := CreateLanded(w, a, k, life, answered);
            ClosingSound(after.chain, after.memory, after.closing, after.patched)
  {
    forall b | b in w.closing ensures b != a && w.closing[b].counter != k {
      assert CounterSound(w.chain, w.issued, b, w.memory[b].served, w.memory[b].counter.value);
    }
  }

  lemma CreateOrders(w: World, a: Key, k: Key, life: nat, answered: bool)
    requires Shape(w) && Opens(w, a, k)
    ensures OrdersSound(CreateLanded(w, a, k, life, answered))
  {
    CreatedOpen(w, a, k, life, answered);
    CreateOrdersTogether(w, a, k, life, answered);
  }

  lemma CreateOrdersTogether(w: World, a: Key, k: Key, life: nat, answered: bool)
    requires OrdersSound(w) && PhaseSound(w) && Opens(w, a, k)
    requires forall b, other :: OpenFor(CreateLanded(w, a, k, life, answered).chain, b, other)
                           <==> OpenFor(w.chain, b, other) || (b == a && other == k)
    ensures OrdersSound(CreateLanded(w, a, k, life, answered))
  {
  }

  lemma CreatePhase(w: World, a: Key, k: Key, life: nat, answered: bool)
    requires PhaseSound(w) && a in w.orders.creates
    ensures PhaseSound(CreateLanded(w, a, k, life, answered))
  {
    assert CreateLanded(w, a, k, life, answered).memory.Keys == w.memory.Keys;
  }

  lemma LandCreateShape(w: World, a: Key, k: Key, life: nat, answered: bool)
    requires Shape(w) && Opens(w, a, k)
    ensures Shape(CreateLanded(w, a, k, life, answered))
  {
    CreateRecords(w, a, k, life, answered);
    CreatedOpen(w, a, k, life, answered);
    CreateMemory(w, a, k, life, answered);
    CreateClosing(w, a, k, life, answered);
    CreateOrders(w, a, k, life, answered);
    CreatePhase(w, a, k, life, answered);
  }

  lemma CreateOpenCount(w: World, a: Key, k: Key, life: nat, answered: bool, b: Key)
    requires Shape(w) && Opens(w, a, k)
    ensures OpenCount(CreateLanded(w, a, k, life, answered).chain, b) == OpenCount(w.chain, b)
    ensures OpenCount(w.chain, a) == 0
  {
    CreatedOpen(w, a, k, life, answered);
    OpenCountSame(w.chain, CreateLanded(w, a, k, life, answered).chain, b);
    OpenCountZero(w.chain, a);
  }

  lemma CreateElsewhere(w: World, a: Key, k: Key, life: nat, answered: bool, b: Key)
    requires a in w.orders.creates && b != a && k !in w.chain
    requires OpenCount(CreateLanded(w, a, k, life, answered).chain, b) == OpenCount(w.chain, b)
    requires b in w.memory && w.memory[b].counter.Some? ==> w.memory[b].counter.value.key != k
    ensures Carried(CreateLanded(w, a, k, life, answered), b) == Carried(w, b)
  {
    hide OpenCount;
  }

  lemma CreateCarried(w: World, a: Key, k: Key, life: nat, answered: bool, b: Key)
    requires Shape(w) && Opens(w, a, k)
    ensures Carried(CreateLanded(w, a, k, life, answered), b) == Carried(w, b)
  {
    CreateOpenCount(w, a, k, life, answered, b);
    CreateNotClosing(w, a);
    if b in w.memory && w.memory[b].counter.Some? { CreateOtherKey(w, a, k, b); }
    assert a in w.memory && w.memory[a].counter.None? && w.orders.creates[a].state == Open && k !in w.chain;
    hide Shape, OpenCount, Carried;
    if b == a { CreateHeld(w, a, k, life, answered); } else { CreateElsewhere(w, a, k, life, answered, b); }
  }

  lemma CreateHeld(w: World, a: Key, k: Key, life: nat, answered: bool)
    requires a in w.orders.creates && a in w.memory && w.memory[a].counter.None? && a !in w.closing
    requires w.orders.creates[a].state == Open
    requires OpenCount(CreateLanded(w, a, k, life, answered).chain, a) == OpenCount(w.chain, a) == 0
    ensures Carried(CreateLanded(w, a, k, life, answered), a) == Carried(w, a)
  {
  }

  lemma CreateNotClosing(w: World, a: Key)
    requires Shape(w) && a in w.orders.creates
    ensures a !in w.closing
  {
  }

  lemma CreateOtherKey(w: World, a: Key, k: Key, b: Key)
    requires Shape(w) && Opens(w, a, k) && b in w.memory && w.memory[b].counter.Some?
    ensures w.memory[b].counter.value.key != k
  {
    assert CounterSound(w.chain, w.issued, b, w.memory[b].served, w.memory[b].counter.value);
  }

  lemma LandCreateTallies(w: World, a: Key, k: Key, life: nat, answered: bool)
    requires Inv(w) && Opens(w, a, k)
    ensures Tallies(CreateLanded(w, a, k, life, answered))
  {
    forall b ensures Balanced(CreateLanded(w, a, k, life, answered), b) {
      assert Balanced(w, b);
      CreateCarried(w, a, k, life, answered, b);
    }
  }

  /* ---------- every step, every run ---------- */

  predicate ByTheWorld(step: Step) {
    step.Serve? || step.Blocks? || step.Expire? || step.Crash?
  }

  predicate ByTheChain(step: Step) {
    step.LandPatch? || step.LandDelete? || step.LandCreate?
  }

  predicate ByAgreements(step: Step) {
    step.Accept? || step.FinishAccept? || step.Adopt? || step.EndAgreements? || step.FinishEnding?
  }

  lemma WorldStepKeeps(w: World, step: Step)
    requires Inv(w) && Enabled(w, step) && ByTheWorld(step)
    ensures Inv(Apply(w, step))
  {
    hide Shape, Tallies, LeftToBill, LostWith, DoubledWith;
    match step
    case Serve(a) => ServeShape(w, a); ServeTallies(w, a);
    case Blocks(n) => BlocksKeep(w, n);
    case Expire(k) => ExpireShape(w, k); ExpireTallies(w, k);
    case Crash => CrashShape(w); CrashTallies(w);
  }

  lemma ChainStepKeeps(w: World, step: Step)
    requires Inv(w) && Enabled(w, step) && ByTheChain(step)
    ensures Inv(Apply(w, step))
  {
    hide Shape, Tallies;
    match step
    case LandPatch(k, answered) => LandPatchShape(w, k, answered); LandPatchTallies(w, k, answered);
    case LandDelete(k) => LandDeleteShape(w, k); LandDeleteTallies(w, k);
    case LandCreate(a, k, life, answered) =>
      LandCreateShape(w, a, k, life, answered); LandCreateTallies(w, a, k, life, answered);
  }

  lemma AgreementStepKeeps(w: World, step: Step)
    requires Inv(w) && Enabled(w, step) && ByAgreements(step)
    ensures Inv(Apply(w, step))
  {
    hide LeftToBill, FinalOrders, OrdersSound, MemorySound, ChainSound, LedgerSound, YoungerZero, ClosingSound;
    match step
    case Accept(a, terms) =>
      AcceptShape(w, a, terms); AcceptFresh(w, a); NewAgreementTallies(w, Accepted(w, a, terms), a, terms);
    case FinishAccept => BatchOver(w);
    case Adopt(a, terms) => AdoptShape(w, a, terms); NewAgreementTallies(w, Adopted(w, a, terms), a, terms);
    case EndAgreements(gone, finals) => EndShape(w, gone, finals); EndTallies(w, gone, finals);
    case FinishEnding => EndingFinishedShape(w); EndingFinishedTallies(w);
  }

  lemma FlushStepKeeps(w: World, step: Step)
    requires Inv(w) && Enabled(w, step)
    requires step.Reconcile? || step.Count? || step.EndPeriods? || step.FinishFlush?
    ensures Inv(Apply(w, step))
  {
    match step
    case Reconcile(open) => ReconcileShape(w, open); ReconcileTallies(w, open);
    case Count(open, stop) => CountShape(w, open, stop); CountTallies(w, open, stop);
    case EndPeriods => EndPeriodsShape(w); EndPeriodsTallies(w);
    case FinishFlush => BatchOver(w);
  }

  /** Whatever the step, the invariant holds after it. */
  lemma StepKeeps(w: World, step: Step)
    requires Inv(w) && Enabled(w, step)
    ensures Inv(Apply(w, step))
  {
    if ByTheWorld(step) { WorldStepKeeps(w, step); }
    else if ByTheChain(step) { ChainStepKeeps(w, step); }
    else if ByAgreements(step) { AgreementStepKeeps(w, step); }
    else { FlushStepKeeps(w, step); }
  }

  lemma AcceptFresh(w: World, a: Key)
    requires Shape(w) && w.phase == Idle && a !in w.terms
    ensures a !in w.memory && a !in w.ending
  {
  }

  lemma ExpireTallies(w: World, k: Key)
    requires Inv(w) && k in w.chain
    ensures Tallies(Expired(w, k))
  {
    forall b ensures Balanced(Expired(w, k), b) { ExpireBalances(w, k, b); }
  }

  lemma {:induction false} RunKeeps(w: World, run: seq<Step>)
    requires Inv(w) && Feasible(w, run)
    ensures Inv(After(w, run))
    decreases |run|
  {
    if run != [] {
      StepKeeps(w, run[0]);
      RunKeeps(Apply(w, run[0]), run[1..]);
    }
  }

  lemma GenesisSound(period: nat, head: nat)
    ensures Inv(Genesis(period, head))
  {
    var w := Genesis(period, head);
    assert Shape(w);
    forall b ensures Balanced(w, b) {
      OpenCountZero(w.chain, b);
    }
  }
}

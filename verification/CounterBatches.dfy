/** The operations of the flush and of an agreement's end, against the orders of the protocol. */
module CounterBatches {
  import opened Basics
  import opened CounterRecords
  import opened CounterProtocol
  import opened CounterReads
  import opened Sorting

  datatype Operation =
    | Patch(key: Key, record: CounterRecord)
    | Delete(key: Key)
    | Create(record: CounterRecord)

  type Batch = seq<Operation>

  /** What the counter reconcile read, by agreement: the records that count for a live one, and the ones
      that count for nobody; and the keys of the younger duplicates. */
  datatype Counters = Counters(open: map<Key, Row>, duplicates: seq<Key>, strays: map<Key, Row>)

  function KeysOf(oldest: map<Key, Row>): map<Key, Key> {
    map a | a in oldest :: oldest[a].key
  }

  /** What the reconcile read, as the protocol sees it. */
  function AllOpen(counters: Counters): map<Key, Key> {
    KeysOf(counters.open + counters.strays)
  }

  /** The records read, divided over the agreements in memory. */
  ghost predicate Divided(chain: Chain, memory: Memory, counters: Counters) {
    && counters.open.Keys <= memory.Keys && counters.strays.Keys !! memory.Keys
    && SplitOf(chain, counters.open + counters.strays, counters.duplicates)
  }

  function FoundIn(oldest: map<Key, Row>, a: Key): Option<Row> {
    if a in oldest then Some(oldest[a]) else None
  }

  /* ---------- operations as orders ---------- */

  predicate Ordered(orders: Orders, op: Operation) {
    match op
    case Patch(k, record) => k in orders.patches && orders.patches[k] == record
    case Delete(k) => k in orders.deletes
    case Create(record) => record.agreement in orders.creates && orders.creates[record.agreement] == record
  }

  /** The batch asks for each of the orders once, and for nothing else. */
  ghost predicate BatchIs(batch: Batch, orders: Orders) {
    NoRepeats(batch) && forall op :: op in batch <==> Ordered(orders, op)
  }

  /* ---------- the flush's first batch ---------- */

  /** What a live agreement's record is owed. */
  function LiveWrite(w: World, found: Option<Row>, stop: bool, a: Key): Option<Operation>
    requires a in w.memory
  {
    var served := w.memory[a].served;
    match found
    case None => if stop then None else Some(Create(FreshRecord(a, w.memory[a].terms, w.head)))
    case Some(row) =>
      var record := row.stored.record;
      if PeriodOver(w, stop, w.memory[a], record) then Some(Patch(row.key, ClosedWith(record, served, w.head)))
      else if record.count == served then None
      else Some(Patch(row.key, Counted(record, served)))
  }

  /** What a record nobody counts for any more is owed. */
  function StrayWrite(row: Row, head: nat): Operation {
    if row.stored.record.count == 0 then Delete(row.key)
    else Patch(row.key, ClosedWith(row.stored.record, row.stored.record.count, head))
  }

  /** The period a live agreement's write closes, if it closes one. */
  function LiveClosing(w: World, found: Option<Row>, stop: bool, a: Key): Option<Closing>
    requires a in w.memory
  {
    if found.Some? && PeriodOver(w, stop, w.memory[a], found.value.stored.record)
    then Some(Closing(found.value.key, w.memory[a].served)) else None
  }

  function ClosingsIn(w: World, counters: Counters, stop: bool, done: set<Key>): Closings {
    map a | a in w.memory && a in done && LiveClosing(w, FoundIn(counters.open, a), stop, a).Some?
      :: LiveClosing(w, FoundIn(counters.open, a), stop, a).value
  }

  function WriteFor(w: World, counters: Counters, stop: bool, a: Key): Option<Operation> {
    if a in w.memory then LiveWrite(w, FoundIn(counters.open, a), stop, a)
    else if a in counters.strays && !stop then Some(StrayWrite(counters.strays[a], w.head))
    else None
  }

  /** The agreement an operation is about. */
  function Owner(chain: Chain, op: Operation): Key {
    match op
    case Patch(k, record) => record.agreement
    case Delete(k) => if k in chain then chain[k].record.agreement else 0
    case Create(record) => record.agreement
  }

  /** The batch holds the deletes of `duplicates` and what the agreements of `done` are owed, each once. */
  ghost predicate Collected(w: World, counters: Counters, stop: bool, batch: Batch, duplicates: seq<Key>, done: set<Key>) {
    && NoRepeats(batch)
    && forall op :: op in batch <==> Wanted(w, counters, stop, duplicates, done, op)
  }

  predicate Wanted(w: World, counters: Counters, stop: bool, duplicates: seq<Key>, done: set<Key>, op: Operation) {
    || (op.Delete? && op.key in duplicates)
    || (Owner(w.chain, op) in done && WriteFor(w, counters, stop, Owner(w.chain, op)) == Some(op))
  }

  ghost predicate Underway(w: World, counters: Counters, duplicates: seq<Key>) {
    Divided(w.chain, w.memory, counters) && forall k :: k in duplicates ==> k in counters.duplicates
  }

  /** What an agreement is owed is about it, and is not the delete of a duplicate. */
  lemma OwedToOne(w: World, counters: Counters, stop: bool, a: Key)
    requires Divided(w.chain, w.memory, counters)
    ensures var write := WriteFor(w, counters, stop, a);
            write.Some? ==> Owner(w.chain, write.value) == a
                            && (write.value.Delete? ==> write.value.key !in counters.duplicates)
  {
    var oldest := counters.open + counters.strays;
    if a in oldest { assert IsOldest(w.chain, a, oldest[a].key); }
  }

  lemma CollectOne(w: World, counters: Counters, stop: bool, batch: Batch, duplicates: seq<Key>, done: set<Key>, a: Key)
    requires Underway(w, counters, duplicates) && Collected(w, counters, stop, batch, duplicates, done) && a !in done
    ensures var write := WriteFor(w, counters, stop, a);
            Collected(w, counters, stop, if write.Some? then batch + [write.value] else batch, duplicates, done + {a})
  {
    OwedToOne(w, counters, stop, a);
    var write := WriteFor(w, counters, stop, a);
    forall op | op in batch ensures Some(op) != write {
      assert Wanted(w, counters, stop, duplicates, done, op);
    }
  }

  lemma CollectNothing(w: World, counters: Counters, stop: bool)
    ensures Collected(w, counters, stop, [], [], {})
  {
  }

  lemma CollectDuplicate(w: World, counters: Counters, batch: Batch, duplicates: seq<Key>, k: Key)
    requires Collected(w, counters, false, batch, duplicates, {}) && k !in duplicates
    ensures Collected(w, counters, false, batch + [Delete(k)], duplicates + [k], {})
  {
    assert !Wanted(w, counters, false, duplicates, {}, Delete(k));
  }

  /** Collected for every agreement, the batch is what the protocol's flush orders. */
  lemma CollectedIs(w: World, counters: Counters, stop: bool, batch: Batch, done: set<Key>)
    requires Divided(w.chain, w.memory, counters)
    requires Collected(w, counters, stop, batch, if stop then [] else counters.duplicates, done)
    requires w.memory.Keys <= done && (stop || counters.strays.Keys <= done)
    ensures BatchIs(batch, CountOrders(w, AllOpen(counters), stop))
  {
    var orders := CountOrders(w, AllOpen(counters), stop);
    var duplicates := if stop then [] else counters.duplicates;
    forall op ensures Wanted(w, counters, stop, duplicates, done, op) <==> Ordered(orders, op) {
      WantedIs(w, counters, stop, done, op);
    }
  }

  lemma WantedIs(w: World, counters: Counters, stop: bool, done: set<Key>, op: Operation)
    requires Divided(w.chain, w.memory, counters)
    requires w.memory.Keys <= done && (stop || counters.strays.Keys <= done)
    ensures Wanted(w, counters, stop, if stop then [] else counters.duplicates, done, op)
       <==> Ordered(CountOrders(w, AllOpen(counters), stop), op)
  {
    match op
    case Patch(k, record) => WantedPatch(w, counters, stop, k, record);
    case Delete(k) => WantedDelete(w, counters, stop, k);
    case Create(record) => WantedCreate(w, counters, stop, record);
  }

  lemma WantedPatch(w: World, counters: Counters, stop: bool, k: Key, record: CounterRecord)
    requires Divided(w.chain, w.memory, counters)
    ensures WriteFor(w, counters, stop, record.agreement) == Some(Patch(k, record))
       <==> k in w.chain && PatchFor(w, AllOpen(counters), stop, k) == Some(record)
  {
    var a := record.agreement;
    OpenOf(w.chain, w.memory, counters, a);
    if k in w.chain { OpenOf(w.chain, w.memory, counters, w.chain[k].record.agreement); }
  }

  lemma WantedDelete(w: World, counters: Counters, stop: bool, k: Key)
    requires Divided(w.chain, w.memory, counters)
    ensures (!stop && k in counters.duplicates) || WriteFor(w, counters, stop, Owner(w.chain, Delete(k))) == Some(Delete(k))
       <==> k in w.chain && DeleteFor(w, AllOpen(counters), stop, k)
  {
    OpenOf(w.chain, w.memory, counters, Owner(w.chain, Delete(k)));
  }

  lemma WantedCreate(w: World, counters: Counters, stop: bool, record: CounterRecord)
    requires Divided(w.chain, w.memory, counters)
    ensures WriteFor(w, counters, stop, record.agreement) == Some(Create(record))
       <==> record.agreement in CountOrders(w, AllOpen(counters), stop).creates
            && CountOrders(w, AllOpen(counters), stop).creates[record.agreement] == record
  {
    OpenOf(w.chain, w.memory, counters, record.agreement);
  }

  /** The record read for an agreement is on the chain, open and its own. */
  lemma OpenOf(chain: Chain, memory: Memory, counters: Counters, a: Key)
    requires Divided(chain, memory, counters)
    ensures a in memory ==> (a in AllOpen(counters) <==> a in counters.open)
    ensures a !in memory ==> (a in AllOpen(counters) <==> a in counters.strays)
    ensures a in counters.open ==> AllOpen(counters)[a] == counters.open[a].key && OpenFor(chain, a, counters.open[a].key)
                                   && chain[counters.open[a].key] == counters.open[a].stored
    ensures a in counters.strays ==> AllOpen(counters)[a] == counters.strays[a].key && OpenFor(chain, a, counters.strays[a].key)
                                     && chain[counters.strays[a].key] == counters.strays[a].stored
  {
    var oldest := counters.open + counters.strays;
    if a in oldest { assert IsOldest(chain, a, oldest[a].key); }
  }

  lemma ClosingsNone(w: World, counters: Counters, stop: bool)
    ensures ClosingsIn(w, counters, stop, {}) == map[]
  {
  }

  lemma ClosingsOne(w: World, counters: Counters, stop: bool, done: set<Key>, a: Key)
    requires a in w.memory
    ensures var close := LiveClosing(w, FoundIn(counters.open, a), stop, a);
            ClosingsIn(w, counters, stop, done + {a})
            == if close.Some? then ClosingsIn(w, counters, stop, done)[a := close.value] else ClosingsIn(w, counters, stop, done)
  {
  }

  lemma ClosingIs(w: World, counters: Counters, stop: bool, a: Key)
    requires Divided(w.chain, w.memory, counters) && a in w.memory
    ensures var open := AllOpen(counters);
            LiveClosing(w, FoundIn(counters.open, a), stop, a)
            == if a in open && open[a] in w.chain && PeriodOver(w, stop, w.memory[a], w.chain[open[a]].record)
               then Some(Closing(open[a], w.memory[a].served)) else None
  {
    OpenOf(w.chain, w.memory, counters, a);
  }

  lemma ClosingsAre(w: World, counters: Counters, stop: bool)
    requires Divided(w.chain, w.memory, counters)
    ensures ClosingsIn(w, counters, stop, w.memory.Keys) == ClosingsOf(w, AllOpen(counters), stop)
  {
    hide AllOpen, LiveClosing, FoundIn, Divided, PeriodOver;
    forall a | a in w.memory { ClosingIs(w, counters, stop, a); }
  }

  /* ---------- what a flush asks, and when a period is over ---------- */

  /** Nothing else is asked of the record than to say `meant`, and that is asked unless it says so already. */
  ghost predicate LeavesAs(batch: Batch, k: Key, record: CounterRecord, meant: CounterRecord) {
    && (forall op :: op in batch && (op.Patch? || op.Delete?) && op.key == k ==> op == Patch(k, meant))
    && (record == meant || Patch(k, meant) in batch)
  }

  /** Nothing is asked of the record but its delete. */
  ghost predicate Deletes(batch: Batch, k: Key) {
    Delete(k) in batch && forall op :: op in batch && (op.Patch? || op.Delete?) && op.key == k ==> op == Delete(k)
  }

  /** A period closes exactly when a flush on schedule finds its record open, a count in the entry, and the head a
      period past the opening. */
  ghost predicate ClosesWhenOver(w: World, open: map<Key, Row>, stop: bool, closing: Closings) {
    && (forall a :: a in closing <==>
         && !stop && a in w.memory && a in open && w.memory[a].served > 0
         && w.head >= open[a].stored.record.openedBlock + w.period)
    && forall a :: a in closing ==> closing[a] == Closing(open[a].key, w.memory[a].served)
  }

  /** The record of a live agreement says what was served, closed at this head when its period closes and else as it
      was. */
  ghost predicate SaysServed(w: World, open: map<Key, Row>, closing: Closings, batch: Batch) {
    forall a :: a in w.memory && a in open ==>
      var record := open[a].stored.record;
      LeavesAs(batch, open[a].key, record,
               if a in closing then record.(state := Closed, count := w.memory[a].served, closedBlock := Some(w.head))
               else record.(count := w.memory[a].served))
  }

  /** The record of a live agreement without one. */
  function NewRecord(a: Key, terms: Terms, head: nat): CounterRecord {
    CounterRecord(a, terms.provider, Open, 0, terms.rate, head, None)
  }

  /** A flush on schedule opens one at zero, at this head, for each live agreement that has none; a stop opens none. */
  ghost predicate OpensMissing(w: World, open: map<Key, Row>, stop: bool, batch: Batch) {
    forall record :: Create(record) in batch <==>
      var a := record.agreement;
      !stop && a in w.memory && a !in open && record == NewRecord(a, w.memory[a].terms, w.head)
  }

  /** On schedule a record nobody counts for is closed as it is, or deleted at zero, and younger duplicates are
      deleted; nothing else is, and a stop leaves them all. */
  ghost predicate TidiesUp(w: World, counters: Counters, stop: bool, batch: Batch) {
    && (!stop ==> forall a :: a in counters.strays ==>
          var row := counters.strays[a];
          var record := row.stored.record;
          if record.count == 0 then Deletes(batch, row.key)
          else LeavesAs(batch, row.key, record, record.(state := Closed, closedBlock := Some(w.head))))
    && (!stop ==> forall k :: k in counters.duplicates ==> Deletes(batch, k))
    && (forall op :: op in batch && (op.Patch? || op.Delete?) ==>
          || (op.Patch? && exists a :: a in w.memory && a in counters.open && counters.open[a].key == op.key)
          || (!stop && (op.key in counters.duplicates || exists a :: a in counters.strays && counters.strays[a].key == op.key)))
  }

  lemma ClosingsWhenOver(w: World, counters: Counters, stop: bool)
    requires Divided(w.chain, w.memory, counters)
    ensures ClosesWhenOver(w, counters.open, stop, ClosingsOf(w, AllOpen(counters), stop))
  {
    forall a { OpenOf(w.chain, w.memory, counters, a); }
    hide Divided, AllOpen;
  }

  lemma OpenSays(w: World, counters: Counters, stop: bool, batch: Batch, a: Key)
    requires Divided(w.chain, w.memory, counters) && BatchIs(batch, CountOrders(w, AllOpen(counters), stop))
    requires a in w.memory && a in counters.open
    ensures var row := counters.open[a];
            var record := row.stored.record;
            LeavesAs(batch, row.key, record,
                     if a in ClosingsOf(w, AllOpen(counters), stop)
                     then record.(state := Closed, count := w.memory[a].served, closedBlock := Some(w.head))
                     else record.(count := w.memory[a].served))
  {
    OpenOf(w.chain, w.memory, counters, a);
    var open, k, record := AllOpen(counters), counters.open[a].key, counters.open[a].stored.record;
    var orders, patch := CountOrders(w, open, stop), PatchFor(w, open, stop, k);
    hide Divided, AllOpen;
    assert k !in orders.deletes;
    assert patch.Some? ==> k in orders.patches && orders.patches[k] == patch.value;
    assert patch.None? ==> k !in orders.patches;
    hide CountOrders;
    if patch.Some? { assert Ordered(orders, Patch(k, patch.value)); }
    forall op | op in batch && (op.Patch? || op.Delete?) && op.key == k ensures patch.Some? && op == Patch(k, patch.value) {
      assert Ordered(orders, op);
    }
  }

  lemma StraySays(w: World, counters: Counters, batch: Batch, a: Key)
    requires Divided(w.chain, w.memory, counters) && BatchIs(batch, CountOrders(w, AllOpen(counters), false))
    requires a in counters.strays
    ensures var row := counters.strays[a];
            var record := row.stored.record;
            if record.count == 0 then Deletes(batch, row.key)
            else LeavesAs(batch, row.key, record, record.(state := Closed, closedBlock := Some(w.head)))
  {
    OpenOf(w.chain, w.memory, counters, a);
    var open, k, record := AllOpen(counters), counters.strays[a].key, counters.strays[a].stored.record;
    assert a !in w.memory;
    var orders := CountOrders(w, open, false);
    hide Divided, AllOpen;
    if record.count == 0 {
      assert k in orders.deletes && k !in orders.patches;
      hide CountOrders;
      assert Ordered(orders, Delete(k));
      forall op | op in batch && (op.Patch? || op.Delete?) && op.key == k ensures op == Delete(k) { assert Ordered(orders, op); }
    } else {
      var meant := record.(state := Closed, closedBlock := Some(w.head));
      assert k !in orders.deletes && k in orders.patches && orders.patches[k] == meant;
      hide CountOrders;
      assert Ordered(orders, Patch(k, meant));
      forall op | op in batch && (op.Patch? || op.Delete?) && op.key == k ensures op == Patch(k, meant) { assert Ordered(orders, op); }
    }
  }

  lemma DuplicateSays(w: World, counters: Counters, batch: Batch, k: Key)
    requires Divided(w.chain, w.memory, counters) && BatchIs(batch, CountOrders(w, AllOpen(counters), false))
    requires k in counters.duplicates
    ensures Deletes(batch, k)
  {
    var oldest := counters.open + counters.strays;
    assert k in w.chain && w.chain[k].record.state == Open;
    OpenOf(w.chain, w.memory, counters, w.chain[k].record.agreement);
    assert w.chain[k].record.agreement in oldest && oldest[w.chain[k].record.agreement].key != k;
    var orders := CountOrders(w, AllOpen(counters), false);
    assert k in orders.deletes && k !in orders.patches;
    hide Divided, AllOpen, CountOrders;
    assert Ordered(orders, Delete(k));
    forall op | op in batch && (op.Patch? || op.Delete?) && op.key == k ensures op == Delete(k) { assert Ordered(orders, op); }
  }

  lemma AskedOf(w: World, counters: Counters, stop: bool, batch: Batch, op: Operation)
    requires Divided(w.chain, w.memory, counters) && BatchIs(batch, CountOrders(w, AllOpen(counters), stop))
    requires op in batch && (op.Patch? || op.Delete?)
    ensures || (op.Patch? && exists a :: a in w.memory && a in counters.open && counters.open[a].key == op.key)
            || (!stop && (op.key in counters.duplicates || exists a :: a in counters.strays && counters.strays[a].key == op.key))
  {
    assert Ordered(CountOrders(w, AllOpen(counters), stop), op);
    OpenOf(w.chain, w.memory, counters, w.chain[op.key].record.agreement);
    var a, oldest := w.chain[op.key].record.agreement, counters.open + counters.strays;
    assert a in oldest;
    if oldest[a].key != op.key { assert op.key in counters.duplicates; }
  }

  /** All a flush asks, record by record. */
  lemma FlushAsks(w: World, counters: Counters, stop: bool, batch: Batch)
    requires Divided(w.chain, w.memory, counters) && BatchIs(batch, CountOrders(w, AllOpen(counters), stop))
    ensures SaysServed(w, counters.open, ClosingsOf(w, AllOpen(counters), stop), batch)
    ensures OpensMissing(w, counters.open, stop, batch)
    ensures TidiesUp(w, counters, stop, batch)
  {
    hide Divided, BatchIs, AllOpen, CountOrders, ClosingsOf, LeavesAs, Deletes;
    forall a | a in w.memory && a in counters.open { OpenSays(w, counters, stop, batch, a); }
    if !stop {
      forall a | a in counters.strays { StraySays(w, counters, batch, a); }
      forall k | k in counters.duplicates { DuplicateSays(w, counters, batch, k); }
    }
    forall op | op in batch && (op.Patch? || op.Delete?) { AskedOf(w, counters, stop, batch, op); }
    OpensAre(w, counters, stop, batch);
  }

  lemma OpensAre(w: World, counters: Counters, stop: bool, batch: Batch)
    requires Divided(w.chain, w.memory, counters) && BatchIs(batch, CountOrders(w, AllOpen(counters), stop))
    ensures OpensMissing(w, counters.open, stop, batch)
  {
    var orders := CountOrders(w, AllOpen(counters), stop);
    forall record: CounterRecord { OpenOf(w.chain, w.memory, counters, record.agreement); }
    forall record: CounterRecord ensures Create(record) in batch <==> Ordered(orders, Create(record)) {}
    hide Divided, AllOpen, BatchIs;
  }

  /* ---------- the flush's second batch ---------- */

  function CreatesOnly(creates: map<Key, CounterRecord>): Orders {
    NO_ORDERS.(creates := creates)
  }

  /** Whether the close of `a` is named by an answer. */
  predicate NamedFor(closing: Closings, patched: seq<Key>, a: Key) {
    a in closing && closing[a].counter in patched
  }

  function KeySet(patched: seq<Key>): set<Key> {
    set k | k in patched
  }

  /** The entries with the closes of `done` acknowledged. */
  function AcknowledgedFor(memory: Memory, closing: Closings, patched: seq<Key>, done: set<Key>): (after: Memory)
    ensures after.Keys == memory.Keys
  {
    map a | a in memory :: if a in done then Acknowledged(closing, KeySet(patched), a, memory[a]) else memory[a]
  }

  function SuccessorsFor(memory: Memory, closing: Closings, patched: seq<Key>, head: nat, done: set<Key>)
    : map<Key, CounterRecord>
  {
    map a | a in memory && a in done && NamedFor(closing, patched, a) :: FreshRecord(a, memory[a].terms, head)
  }

  lemma SuccessorsNone(memory: Memory, closing: Closings, patched: seq<Key>, head: nat)
    ensures AcknowledgedFor(memory, closing, patched, {}) == memory
    ensures BatchIs([], CreatesOnly(SuccessorsFor(memory, closing, patched, head, {})))
  {
  }

  lemma SuccessorsOne(memory: Memory, closing: Closings, patched: seq<Key>, head: nat, done: set<Key>, a: Key, batch: Batch)
    requires a !in done && BatchIs(batch, CreatesOnly(SuccessorsFor(memory, closing, patched, head, done)))
    ensures a in memory && NamedFor(closing, patched, a) ==>
              BatchIs(batch + [Create(FreshRecord(a, memory[a].terms, head))],
                      CreatesOnly(SuccessorsFor(memory, closing, patched, head, done + {a})))
    ensures !(a in memory && NamedFor(closing, patched, a)) ==>
              SuccessorsFor(memory, closing, patched, head, done + {a}) == SuccessorsFor(memory, closing, patched, head, done)
  {
    var before, after := SuccessorsFor(memory, closing, patched, head, done), SuccessorsFor(memory, closing, patched, head, done + {a});
    if a in memory && NamedFor(closing, patched, a) {
      assert after == before[a := FreshRecord(a, memory[a].terms, head)] && a !in before;
      var op := Create(FreshRecord(a, memory[a].terms, head));
      assert !Ordered(CreatesOnly(before), op);
      assert forall other: Operation :: Ordered(CreatesOnly(after), other) <==> other == op || Ordered(CreatesOnly(before), other);
    }
  }

  lemma AcknowledgedOne(memory: Memory, closing: Closings, patched: seq<Key>, done: set<Key>, a: Key)
    requires a !in done
    ensures a in memory ==> a in AcknowledgedFor(memory, closing, patched, done)
                            && AcknowledgedFor(memory, closing, patched, done)[a] == memory[a]
    ensures AcknowledgedFor(memory, closing, patched, done + {a})
         == if a in memory
            then AcknowledgedFor(memory, closing, patched, done)[a := Acknowledged(closing, KeySet(patched), a, memory[a])]
            else AcknowledgedFor(memory, closing, patched, done)
  {
  }

  lemma PeriodsEndedAre(w: World, patched: seq<Key>)
    requires w.patched == KeySet(patched)
    ensures AcknowledgedFor(w.memory, w.closing, patched, w.closing.Keys) == PeriodsEnded(w).memory
    ensures CreatesOnly(SuccessorsFor(w.memory, w.closing, patched, w.flushHead, w.closing.Keys)) == PeriodsEnded(w).orders
  {
  }

  /* ---------- the end of agreements ---------- */

  /** An ended agreement is owed a last write when memory held a record for it. */
  predicate Owed(ended: Memory, a: Key) {
    a in ended && ended[a].counter.Some?
  }

  /** The last write of an ended agreement's record. */
  function FinalWrite(a: Key, live: Live, head: nat): Operation
    requires live.counter.Some?
  {
    if live.served == 0 then Delete(live.counter.value.key)
    else Patch(live.counter.value.key, FinalRecord(a, live, head))
  }

  /** The last writes of the agreements of `done`, each once. */
  ghost predicate FinalBatch(ended: Memory, head: nat, done: set<Key>, batch: Batch) {
    && NoRepeats(batch)
    && (forall op :: op in batch ==> exists a :: a in done && Owed(ended, a) && FinalWrite(a, ended[a], head) == op)
    && (forall a :: a in done && Owed(ended, a) ==> FinalWrite(a, ended[a], head) in batch)
  }

  lemma FinalNone(ended: Memory, head: nat)
    ensures FinalBatch(ended, head, {}, [])
  {
  }

  lemma FinalOne(ended: Memory, head: nat, done: set<Key>, batch: Batch, a: Key)
    requires HeldApart(ended) && FinalBatch(ended, head, done, batch) && Owed(ended, a) && a !in done
    ensures FinalBatch(ended, head, done + {a}, batch + [FinalWrite(a, ended[a], head)])
  {
    var op := FinalWrite(a, ended[a], head);
    forall other | other in batch ensures other != op {
      var b :| b in done && Owed(ended, b) && FinalWrite(b, ended[b], head) == other;
      if other == op { assert HoldsRecord(ended, a, op.key) && HoldsRecord(ended, b, op.key); }
    }
    NoRepeatsPush(batch, op);
    assert Owed(ended, a);
  }

  /** The last writes, as orders. */
  function FinalsOf(ended: Memory, head: nat): Orders
    requires HeldApart(ended)
  {
    Orders(
      (assert forall a, b :: Owed(ended, a) && Owed(ended, b) && ended[a].counter.value.key == ended[b].counter.value.key
                ==> HoldsRecord(ended, a, ended[a].counter.value.key) && HoldsRecord(ended, b, ended[a].counter.value.key);
       map a | a in ended && Owed(ended, a) && ended[a].served > 0
         :: ended[a].counter.value.key := FinalRecord(a, ended[a], head)),
      set a | a in ended && Owed(ended, a) && ended[a].served == 0 :: ended[a].counter.value.key,
      map[])
  }

  lemma FinalOrdered(ended: Memory, head: nat, a: Key)
    requires HeldApart(ended) && Owed(ended, a)
    ensures Ordered(FinalsOf(ended, head), FinalWrite(a, ended[a], head))
  {
    var orders, k := FinalsOf(ended, head), ended[a].counter.value.key;
    assert HoldsRecord(ended, a, k);
    if ended[a].served > 0 {
      assert k in orders.patches;
      var b :| b in ended && Owed(ended, b) && ended[b].served > 0 && ended[b].counter.value.key == k
               && orders.patches[k] == FinalRecord(b, ended[b], head);
      assert HoldsRecord(ended, b, k);
    }
  }

  lemma OrderedFinal(ended: Memory, head: nat, op: Operation)
    requires HeldApart(ended) && Ordered(FinalsOf(ended, head), op)
    ensures exists a :: Owed(ended, a) && FinalWrite(a, ended[a], head) == op
  {
    var orders := FinalsOf(ended, head);
    match op
    case Patch(k, record) =>
      var a :| a in ended && Owed(ended, a) && ended[a].served > 0 && ended[a].counter.value.key == k
               && orders.patches[k] == FinalRecord(a, ended[a], head);
      assert FinalWrite(a, ended[a], head) == op;
    case Delete(k) =>
      var a :| a in ended && Owed(ended, a) && ended[a].served == 0 && ended[a].counter.value.key == k;
      assert FinalWrite(a, ended[a], head) == op;
    case Create(record) =>
  }

  lemma FinalBatchIs(ended: Memory, head: nat, batch: Batch)
    requires HeldApart(ended) && FinalBatch(ended, head, ended.Keys, batch)
    ensures BatchIs(batch, FinalsOf(ended, head))
  {
    hide FinalsOf, FinalWrite, Ordered, HeldApart;
    forall op | op in batch ensures Ordered(FinalsOf(ended, head), op) {
      var a :| a in ended && Owed(ended, a) && FinalWrite(a, ended[a], head) == op;
      FinalOrdered(ended, head, a);
    }
    forall op | Ordered(FinalsOf(ended, head), op) ensures op in batch {
      OrderedFinal(ended, head, op);
      var a :| Owed(ended, a) && FinalWrite(a, ended[a], head) == op;
    }
  }

  /** The last writes of the agreements that are gone are the ones the protocol lets an end send. */
  lemma FinalsAre(memory: Memory, gone: set<Key>, ended: Memory, head: nat)
    requires HeldApart(memory) && HeldApart(ended)
    requires ended == map a | a in memory && a in gone && memory[a].counter.Some? :: memory[a]
    ensures FinalOrders(memory, gone, head, FinalsOf(ended, head))
  {
    var orders := FinalsOf(ended, head);
    forall k | k in orders.patches
      ensures exists a :: EndedWith(memory, gone, a, k) && memory[a].served > 0
                          && orders.patches[k] == FinalRecord(a, memory[a], head)
    {
      var a :| a in ended && Owed(ended, a) && ended[a].served > 0 && ended[a].counter.value.key == k;
      assert EndedWith(memory, gone, a, k);
    }
    forall k | k in orders.deletes ensures exists a :: EndedWith(memory, gone, a, k) && memory[a].served == 0 {
      var a :| a in ended && Owed(ended, a) && ended[a].served == 0 && ended[a].counter.value.key == k;
      assert EndedWith(memory, gone, a, k);
    }
    forall a, k | EndedWith(memory, gone, a, k) ensures k in orders.patches || k in orders.deletes {
      assert Owed(ended, a);
    }
  }
}

/** The agent's own code for the counters: what it does to memory, in the form the source has, against the
    steps of the protocol. */
module CounterAgent {
  import opened Basics
  import opened CounterRecords
  import opened CounterProtocol
  import opened CounterReads
  import opened CounterBatches
  import opened Pool
  import Settings

  datatype ReadError = Unread | TooMany(count: nat)

  /** One live agreement: its terms, its provider's entry, and the record it counts into. */
  datatype LiveEntry = LiveEntry(terms: Terms, provider: Provider, counter: Option<OpenCounter>)

  function Settled(live: Live, count: nat): Live {
    live.(served := SaturatingSub(live.served, count), counter := None)
  }

  /** Memory held a record for `a`, and none of its agreement is open on the chain. */
  predicate Missing(memory: Memory, open: map<Key, Row>, a: Key) {
    a in memory && a !in open && memory[a].counter.Some?
  }

  function CountsClosed(chain: Chain, open: map<Key, Row>, memory: Memory): map<Key, nat> {
    map a | a in memory && Missing(memory, open, a) && ClosedOn(chain, memory[a].counter.value.key)
      :: chain[memory[a].counter.value.key].record.count
  }

  /** The agreements of `done` settled. */
  function SettledAll(memory: Memory, counts: map<Key, nat>, done: set<Key>): Memory {
    map a | a in memory :: if a in done && a in counts then Settled(memory[a], counts[a]) else memory[a]
  }

  lemma SettledNone(memory: Memory, counts: map<Key, nat>)
    ensures SettledAll(memory, counts, {}) == memory
  {
  }

  lemma SettledOne(memory: Memory, counts: map<Key, nat>, done: set<Key>, a: Key)
    requires a in memory && a !in done && a in counts
    ensures a in SettledAll(memory, counts, done) && SettledAll(memory, counts, done)[a] == memory[a]
    ensures SettledAll(memory, counts, done)[a := Settled(memory[a], counts[a])] == SettledAll(memory, counts, done + {a})
  {
  }

  function ForgottenAll(chain: Chain, open: map<Key, Key>, memory: Memory): Memory {
    map a | a in memory :: Forgotten(chain, open, a, memory[a])
  }

  lemma ForgottenIs(chain: Chain, open: map<Key, Row>, memory: Memory)
    ensures var counts := CountsClosed(chain, open, memory);
            && counts.Keys <= memory.Keys
            && SettledAll(memory, counts, counts.Keys) == ForgottenAll(chain, KeysOf(open), memory)
  {
  }

  function OpenCounterOf(found: Option<Row>): Option<OpenCounter> {
    match found
    case None => None
    case Some(row) => Some(OpenCounter(row.key, row.stored.record.openedBlock))
  }

  /** An entry given the record it counts into: the record's count is taken in only when memory held none. */
  function MatchedTo(found: Option<Row>, live: Live): Live {
    live.(served := live.served + (if live.counter.None? && found.Some? then found.value.stored.record.count else 0),
          counter := OpenCounterOf(found))
  }

  /** The agreements of `done` given their records. */
  function MatchedAll(oldest: map<Key, Row>, memory: Memory, done: set<Key>): Memory {
    map a | a in memory :: if a in done then MatchedTo(FoundIn(oldest, a), memory[a]) else memory[a]
  }

  function Within(oldest: map<Key, Row>, keys: set<Key>): map<Key, Row> {
    map a | a in oldest && a in keys :: oldest[a]
  }

  lemma WithinNone(oldest: map<Key, Row>)
    ensures Within(oldest, {}) == map[] && oldest - {} == oldest
  {
  }

  lemma WithinOne(oldest: map<Key, Row>, done: set<Key>, a: Key)
    requires a !in done
    ensures a in oldest ==> Within(oldest, done + {a}) == Within(oldest, done)[a := oldest[a]]
    ensures a !in oldest ==> Within(oldest, done + {a}) == Within(oldest, done)
    ensures FoundIn(oldest - done, a) == FoundIn(oldest, a)
    ensures (oldest - done) - {a} == oldest - (done + {a})
  {
  }

  lemma MatchedNone(oldest: map<Key, Row>, memory: Memory)
    ensures MatchedAll(oldest, memory, {}) == memory
  {
  }

  lemma MatchedOne(oldest: map<Key, Row>, memory: Memory, done: set<Key>, a: Key)
    requires a in memory && a !in done
    ensures a in MatchedAll(oldest, memory, done) && MatchedAll(oldest, memory, done)[a] == memory[a]
    ensures MatchedAll(oldest, memory, done)[a := MatchedTo(FoundIn(oldest, a), memory[a])]
         == MatchedAll(oldest, memory, done + {a})
  {
  }

  ghost predicate NothingOpen(chain: Chain, memory: Memory, a: Key) {
    a in memory && memory[a].counter.Some? && forall k :: !OpenFor(chain, a, k)
  }

  /** Every record the reconcile has to read one by one could be: those memory held for agreements that
      have nothing open on the chain. */
  ghost predicate AllRead(chain: Chain, memory: Memory, unreadable: set<Key>) {
    forall a :: NothingOpen(chain, memory, a) ==> memory[a].counter.value.key !in unreadable
  }

  lemma AllReadIs(chain: Chain, oldest: map<Key, Row>, duplicates: seq<Key>, memory: Memory, unreadable: set<Key>)
    requires SplitOf(chain, oldest, duplicates)
    ensures AllRead(chain, memory, unreadable)
       <==> forall a :: Missing(memory, oldest, a) ==> memory[a].counter.value.key !in unreadable
  {
    forall a ensures a in oldest <==> exists k :: OpenFor(chain, a, k) { MissingIs(chain, oldest, duplicates, a); }
  }

  lemma DividedAs(chain: Chain, memory: Memory, oldest: map<Key, Row>, duplicates: seq<Key>)
    requires SplitOf(chain, oldest, duplicates)
    ensures Divided(chain, memory, Counters(Within(oldest, memory.Keys), duplicates, oldest - memory.Keys))
    ensures AllOpen(Counters(Within(oldest, memory.Keys), duplicates, oldest - memory.Keys)) == KeysOf(oldest)
    ensures ReadOf(chain, KeysOf(oldest))
  {
    assert Within(oldest, memory.Keys) + (oldest - memory.Keys) == oldest;
  }

  /** Forgetting and matching is what the protocol calls the reconcile. */
  lemma ReconciledIs(chain: Chain, oldest: map<Key, Row>, duplicates: seq<Key>, memory: Memory)
    requires SplitOf(chain, oldest, duplicates)
    ensures var forgotten := ForgottenAll(chain, KeysOf(oldest), memory);
            MatchedAll(oldest, forgotten, memory.Keys) == Reconciled(chain, KeysOf(oldest), memory)
    ensures InStep(chain, KeysOf(oldest), Reconciled(chain, KeysOf(oldest), memory))
  {
    var forgotten := ForgottenAll(chain, KeysOf(oldest), memory);
    forall a | a in memory
      ensures MatchedTo(FoundIn(oldest, a), forgotten[a]) == Matched(chain, KeysOf(oldest), a, forgotten[a])
    {
      if a in oldest { assert IsOldest(chain, a, oldest[a].key); }
    }
  }

  lemma MissingIs(chain: Chain, oldest: map<Key, Row>, duplicates: seq<Key>, a: Key)
    requires SplitOf(chain, oldest, duplicates)
    ensures a in oldest <==> exists k :: OpenFor(chain, a, k)
  {
    if a in oldest { assert OpenFor(chain, a, oldest[a].key); }
  }

  function EndedOf(memory: Memory, live: set<Key>): Memory {
    map a | a in memory && a !in live && memory[a].counter.Some? :: memory[a]
  }

  function EndedAmong(memory: Memory, done: set<Key>): Memory {
    map a | a in memory && a in done && memory[a].counter.Some? :: memory[a]
  }

  lemma NoneEnded(memory: Memory)
    ensures EndedAmong(memory, {}) == map[] && memory - {} == memory
  {
  }

  lemma OneEnded(memory: Memory, done: set<Key>, a: Key)
    requires a in memory && a !in done
    ensures EndedAmong(memory, done + {a})
         == if memory[a].counter.Some? then EndedAmong(memory, done)[a := memory[a]] else EndedAmong(memory, done)
    ensures a in memory - done && (memory - done)[a] == memory[a] && memory - done - {a} == memory - (done + {a})
  {
  }

  lemma EndedIs(memory: Memory, live: set<Key>)
    ensures EndedAmong(memory, memory.Keys - live) == EndedOf(memory, live)
  {
  }

  /** An agreement record read from the chain. */
  datatype AgreementRow = AgreementRow(key: Key, terms: Terms)

  predicate Adoptable(memory: Memory, row: AgreementRow) {
    row.key !in memory && forall other :: other in memory.Keys ==> memory[other].terms.provider != row.terms.provider
  }

  function AdoptedAll(memory: Memory, rows: seq<AgreementRow>): Memory {
    if rows == [] then memory
    else
      var before, row := AdoptedAll(memory, rows[..|rows| - 1]), rows[|rows| - 1];
      if Adoptable(before, row) then before[row.key := Live(row.terms, 0, None)] else before
  }

  /** Memory after one close of the flush. */
  function EndedOne(memory: Memory, a: Key, close: Closing, patched: seq<Key>): Memory {
    if close.counter in patched && a in memory then memory[a := Settled(memory[a], close.count)] else memory
  }

  function SuccessorOf(memory: Memory, a: Key, close: Closing, patched: seq<Key>, head: nat): Batch {
    if close.counter in patched && a in memory then [Create(FreshRecord(a, memory[a].terms, head))] else []
  }

  lemma EndedNext(memory: Memory, closing: Closings, patched: seq<Key>, head: nat, done: set<Key>, a: Key, batch: Batch)
    requires a !in done && a in closing
    requires BatchIs(batch, CreatesOnly(SuccessorsFor(memory, closing, patched, head, done)))
    ensures var acknowledged := AcknowledgedFor(memory, closing, patched, done);
            && EndedOne(acknowledged, a, closing[a], patched) == AcknowledgedFor(memory, closing, patched, done + {a})
            && BatchIs(batch + SuccessorOf(acknowledged, a, closing[a], patched, head),
                       CreatesOnly(SuccessorsFor(memory, closing, patched, head, done + {a})))
  {
    SuccessorsOne(memory, closing, patched, head, done, a, batch);
    AcknowledgedOne(memory, closing, patched, done, a);
    hide BatchIs, SuccessorsFor, AcknowledgedFor;
    assert batch + [] == batch;
    assert AcknowledgedFor(memory, closing, patched, done).Keys == memory.Keys;
  }

  /** What an answered close takes from an entry: its count, cut off at zero, and the record it held. */
  ghost predicate PeriodsSettled(before: Memory, after: Memory, closing: Closings, patched: seq<Key>) {
    && after.Keys == before.Keys
    && forall a :: a in before ==>
         after[a] == if a in closing && closing[a].counter in patched
                     then Live(before[a].terms, if before[a].served >= closing[a].count then before[a].served - closing[a].count else 0, None)
                     else before[a]
  }

  /** The successor an answered close is followed by. */
  predicate Follows(memory: Memory, closing: Closings, patched: seq<Key>, head: nat, op: Operation) {
    && op.Create? && op.record.agreement in memory && op.record.agreement in closing
    && closing[op.record.agreement].counter in patched
    && op.record == NewRecord(op.record.agreement, memory[op.record.agreement].terms, head)
  }

  lemma PeriodsEndedSays(w: World, patched: seq<Key>, head: nat)
    requires w.patched == KeySet(patched) && w.flushHead == head
    ensures PeriodsSettled(w.memory, PeriodsEnded(w).memory, w.closing, patched)
    ensures forall batch: Batch :: BatchIs(batch, PeriodsEnded(w).orders) ==>
              forall op :: op in batch <==> Follows(w.memory, w.closing, patched, head, op)
  {
  }

  /** What a reconcile makes of each entry's count: the count of the record it held, when that is closed on the chain
      and no other is open, leaves it; the count of the open one enters it, when it held none. */
  ghost predicate CountsMoved(chain: Chain, open: map<Key, Row>, before: Memory, after: Memory) {
    after.Keys == before.Keys && forall a :: a in before ==> CountMoved(chain, open, a, before[a], after[a])
  }

  /** One entry's part of it. */
  predicate CountMoved(chain: Chain, open: map<Key, Row>, a: Key, before: Live, after: Live) {
    var held := before.counter;
    && after.terms == before.terms
    && (a in open ==>
         && after.counter == Some(OpenCounter(open[a].key, open[a].stored.record.openedBlock))
         && after.served == before.served + (if held.None? then open[a].stored.record.count else 0))
    && (a !in open ==>
         && after.counter == None
         && after.served ==
            if held.Some? && held.value.key in chain && chain[held.value.key].record.state == Closed
            then SaturatingSub(before.served, chain[held.value.key].record.count) else before.served)
  }

  lemma MatchedMoves(chain: Chain, open: map<Key, Row>, keys: map<Key, Key>, a: Key, live: Live)
    requires a in keys <==> a in open
    requires a in open ==> keys[a] == open[a].key && keys[a] in chain && chain[keys[a]] == open[a].stored
    ensures CountMoved(chain, open, a, live, Matched(chain, keys, a, Forgotten(chain, keys, a, live)))
  {
  }

  lemma ReconciledMoves(chain: Chain, memory: Memory, after: Memory, counters: Counters)
    requires Divided(chain, after, counters) && after.Keys == memory.Keys
    ensures CountsMoved(chain, counters.open, memory, Reconciled(chain, AllOpen(counters), memory))
  {
    hide Divided, AllOpen, CountMoved, Matched, Forgotten;
    var moved := Reconciled(chain, AllOpen(counters), memory);
    forall a | a in memory ensures CountMoved(chain, counters.open, a, memory[a], moved[a]) {
      OpenOf(chain, after, counters, a);
      MatchedMoves(chain, counters.open, AllOpen(counters), a, memory[a]);
      assert moved[a] == Matched(chain, AllOpen(counters), a, Forgotten(chain, AllOpen(counters), a, memory[a]));
    }
  }

  class Agent {
    var agreements: map<Key, LiveEntry>
    const period: nat

    constructor (period: nat)
      ensures this.period == period && Valid() && Shown() == map[]
    {
      this.period := period;
      agreements := map[];
    }

    /** No two agreements share an entry. */
    ghost predicate Valid()
      reads this`agreements
    {
      forall a, b :: a in agreements && b in agreements && a != b ==> agreements[a].provider != agreements[b].provider
    }

    ghost function Providers(): (providers: map<Key, Provider>)
      reads this`agreements
      ensures providers.Keys == agreements.Keys
      ensures forall a :: a in agreements ==> providers[a] == agreements[a].provider
    {
      map a | a in agreements :: agreements[a].provider
    }

    ghost function Entries(): (entries: set<Provider>)
      reads this`agreements
      ensures entries == Providers().Values
    {
      Providers().Values
    }

    /** What the protocol sees of this memory. */
    ghost function Shown(): (memory: Memory)
      reads this`agreements, Entries()
      ensures memory.Keys == agreements.Keys
    {
      map a | a in agreements :: Live(agreements[a].terms, Providers()[a].served, agreements[a].counter)
    }

    /** One agreement's period is written: its count leaves the entry, and memory holds no record. */
    method Settle(a: Key, count: nat)
      requires Valid() && a in agreements
      modifies this`agreements, agreements[a].provider`served
      ensures Valid() && Providers() == old(Providers())
      ensures Shown() == old(Shown())[a := Settled(old(Shown()[a]), count)]
    {
      agreements[a].provider.SubtractServed(count);
      agreements := agreements[a := agreements[a].(counter := None)];
    }

    /** The counts of the records memory held that are no longer among the open ones and are closed on the
        chain; nothing when one of them could not be read. */
    method ClosedCounts(chain: Chain, unreadable: set<Key>, open: map<Key, Row>) returns (closed: Option<map<Key, nat>>)
      ensures closed.Some? <==> forall a :: Missing(Shown(), open, a) ==> Shown()[a].counter.value.key !in unreadable
      ensures closed.Some? ==> closed.value == CountsClosed(chain, open, Shown())
    {
      var missing := set a | a in agreements && a !in open && agreements[a].counter.Some?;
      var counts: map<Key, nat> := map[];
      var left := missing;
      while left != {}
        invariant left <= missing
        invariant forall a :: a in missing - left ==> agreements[a].counter.value.key !in unreadable
        invariant counts.Keys == set a | a in missing - left && ClosedOn(chain, agreements[a].counter.value.key)
        invariant forall a :: a in counts ==> counts[a] == chain[agreements[a].counter.value.key].record.count
      {
        var a :| a in left;
        var k := agreements[a].counter.value.key;
        if k in unreadable {
          assert Missing(Shown(), open, a);
          return None;
        }
        if ClosedOn(chain, k) { counts := counts[a := chain[k].record.count]; }
        left := left - {a};
      }
      return Some(counts);
    }

    method SettleAll(closed: map<Key, nat>)
      requires Valid() && closed.Keys <= agreements.Keys
      modifies this`agreements, Entries()`served
      ensures Valid() && Providers() == old(Providers())
      ensures Shown() == SettledAll(old(Shown()), closed, closed.Keys)
    {
      hide *;
      ghost var before, providers := Shown(), Providers();
      SettledNone(before, closed);
      ghost var done := {};
      var left := closed.Keys;
      while left != {}
        invariant left <= closed.Keys <= providers.Keys && done == closed.Keys - left
        invariant Valid() && Providers() == providers
        invariant Shown() == SettledAll(before, closed, done)
      {
        var a :| a in left;
        SettledOne(before, closed, done, a);
        Settle(a, closed[a]);
        done, left := done + {a}, left - {a};
      }
      assert done == closed.Keys;
    }

    /** The records memory held that are no longer among the open ones and are closed on the chain: their
        counts leave the entries. Every read comes first, so a read that fails changes nothing. */
    method ForgetClosedCounters(chain: Chain, unreadable: set<Key>, open: map<Key, Row>) returns (ok: bool)
      requires Valid()
      modifies this`agreements, Entries()`served
      ensures Valid() && Providers() == old(Providers())
      ensures ok <==> forall a :: Missing(old(Shown()), open, a) ==> old(Shown())[a].counter.value.key !in unreadable
      ensures Shown() == if ok then ForgottenAll(chain, KeysOf(open), old(Shown())) else old(Shown())
    {
      hide SettledAll, ForgottenAll, CountsClosed, Missing;
      var closed := ClosedCounts(chain, unreadable, open);
      if closed.None? { return false; }
      ForgottenIs(chain, open, Shown());
      SettleAll(closed.value);
      return true;
    }

    /** Gives one agreement the open record it counts into, or none. */
    method Match(a: Key, found: Option<Row>)
      requires Valid() && a in agreements
      modifies this`agreements, agreements[a].provider`served
      ensures Valid() && Providers() == old(Providers())
      ensures Shown() == old(Shown())[a := MatchedTo(found, old(Shown()[a]))]
    {
      if agreements[a].counter.None? && found.Some? {
        agreements[a].provider.SeedServed(found.value.stored.record.count);
      }
      assert agreements[a].provider.served == MatchedTo(found, old(Shown()[a])).served;
      agreements := agreements[a := agreements[a].(counter := OpenCounterOf(found))];
    }

    /** Gives each agreement in memory the open record it counts into. Returns those records, and the ones
        no agreement in memory took. */
    method MatchToAgreements(oldest: map<Key, Row>) returns (open: map<Key, Row>, strays: map<Key, Row>)
      requires Valid()
      modifies this`agreements, Entries()`served
      ensures Valid() && Providers() == old(Providers())
      ensures Shown() == MatchedAll(oldest, old(Shown()), old(Shown()).Keys)
      ensures open == Within(oldest, agreements.Keys) && strays == oldest - agreements.Keys
    {
      hide *;
      ghost var before, providers := Shown(), Providers();
      MatchedNone(oldest, before);
      WithinNone(oldest);
      ghost var done := {};
      open, strays := map[], oldest;
      var left := agreements.Keys;
      while left != {}
        invariant left <= before.Keys && done == before.Keys - left
        invariant Valid() && Providers() == providers
        invariant Shown() == MatchedAll(oldest, before, done)
        invariant open == Within(oldest, done) && strays == oldest - done
      {
        var a :| a in left;
        MatchedOne(oldest, before, done, a);
        WithinOne(oldest, done, a);
        Match(a, FoundIn(strays, a));
        if a in strays { open := open[a := strays[a]]; }
        strays := strays - {a};
        done, left := done + {a}, left - {a};
      }
      assert done == before.Keys;
    }

    /** Matches the open counter records on the chain to the agreements in memory. `count` and `page` are
        what two reads answered, `unreadable` the records a later read fails on. */
    method ReconcileCounters(chain: Chain, count: Option<nat>, page: Option<seq<Row>>, unreadable: set<Key>)
      returns (counters: Result<Counters, ReadError>)
      requires Valid() && (page.Some? ==> PageOf(chain, page.value))
      modifies this`agreements, Entries()`served
      ensures Valid() && Providers() == old(Providers())
      ensures counters.Ok? <==> count.Some? && count.value <= Settings.PAGE_LIMIT && page.Some? && AllRead(chain, old(Shown()), unreadable)
      ensures counters.Err? ==> Shown() == old(Shown())
      ensures counters.Ok? ==>
                && Divided(chain, Shown(), counters.value) && ReadOf(chain, AllOpen(counters.value))
                && Shown() == Reconciled(chain, AllOpen(counters.value), old(Shown()))
                && InStep(chain, AllOpen(counters.value), Shown())
      ensures counters.Ok? ==> CountsMoved(chain, counters.value.open, old(Shown()), Shown())
    {
      hide *;
      if count.None? { return Err(Unread); }
      if count.value > Settings.PAGE_LIMIT { return Err(TooMany(count.value)); }
      if page.None? { return Err(Unread); }
      ghost var before := Shown();
      var oldest, duplicates := OldestPerAgreement(chain, page.value);
      AllReadIs(chain, oldest, duplicates, before, unreadable);
      var forgot := ForgetClosedCounters(chain, unreadable, oldest);
      if !forgot { return Err(Unread); }
      var open, strays := MatchToAgreements(oldest);
      ReconciledIs(chain, oldest, duplicates, before);
      DividedAs(chain, Shown(), oldest, duplicates);
      ReconciledMoves(chain, before, Shown(), Counters(open, duplicates, strays));
      return Ok(Counters(open, duplicates, strays));
    }

    /** What one live agreement's record is owed, and the period its write closes. */
    method WriteCount(a: Key, counters: Counters, head: nat, stop: bool, ghost w: World)
      returns (write: Option<Operation>, close: Option<Closing>)
      requires a in agreements && w.memory == Shown() && w.head == head && w.period == period
      ensures write == LiveWrite(w, FoundIn(counters.open, a), stop, a)
      ensures close == LiveClosing(w, FoundIn(counters.open, a), stop, a)
      ensures close.Some? <==>
                && !stop && a in counters.open && agreements[a].provider.served > 0
                && head >= counters.open[a].stored.record.openedBlock + period
      ensures a in counters.open ==>
                var row, served := counters.open[a], agreements[a].provider.served;
                var record := row.stored.record;
                if close.Some?
                then close == Some(Closing(row.key, served))
                     && write == Some(Patch(row.key, record.(state := Closed, count := served, closedBlock := Some(head))))
                else write == if record.count == served then None else Some(Patch(row.key, record.(count := served)))
      ensures a !in counters.open ==> write == if stop then None else Some(Create(NewRecord(a, agreements[a].terms, head)))
    {
      var served, terms := agreements[a].provider.served, agreements[a].terms;
      write, close := None, None;
      if a in counters.open {
        var row := counters.open[a];
        var record := row.stored.record;
        if !stop && served > 0 && head >= record.openedBlock + period {
          write, close := Some(Patch(row.key, ClosedWith(record, served, head))), Some(Closing(row.key, served));
        } else if record.count != served {
          write := Some(Patch(row.key, Counted(record, served)));
        }
      } else if !stop {
        write := Some(Create(CounterRecord(a, terms.provider, Open, 0, terms.rate, head, None)));
      }
    }

    /** The deletes and closes of the records no live agreement counts into. */
    method CleanUp(counters: Counters, head: nat, ghost w: World) returns (batch: Batch)
      requires Divided(w.chain, Shown(), counters) && w.memory == Shown() && w.head == head
      ensures Collected(w, counters, false, batch, counters.duplicates, counters.strays.Keys)
    {
      hide Shown, Collected, StrayWrite;
      batch := [];
      CollectNothing(w, counters, false);
      for i := 0 to |counters.duplicates|
        invariant Collected(w, counters, false, batch, counters.duplicates[..i], {})
      {
        CollectDuplicate(w, counters, batch, counters.duplicates[..i], counters.duplicates[i]);
        batch := batch + [Delete(counters.duplicates[i])];
        assert counters.duplicates[..i + 1] == counters.duplicates[..i] + [counters.duplicates[i]];
      }
      assert counters.duplicates[..|counters.duplicates|] == counters.duplicates;
      var left := counters.strays.Keys;
      assert counters.strays.Keys - left == {};
      while left != {}
        invariant left <= counters.strays.Keys
        invariant Collected(w, counters, false, batch, counters.duplicates, counters.strays.Keys - left)
      {
        var a :| a in left;
        var row := counters.strays[a];
        CollectOne(w, counters, false, batch, counters.duplicates, counters.strays.Keys - left, a);
        batch := batch + [StrayWrite(row, head)];
        assert counters.strays.Keys - (left - {a}) == counters.strays.Keys - left + {a};
        left := left - {a};
      }
      assert counters.strays.Keys - {} == counters.strays.Keys;
    }

    /** The first batch: what every open counter record is owed, and the closes it asks for. */
    method CountsBatch(counters: Counters, head: nat, stop: bool, ghost w: World) returns (batch: Batch, closing: Closings)
      requires Divided(w.chain, Shown(), counters)
      requires w.memory == Shown() && w.head == head && w.period == period
      ensures BatchIs(batch, CountOrders(w, AllOpen(counters), stop))
      ensures closing == ClosingsOf(w, AllOpen(counters), stop)
      ensures ClosesWhenOver(w, counters.open, stop, closing)
      ensures SaysServed(w, counters.open, closing, batch)
      ensures OpensMissing(w, counters.open, stop, batch)
      ensures TidiesUp(w, counters, stop, batch)
    {
      hide ClosesWhenOver, SaysServed, OpensMissing, TidiesUp;
      hide Collected, CountOrders, ClosingsOf, ClosingsIn, LiveWrite, LiveClosing, BatchIs, SplitOf, AllOpen;
      batch, closing := [], map[];
      ghost var duplicates, done := [], {};
      if stop {
        CollectNothing(w, counters, true);
      } else {
        batch := CleanUp(counters, head, w);
        duplicates, done := counters.duplicates, counters.strays.Keys;
      }
      ClosingsNone(w, counters, stop);
      var left := agreements.Keys;
      assert w.memory.Keys - left == {} && done + {} == done;
      while left != {}
        invariant left <= w.memory.Keys == agreements.Keys && w.memory == Shown() && Underway(w, counters, duplicates)
        invariant Collected(w, counters, stop, batch, duplicates, done + (w.memory.Keys - left))
        invariant closing == ClosingsIn(w, counters, stop, w.memory.Keys - left)
      {
        var a :| a in left;
        CollectOne(w, counters, stop, batch, duplicates, done + (w.memory.Keys - left), a);
        ClosingsOne(w, counters, stop, w.memory.Keys - left, a);
        var write, close := WriteCount(a, counters, head, stop, w);
        if write.Some? { batch := batch + [write.value]; }
        if close.Some? { closing := closing[a := close.value]; }
        assert done + (w.memory.Keys - (left - {a})) == done + (w.memory.Keys - left) + {a};
        assert w.memory.Keys - (left - {a}) == w.memory.Keys - left + {a};
        left := left - {a};
      }
      assert w.memory.Keys - {} == w.memory.Keys;
      CollectedIs(w, counters, stop, batch, done + w.memory.Keys);
      ClosingsAre(w, counters, stop);
      ClosingsWhenOver(w, counters, stop);
      FlushAsks(w, counters, stop, batch);
    }

    /** One close of the flush: if it was answered, its count leaves the entry, what was served while the
        write was in flight stays for the next period, and the successor is due. */
    method EndPeriod(a: Key, close: Closing, patched: seq<Key>, head: nat) returns (successor: Batch)
      requires Valid()
      modifies this`agreements, Entries()`served
      ensures Valid() && Providers() == old(Providers())
      ensures Shown() == EndedOne(old(Shown()), a, close, patched)
      ensures successor == SuccessorOf(old(Shown()), a, close, patched, head)
    {
      if close.counter !in patched || a !in agreements { return []; }
      var terms := agreements[a].terms;
      Settle(a, close.count);
      return [Create(CounterRecord(a, terms.provider, Open, 0, terms.rate, head, None))];
    }

    /** The second batch: a successor for every close that was answered. */
    method EndPeriods(closing: Closings, patched: seq<Key>, head: nat, ghost w: World) returns (successors: Batch)
      requires Valid() && w.memory == Shown() && w.closing == closing && w.patched == KeySet(patched) && w.flushHead == head
      modifies this`agreements, Entries()`served
      ensures Valid() && Providers() == old(Providers())
      ensures Shown() == PeriodsEnded(w).memory
      ensures BatchIs(successors, PeriodsEnded(w).orders)
      ensures PeriodsSettled(old(Shown()), Shown(), closing, patched)
      ensures forall op :: op in successors <==> Follows(old(Shown()), closing, patched, head, op)
    {
      PeriodsEndedSays(w, patched, head);
      hide *;
      ghost var before, providers := Shown(), Providers();
      PeriodsEndedAre(w, patched);
      SuccessorsNone(before, closing, patched, head);
      successors := [];
      ghost var done := {};
      var left := closing.Keys;
      while left != {}
        invariant left <= closing.Keys && done == closing.Keys - left
        invariant Valid() && Providers() == providers
        invariant Shown() == AcknowledgedFor(before, closing, patched, done)
        invariant BatchIs(successors, CreatesOnly(SuccessorsFor(before, closing, patched, head, done)))
      {
        var a :| a in left;
        EndedNext(before, closing, patched, head, done, a, successors);
        var successor := EndPeriod(a, closing[a], patched, head);
        successors := successors + successor;
        done, left := done + {a}, left - {a};
      }
      assert done == closing.Keys;
    }

    /** One agreement leaves memory. Returns it with everything its entry holds. */
    method End(a: Key) returns (over: Live)
      requires Valid() && a in agreements
      modifies this`agreements
      ensures Valid() && Shown() == old(Shown()) - {a} && over == old(Shown()[a])
    {
      var entry := agreements[a];
      agreements := agreements - {a};
      over := Live(entry.terms, entry.provider.served, entry.counter);
    }

    /** The agreements memory has and the chain does not leave memory. Returns the ones whose counting is
        owed a last write, with everything their entries hold. */
    method EndAgreements(live: set<Key>) returns (ended: Memory)
      requires Valid()
      modifies this`agreements
      ensures Valid()
      ensures Shown() == old(Shown()) - (old(Shown()).Keys - live)
      ensures ended == EndedOf(old(Shown()), live)
      ensures forall a :: a in ended <==> a in old(Shown()) && a !in live && old(Shown())[a].counter.Some?
      ensures forall a :: a in ended ==> ended[a] == old(Shown())[a]
    {
      hide Shown, Valid, EndedAmong;
      ghost var before := Shown();
      ended := map[];
      var gone := agreements.Keys - live;
      NoneEnded(before);
      var left := gone;
      assert gone - left == {};
      while left != {}
        invariant left <= gone <= before.Keys
        invariant Valid() && Shown() == before - (gone - left)
        invariant ended == EndedAmong(before, gone - left)
      {
        var a :| a in left;
        OneEnded(before, gone - left, a);
        assert gone - (left - {a}) == gone - left + {a};
        var over := End(a);
        if over.counter.Some? { ended := ended[a := over]; }
        left := left - {a};
      }
      assert gone - {} == gone;
      EndedIs(before, live);
    }

    /** An agreement the chain has and memory does not joins it, unless its provider has one already. */
    method Adopt(row: AgreementRow)
      requires Valid()
      modifies this`agreements
      ensures Valid()
      ensures Shown() == if Adoptable(old(Shown()), row) then old(Shown())[row.key := Live(row.terms, 0, None)] else old(Shown())
    {
      if row.key !in agreements && forall other :: other in agreements.Keys ==> agreements[other].terms.provider != row.terms.provider {
        var provider := new Provider(row.terms.provider);
        agreements := agreements[row.key := LiveEntry(row.terms, provider, None)];
      }
    }

    /** Oldest first, so that of two records for one provider the older is kept. */
    method AdoptAgreements(rows: seq<AgreementRow>)
      requires Valid()
      modifies this`agreements
      ensures Valid() && Shown() == AdoptedAll(old(Shown()), rows)
    {
      hide Shown, Valid, Adoptable;
      ghost var before := Shown();
      for i := 0 to |rows|
        invariant Valid() && Shown() == AdoptedAll(before, rows[..i])
      {
        assert rows[..i + 1][..i] == rows[..i];
        Adopt(rows[i]);
      }
      assert rows[..|rows|] == rows;
    }
  }

  /** The last write the agreements that ended are owed: each record closed with what its provider served,
      or deleted when it served nothing. */
  method CloseEnded(ended: Memory, head: nat) returns (batch: Batch)
    requires HeldApart(ended) && forall a :: a in ended ==> ended[a].counter.Some?
    ensures BatchIs(batch, FinalsOf(ended, head))
    ensures forall op :: op in batch <==> exists a :: a in ended && LastOf(a, ended[a], head, op)
  {
    hide BatchIs, FinalsOf, FinalBatch;
    FinalNone(ended, head);
    batch := [];
    ghost var done := {};
    var left := ended.Keys;
    while left != {}
      invariant left <= ended.Keys && done == ended.Keys - left
      invariant FinalBatch(ended, head, done, batch)
    {
      var a :| a in left;
      var end := ended[a];
      FinalOne(ended, head, done, batch, a);
      if end.served == 0 {
        batch := batch + [Delete(end.counter.value.key)];
      } else {
        batch := batch + [Patch(end.counter.value.key, CounterRecord(a, end.terms.provider, Closed, end.served, end.terms.rate,
                                                                    end.counter.value.openedBlock, Some(head)))];
      }
      done, left := done + {a}, left - {a};
    }
    assert done == ended.Keys;
    FinalBatchIs(ended, head, batch);
    LastsAre(ended, head, batch);
  }

  /** The last write of an ended agreement: its record deleted when it served nothing, and else closed at this head
      with what it served. */
  predicate LastOf(a: Key, live: Live, head: nat, op: Operation) {
    && live.counter.Some?
    && op == if live.served == 0 then Delete(live.counter.value.key)
             else Patch(live.counter.value.key, CounterRecord(a, live.terms.provider, Closed, live.served, live.terms.rate,
                                                              live.counter.value.openedBlock, Some(head)))
  }

  lemma LastsAre(ended: Memory, head: nat, batch: Batch)
    requires FinalBatch(ended, head, ended.Keys, batch) && forall a :: a in ended ==> ended[a].counter.Some?
    ensures forall op :: op in batch <==> exists a :: a in ended && LastOf(a, ended[a], head, op)
  {
    forall op | op in batch ensures exists a :: a in ended && LastOf(a, ended[a], head, op) {
      var a :| a in ended.Keys && Owed(ended, a) && FinalWrite(a, ended[a], head) == op;
      assert LastOf(a, ended[a], head, op);
    }
    forall op | exists a :: a in ended && LastOf(a, ended[a], head, op) ensures op in batch {
      var a :| a in ended && LastOf(a, ended[a], head, op);
      assert Owed(ended, a) && FinalWrite(a, ended[a], head) == op;
    }
  }
}

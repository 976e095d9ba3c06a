/** The settlement counter protocol: one number per agreement in memory, kept in step with counter
    records on a chain whose answers can be lost. A step is one atomic piece of the agent, one write
    landing, or one thing the world does meanwhile; an adversary picks the order. */
module CounterProtocol {
  import opened Basics
  import opened CounterRecords

  /** A counter record with what the chain added to it. */
  datatype Stored = Stored(createdAt: nat, expiresAt: nat, record: CounterRecord)

  type Chain = map<Key, Stored>

  /** What an agreement record fixes for good. */
  datatype Terms = Terms(provider: Address, rate: nat)

  datatype OpenCounter = OpenCounter(key: Key, openedBlock: nat)

  /** One live agreement in memory. `served` is its pool entry's count. */
  datatype Live = Live(terms: Terms, served: nat, counter: Option<OpenCounter>)

  type Memory = map<Key, Live>

  /** The operations of the batch being sent: patches and deletes by record, creates by agreement. */
  datatype Orders = Orders(patches: map<Key, CounterRecord>, deletes: set<Key>, creates: map<Key, CounterRecord>)

  const NO_ORDERS := Orders(map[], {}, map[])

  /** A period this flush closes: the record, and the count the closing write carries. */
  datatype Closing = Closing(counter: Key, count: nat)

  /** Which batch is out. The agent sends one at a time. */
  datatype Phase = Idle | Accepting | Ending | Counting | Following

  datatype World = World(
    period: nat,                      // the settlement period, in blocks
    head: nat,
    chain: Chain,
    memory: Memory,
    phase: Phase,
    orders: Orders,
    flushHead: nat,                   // the head the flush that is out read when it began
    closing: Closings,                // by agreement
    patched: set<Key>,                // the records the answers so far name
    ending: map<Key, int>,            // by ended agreement: what only the last write still bills
    issued: set<Key>,                 // every key the chain ever gave out
    terms: map<Key, Terms>,           // every agreement there ever was
    ledger: map<Key, CounterRecord>,  // every record ever closed, as last written
    requests: map<Key, int>,          // completed forwards, over all processes
    lost: map<Key, int>,              // forwards no record will ever carry
    doubled: map<Key, int>)           // forwards a second record carries again

  /* ---------- reading the chain ---------- */

  predicate OpenFor(chain: Chain, agreement: Key, k: Key) {
    k in chain && chain[k].record.state == Open && chain[k].record.agreement == agreement
  }

  predicate ClosedOn(chain: Chain, k: Key) {
    k in chain && chain[k].record.state == Closed
  }

  /** The order of creation, by block and then by key. */
  predicate Before(chain: Chain, k: Key, other: Key)
    requires k in chain && other in chain
  {
    chain[k].createdAt < chain[other].createdAt
    || (chain[k].createdAt == chain[other].createdAt && k < other)
  }

  ghost predicate IsOldest(chain: Chain, agreement: Key, k: Key) {
    && OpenFor(chain, agreement, k)
    && forall other :: OpenFor(chain, agreement, other) ==> other == k || Before(chain, k, other)
  }

  /** `open` is what a read of the open records gives: each agreement's oldest. */
  ghost predicate ReadOf(chain: Chain, open: map<Key, Key>) {
    && (forall a :: a in open ==> IsOldest(chain, a, open[a]))
    && (forall k :: k in chain && chain[k].record.state == Open ==> chain[k].record.agreement in open)
  }

  /* ---------- the reconcile ---------- */

  /** A record memory held that is closed on the chain: its count leaves the entry. */
  function Forgotten(chain: Chain, open: map<Key, Key>, a: Key, live: Live): Live {
    if a !in open && live.counter.Some? && ClosedOn(chain, live.counter.value.key) then
      live.(served := SaturatingSub(live.served, chain[live.counter.value.key].record.count), counter := None)
    else live
  }

  /** The open record an agreement counts into; its count is seeded only when memory held none. */
  function Matched(chain: Chain, open: map<Key, Key>, a: Key, live: Live): Live {
    if a in open && open[a] in chain then
      var record := chain[open[a]].record;
      live.(served := live.served + (if live.counter.None? then record.count else 0),
            counter := Some(OpenCounter(open[a], record.openedBlock)))
    else live.(counter := None)
  }

  function Reconciled(chain: Chain, open: map<Key, Key>, memory: Memory): Memory {
    map a | a in memory :: Matched(chain, open, a, Forgotten(chain, open, a, memory[a]))
  }

  /** What the reconcile misses: a count memory held in a record that has closed, while another open
      record of the agreement hides that. */
  function Hidden(chain: Chain, open: map<Key, Key>, memory: Memory): map<Key, int> {
    map a | a in memory && a in open && memory[a].counter.Some? && ClosedOn(chain, memory[a].counter.value.key)
      :: chain[memory[a].counter.value.key].record.count
  }

  /* ---------- the flush ---------- */

  predicate PeriodOver(w: World, stop: bool, live: Live, record: CounterRecord) {
    !stop && live.served > 0 && w.head >= record.openedBlock + w.period
  }

  /** What the first batch writes into one open record, if anything. */
  function PatchFor(w: World, open: map<Key, Key>, stop: bool, k: Key): Option<CounterRecord>
    requires k in w.chain
  {
    var record := w.chain[k].record;
    var a := record.agreement;
    if record.state == Closed || a !in open || open[a] != k then None
    else if a !in w.memory then
      if stop || record.count == 0 then None else Some(ClosedWith(record, record.count, w.head))
    else if PeriodOver(w, stop, w.memory[a], record) then Some(ClosedWith(record, w.memory[a].served, w.head))
    else if record.count == w.memory[a].served then None
    else Some(Counted(record, w.memory[a].served))
  }

  predicate DeleteFor(w: World, open: map<Key, Key>, stop: bool, k: Key)
    requires k in w.chain
  {
    var record := w.chain[k].record;
    && !stop && record.state == Open && record.agreement in open
    && (open[record.agreement] != k || (record.agreement !in w.memory && record.count == 0))
  }

  function FreshRecord(a: Key, terms: Terms, head: nat): CounterRecord {
    CounterRecord(a, terms.provider, Open, 0, terms.rate, head, None)
  }

  function CountOrders(w: World, open: map<Key, Key>, stop: bool): Orders {
    Orders(
      map k | k in w.chain && PatchFor(w, open, stop, k).Some? :: PatchFor(w, open, stop, k).value,
      set k | k in w.chain && DeleteFor(w, open, stop, k),
      map a | a in w.memory && a !in open && !stop :: FreshRecord(a, w.memory[a].terms, w.head))
  }

  function ClosingsOf(w: World, open: map<Key, Key>, stop: bool): Closings {
    map a | a in w.memory && a in open && open[a] in w.chain
            && PeriodOver(w, stop, w.memory[a], w.chain[open[a]].record)
      :: Closing(open[a], w.memory[a].served)
  }

  /** A close whose answer names it: its count leaves the entry, and memory holds no record. */
  function Acknowledged(closing: Closings, patched: set<Key>, a: Key, live: Live): Live {
    if a in closing && closing[a].counter in patched then
      live.(served := SaturatingSub(live.served, closing[a].count), counter := None)
    else live
  }

  function Successors(w: World): map<Key, CounterRecord> {
    map a | a in w.memory && a in w.closing && w.closing[a].counter in w.patched
      :: FreshRecord(a, w.memory[a].terms, w.flushHead)
  }

  /* ---------- the end of an agreement ---------- */

  /** The last record of an ended agreement, from what memory holds. */
  function FinalRecord(a: Key, live: Live, head: nat): CounterRecord
    requires live.counter.Some?
  {
    CounterRecord(a, live.terms.provider, Closed, live.served, live.terms.rate,
                  live.counter.value.openedBlock, Some(head))
  }

  /** The ended agreement that held record `k`. */
  predicate EndedWith(memory: Memory, gone: set<Key>, a: Key, k: Key) {
    a in gone && HoldsRecord(memory, a, k)
  }

  /** The last writes: closed with what was served, or deleted when nothing was. */
  ghost predicate FinalOrders(memory: Memory, gone: set<Key>, head: nat, orders: Orders) {
    && (forall k :: k in orders.patches ==> exists a ::
         EndedWith(memory, gone, a, k) && memory[a].served > 0 && orders.patches[k] == FinalRecord(a, memory[a], head))
    && (forall k :: k in orders.deletes ==> exists a :: EndedWith(memory, gone, a, k) && memory[a].served == 0)
    && (forall a, k :: EndedWith(memory, gone, a, k) ==> k in orders.patches || k in orders.deletes)
    && orders.creates == map[]
  }

  /* ---------- what a count stands for ---------- */

  /** The open record of `a` that carries a count. */
  predicate Carrying(chain: Chain, a: Key, k: Key) {
    OpenFor(chain, a, k) && chain[k].record.count > 0
  }

  /** The count the chain holds for `a` in its open record. */
  ghost function OpenCount(chain: Chain, a: Key): int {
    if exists k :: Carrying(chain, a, k) then
      var k :| Carrying(chain, a, k);
      chain[k].record.count
    else 0
  }

  type Closings = map<Key, Closing>

  /** Whether an answer has named the close of record `k`. */
  predicate Named(closing: Closings, patched: set<Key>, a: Key, k: Key) {
    a in closing && closing[a].counter == k && k in patched
  }

  /** What of an entry's count a closed record carries already, and memory has not learned. */
  function Pending(chain: Chain, closing: Closings, patched: set<Key>, a: Key, k: Key): int {
    if Named(closing, patched, a, k) then closing[a].count
    else if ClosedOn(chain, k) then chain[k].record.count
    else 0
  }

  /** Forwards of a live agreement that no closed record carries yet. */
  ghost function Held(chain: Chain, closing: Closings, patched: set<Key>, a: Key, live: Live): int {
    live.served
    + (if live.counter.None? then OpenCount(chain, a) else -Pending(chain, closing, patched, a, live.counter.value.key))
  }

  /** Forwards of any agreement that are still to be billed. */
  ghost function Carried(w: World, a: Key): int {
    if a in w.memory then Held(w.chain, w.closing, w.patched, a, w.memory[a])
    else OpenCount(w.chain, a) + At(w.ending, a)
  }

  /** The count of one ledger entry, when it is `a`'s. */
  function Share(record: CounterRecord, a: Key): int {
    if record.agreement == a then record.count else 0
  }

  /** The counts of every record ever closed for `a`. */
  ghost function Billed(ledger: map<Key, CounterRecord>, a: Key): int {
    if ledger == map[] then 0
    else
      var k :| k in ledger;
      Share(ledger[k], a) + Billed(ledger - {k}, a)
  }

  /* ---------- the steps ---------- */

  datatype Step =
    | Serve(a: Key)                                    // a forward completes, at any time
    | Blocks(n: nat)
    | Expire(k: Key)
    | Accept(a: Key, terms: Terms)                     // the agreement record landed
    | FinishAccept
    | Adopt(a: Key, terms: Terms)
    | EndAgreements(gone: set<Key>, finals: Orders)
    | FinishEnding
    | Reconcile(open: map<Key, Key>)
    | Count(open: map<Key, Key>, stop: bool)           // the first batch, right after a reconcile
    | EndPeriods                                       // the second batch, from what was answered
    | FinishFlush
    | LandPatch(k: Key, answered: bool)
    | LandDelete(k: Key)
    | LandCreate(a: Key, k: Key, life: nat, answered: bool)
    | Crash                                            // or a stop: memory is gone

  /** Memory already shows what `open` says: nothing but forwards since the reconcile that read it. */
  ghost predicate InStep(chain: Chain, open: map<Key, Key>, memory: Memory) {
    forall a :: a in memory ==>
      memory[a].counter == if a in open && open[a] in chain
                           then Some(OpenCounter(open[a], chain[open[a]].record.openedBlock)) else None
  }

  ghost predicate Enabled(w: World, step: Step) {
    match step
    case Serve(a) => true
    case Blocks(n) => true
    case Expire(k) => k in w.chain && w.chain[k].expiresAt <= w.head
    case Accept(a, terms) => w.phase == Idle && a !in w.issued && a !in w.terms
    case FinishAccept => w.phase == Accepting
    case Adopt(a, terms) =>
      && (w.phase == Idle || w.phase == Ending) && a !in w.memory && a !in w.ending
      && (a in w.terms ==> w.terms[a] == terms)
    case EndAgreements(gone, finals) => w.phase == Idle && FinalOrders(w.memory, gone, w.head, finals)
    case FinishEnding => w.phase == Ending
    case Reconcile(open) => w.phase == Idle && ReadOf(w.chain, open)
    case Count(open, stop) => w.phase == Idle && ReadOf(w.chain, open) && InStep(w.chain, open, w.memory)
    case EndPeriods => w.phase == Counting
    case FinishFlush => w.phase == Following
    case LandPatch(k, answered) => k in w.chain && k in w.orders.patches
    case LandDelete(k) => k in w.chain && k in w.orders.deletes
    case LandCreate(a, k, life, answered) => a in w.orders.creates && k !in w.issued
    case Crash => true
  }

  predicate HoldsRecord(memory: Memory, a: Key, k: Key) {
    a in memory && memory[a].counter.Some? && memory[a].counter.value.key == k
  }

  /** No two agreements hold one record. */
  ghost predicate HeldApart(memory: Memory) {
    forall a, b, k :: HoldsRecord(memory, a, k) && HoldsRecord(memory, b, k) ==> a == b
  }

  /** A record no live agreement counts into any more carries a count nobody will write. */
  function LostWith(w: World, k: Key): int
    requires k in w.chain
  {
    var record := w.chain[k].record;
    if record.state == Open && !(record.agreement in w.memory && w.memory[record.agreement].counter.Some?)
    then record.count else 0
  }

  /** A closed record that goes before memory learned it closed is billed again. */
  function DoubledWith(w: World, k: Key): int
    requires k in w.chain
  {
    var a := w.chain[k].record.agreement;
    if && ClosedOn(w.chain, k)
       && HoldsRecord(w.memory, a, k) && !Named(w.closing, w.patched, a, k)
    then w.chain[k].record.count else 0
  }

  /** What an agreement's end leaves for its last write to bill. */
  ghost function LeftToBill(w: World, gone: set<Key>): map<Key, int> {
    map a | a in gone && a in w.memory ::
      Held(w.chain, w.closing, w.patched, a, w.memory[a]) - OpenCount(w.chain, a)
  }

  /** An entry with one more forward; nothing counts for an agreement that is not in memory. */
  function WithOneMore(memory: Memory, a: Key): Memory {
    if a in memory then memory[a := memory[a].(served := memory[a].served + 1)] else memory
  }

  function Served(w: World, a: Key): World {
    w.(memory := WithOneMore(w.memory, a),
       requests := Bump(w.requests, a, 1),
       lost := Bump(w.lost, a, if a in w.memory then 0 else 1))
  }

  function Expired(w: World, k: Key): World
    requires k in w.chain
  {
    var a := w.chain[k].record.agreement;
    w.(chain := w.chain - {k},
       lost := Bump(w.lost, a, LostWith(w, k)),
       doubled := Bump(w.doubled, a, DoubledWith(w, k)))
  }

  function Accepted(w: World, a: Key, terms: Terms): World {
    w.(memory := w.memory[a := Live(terms, 0, None)],
       phase := Accepting,
       orders := NO_ORDERS.(creates := map[a := FreshRecord(a, terms, w.head)]),
       issued := w.issued + {a},
       terms := w.terms[a := terms])
  }

  function Adopted(w: World, a: Key, terms: Terms): World {
    w.(memory := w.memory[a := Live(terms, 0, None)], terms := w.terms[a := terms], issued := w.issued + {a})
  }

  ghost function Ended(w: World, gone: set<Key>, finals: Orders): World {
    w.(memory := w.memory - gone, phase := Ending, orders := finals, ending := LeftToBill(w, gone))
  }

  function EndingFinished(w: World): World {
    w.(phase := Idle, orders := NO_ORDERS, ending := map[], lost := Plus(w.lost, w.ending))
  }

  function ReconciledWorld(w: World, open: map<Key, Key>): World {
    w.(memory := Reconciled(w.chain, open, w.memory),
       doubled := Plus(w.doubled, Hidden(w.chain, open, w.memory)))
  }

  function CountSent(w: World, open: map<Key, Key>, stop: bool): World {
    w.(phase := Counting, orders := CountOrders(w, open, stop), flushHead := w.head, closing := ClosingsOf(w, open, stop), patched := {})
  }

  function PeriodsEnded(w: World): World {
    w.(memory := map a | a in w.memory :: Acknowledged(w.closing, w.patched, a, w.memory[a]),
       phase := Following,
       orders := NO_ORDERS.(creates := Successors(w)),
       closing := map[], patched := {})
  }

  function PatchLanded(w: World, k: Key, answered: bool): World
    requires k in w.chain && k in w.orders.patches
  {
    var landed := PatchEffect(w.chain[k].record, w.orders.patches[k]);
    w.(chain := w.chain[k := w.chain[k].(record := landed)],
       orders := w.orders.(patches := w.orders.patches - {k}),
       patched := if w.phase == Counting && answered then w.patched + {k} else w.patched,
       ledger := if landed.state == Closed then w.ledger[k := landed] else w.ledger,
       ending := w.ending - {landed.agreement})
  }

  function DeleteLanded(w: World, k: Key): World {
    w.(chain := w.chain - {k}, orders := w.orders.(deletes := w.orders.deletes - {k}))
  }

  function CreateLanded(w: World, a: Key, k: Key, life: nat, answered: bool): World
    requires a in w.orders.creates
  {
    var record := w.orders.creates[a];
    w.(chain := w.chain[k := Stored(w.head, w.head + life, record)],
       orders := w.orders.(creates := w.orders.creates - {a}),
       issued := w.issued + {k},
       memory := if w.phase == Accepting && answered && a in w.memory
                 then w.memory[a := w.memory[a].(counter := Some(OpenCounter(k, record.openedBlock)))]
                 else w.memory)
  }

  ghost function Crashed(w: World): World {
    w.(memory := map[], phase := Idle, orders := NO_ORDERS, closing := map[], patched := {}, ending := map[],
       lost := Plus(Plus(w.lost, LeftToBill(w, w.memory.Keys)), w.ending))
  }

  ghost function Apply(w: World, step: Step): World
    requires Enabled(w, step)
  {
    match step
    case Serve(a) => Served(w, a)
    case Blocks(n) => w.(head := w.head + n)
    case Expire(k) => Expired(w, k)
    case Accept(a, terms) => Accepted(w, a, terms)
    case FinishAccept => w.(phase := Idle, orders := NO_ORDERS)
    case Adopt(a, terms) => Adopted(w, a, terms)
    case EndAgreements(gone, finals) => Ended(w, gone, finals)
    case FinishEnding => EndingFinished(w)
    case Reconcile(open) => ReconciledWorld(w, open)
    case Count(open, stop) => CountSent(w, open, stop)
    case EndPeriods => PeriodsEnded(w)
    case FinishFlush => w.(phase := Idle, orders := NO_ORDERS)
    case LandPatch(k, answered) => PatchLanded(w, k, answered)
    case LandDelete(k) => DeleteLanded(w, k)
    case LandCreate(a, k, life, answered) => CreateLanded(w, a, k, life, answered)
    case Crash => Crashed(w)
  }

  /* ---------- runs ---------- */

  ghost predicate Feasible(w: World, run: seq<Step>)
    decreases |run|
  {
    run == [] || (Enabled(w, run[0]) && Feasible(Apply(w, run[0]), run[1..]))
  }

  ghost function After(w: World, run: seq<Step>): World
    requires Feasible(w, run)
    decreases |run|
  {
    if run == [] then w else After(Apply(w, run[0]), run[1..])
  }

  /** A first start: nothing on the chain, nothing in memory. */
  function Genesis(period: nat, head: nat): World {
    World(period, head, map[], map[], Idle, NO_ORDERS, 0, map[], {}, map[], {}, map[], map[], map[], map[], map[])
  }
}

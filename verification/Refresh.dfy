/** The refresh: which records one batch extends, and when the chain takes that batch. */
module Refresh {
  import opened Basics
  import opened Settings
  import opened Slots
  import opened Sorting

  datatype ExtendOperation = ExtendOperation(key: Key, life: nat)

  datatype RefreshBatch = RefreshBatch(batch: seq<ExtendOperation>, ineligible: nat, expiringLater: nat)

  /** A record already expires later than a refresh would set. Without a head nothing is left out for it. */
  predicate ExpiresLater(head: Option<nat>, expiresAt: nat, life: nat) {
    head.Some? && expiresAt > head.value + Blocks(life)
  }

  predicate Expired(head: Option<nat>, expiresAt: nat) {
    head.Some? && expiresAt <= head.value
  }

  datatype Fate = Ineligible | Gone | Later | In

  /** What a refresh does about an eligible provider's record, by the expiry memory shows. */
  function FateAt(head: Option<nat>, shown: nat, life: nat): Fate {
    if Expired(head, shown) then Gone else if ExpiresLater(head, shown, life) then Later else In
  }

  /** What a refresh does about one agreement's record. Eligibility at this moment is the one rule. */
  function FateOf(m: Marketplace, known: Agreements, eligible: set<Key>, head: Option<nat>, a: Key): Fate
    requires a in known
  {
    if a !in eligible then Ineligible else FateAt(head, known[a].expiresAt, m.agreementLife)
  }

  predicate Included(m: Marketplace, known: Agreements, eligible: set<Key>, head: Option<nat>, a: Key) {
    a in known && FateOf(m, known, eligible, head, a) == In
  }

  /** What the refresh asks of one agreement's record. */
  function ExtendOf(m: Marketplace, a: Key): ExtendOperation {
    ExtendOperation(a, Blocks(m.agreementLife))
  }

  function Having(m: Marketplace, known: Agreements, eligible: set<Key>, head: Option<nat>, done: set<Key>, fate: Fate): set<Key> {
    set a | a in known && a in done && FateOf(m, known, eligible, head, a) == fate
  }

  /** The batch asks what `first` asks and an extend of every record of `done` that is in, each once. */
  ghost predicate Asks(m: Marketplace, known: Agreements, eligible: set<Key>, head: Option<nat>, first: seq<ExtendOperation>,
                       done: set<Key>, batch: seq<ExtendOperation>) {
    && NoRepeats(batch)
    && forall op :: op in batch <==>
         op in first || (op.key in done && Included(m, known, eligible, head, op.key) && op == ExtendOf(m, op.key))
  }

  lemma AsksMore(m: Marketplace, known: Agreements, eligible: set<Key>, head: Option<nat>, first: seq<ExtendOperation>,
                 done: set<Key>, batch: seq<ExtendOperation>, a: Key)
    requires Asks(m, known, eligible, head, first, done, batch) && a in known && a !in done
    requires forall op :: op in first ==> op.key !in known
    ensures Asks(m, known, eligible, head, first, done + {a},
                 if FateOf(m, known, eligible, head, a) == In then batch + [ExtendOf(m, a)] else batch)
  {
    StillNoRepeats(batch, ExtendOf(m, a));
    hide FateOf, Blocks;
  }

  lemma StillNoRepeats(batch: seq<ExtendOperation>, op: ExtendOperation)
    requires NoRepeats(batch)
    ensures op !in batch ==> NoRepeats(batch + [op])
  {
    if op !in batch { NoRepeatsPush(batch, op); }
  }

  lemma HavingMore(m: Marketplace, known: Agreements, eligible: set<Key>, head: Option<nat>, done: set<Key>, a: Key, fate: Fate)
    requires a in known && a !in done
    ensures |Having(m, known, eligible, head, done + {a}, fate)|
         == |Having(m, known, eligible, head, done, fate)| + if FateOf(m, known, eligible, head, a) == fate then 1 else 0
  {
    hide FateOf;
    var before, after := Having(m, known, eligible, head, done, fate), Having(m, known, eligible, head, done + {a}, fate);
    assert after == before + if FateOf(m, known, eligible, head, a) == fate then {a} else {};
  }

  lemma NoneAsked(m: Marketplace, known: Agreements, eligible: set<Key>, head: Option<nat>, first: seq<ExtendOperation>)
    requires NoRepeats(first)
    ensures Asks(m, known, eligible, head, first, {}, first)
    ensures Having(m, known, eligible, head, {}, Ineligible) == {} && Having(m, known, eligible, head, {}, Later) == {}
  {
  }

  /** One agreement after another, onto what is asked already. */
  method CollectAgreements(m: Marketplace, known: Agreements, eligible: set<Key>, head: Option<nat>, first: seq<ExtendOperation>)
    returns (batch: seq<ExtendOperation>, ineligible: nat, later: nat)
    requires NoRepeats(first) && forall op :: op in first ==> op.key !in known
    ensures Asks(m, known, eligible, head, first, known.Keys, batch)
    ensures ineligible == |Having(m, known, eligible, head, known.Keys, Ineligible)|
    ensures later == |Having(m, known, eligible, head, known.Keys, Later)|
  {
    hide Blocks, Having, Asks, ExpiresLater, Expired, NoRepeats;
    NoneAsked(m, known, eligible, head, first);
    batch, ineligible, later := first, 0, 0;
    var left := known.Keys;
    ghost var done: set<Key> := {};
    while left != {}
      invariant left <= known.Keys && done == known.Keys - left
      invariant ineligible == |Having(m, known, eligible, head, done, Ineligible)|
      invariant later == |Having(m, known, eligible, head, done, Later)|
      invariant Asks(m, known, eligible, head, first, done, batch)
    {
      var a :| a in left;
      AsksMore(m, known, eligible, head, first, done, batch, a);
      HavingMore(m, known, eligible, head, done, a, Ineligible);
      HavingMore(m, known, eligible, head, done, a, Later);
      if a !in eligible {
        ineligible := ineligible + 1;
      } else if Expired(head, known[a].expiresAt) {
      } else if ExpiresLater(head, known[a].expiresAt, m.agreementLife) {
        later := later + 1;
      } else {
        batch := batch + [ExtendOf(m, a)];
      }
      done, left := done + {a}, left - {a};
    }
    assert done == known.Keys;
  }

  /** The refresh's batch: the listing unless it expires later, and each eligible record that is alive and
      does not; and how many were left out, for which reason. */
  method Collect(m: Marketplace, known: Agreements, eligible: set<Key>, listing: Key, listingExpiresAt: nat, head: Option<nat>)
    returns (r: RefreshBatch)
    requires listing !in known
    ensures NoRepeats(r.batch)
    ensures forall op :: op in r.batch <==>
              || (op == ExtendOperation(listing, Blocks(m.listingLife)) && !ExpiresLater(head, listingExpiresAt, m.listingLife))
              || (Included(m, known, eligible, head, op.key) && op == ExtendOf(m, op.key))
    ensures r.ineligible == |Having(m, known, eligible, head, known.Keys, Ineligible)|
    ensures r.expiringLater == |Having(m, known, eligible, head, known.Keys, Later)|
                               + if ExpiresLater(head, listingExpiresAt, m.listingLife) then 1 else 0
    ensures forall op :: op in r.batch && op.key in known ==> op.key in eligible
    ensures r.ineligible == |known.Keys - eligible|
    ensures forall op :: op in r.batch <==>
              || (op.key == listing && op.life == Blocks(m.listingLife) && MovesLater(head, listingExpiresAt, m.listingLife))
              || (op.key in known && op.key in eligible && op.life == Blocks(m.agreementLife)
                  && StillLives(head, known[op.key].expiresAt) && MovesLater(head, known[op.key].expiresAt, m.agreementLife))
    ensures r.expiringLater == |OutlivingKeys(m, known, eligible, head)| + if MovesLater(head, listingExpiresAt, m.listingLife) then 0 else 1
  {
    hide Having, Blocks, Included, StillLives, MovesLater, OutlivingKeys, ExpiresLater;
    var first, listings := [], 1;
    if !ExpiresLater(head, listingExpiresAt, m.listingLife) {
      first, listings := [ExtendOperation(listing, Blocks(m.listingLife))], 0;
    }
    var batch, ineligible, later := CollectAgreements(m, known, eligible, head, first);
    AsksAll(m, known, eligible, head, first, batch);
    IncludedIs(m, known, eligible, head);
    LeftOutAre(m, known, eligible, head);
    r := RefreshBatch(batch, ineligible, listings + later);
  }

  /** As far as the head tells, if there is one, the record has not expired. */
  predicate StillLives(head: Option<nat>, expiresAt: nat) {
    head.Some? ==> head.value < expiresAt
  }

  /** As far as the head tells, an extend in a block after it moves the expiry later. */
  predicate MovesLater(head: Option<nat>, expiresAt: nat, life: nat) {
    head.Some? ==> expiresAt < head.value + 1 + Blocks(life)
  }

  /** The eligible agreements whose record outlives what a refresh would set. */
  function OutlivingKeys(m: Marketplace, known: Agreements, eligible: set<Key>, head: Option<nat>): set<Key> {
    set a | a in known.Keys && a in eligible && StillLives(head, known[a].expiresAt) && !MovesLater(head, known[a].expiresAt, m.agreementLife)
  }

  /** A record is in the batch exactly when its provider is eligible, it still lives, and it would move. */
  lemma IncludedIs(m: Marketplace, known: Agreements, eligible: set<Key>, head: Option<nat>)
    ensures forall a :: Included(m, known, eligible, head, a) <==>
              a in known && a in eligible && StillLives(head, known[a].expiresAt) && MovesLater(head, known[a].expiresAt, m.agreementLife)
    ensures forall expiresAt, life :: ExpiresLater(head, expiresAt, life) <==> !MovesLater(head, expiresAt, life)
  {
    hide Blocks;
  }

  lemma LeftOutAre(m: Marketplace, known: Agreements, eligible: set<Key>, head: Option<nat>)
    ensures Having(m, known, eligible, head, known.Keys, Ineligible) == known.Keys - eligible
    ensures Having(m, known, eligible, head, known.Keys, Later) == OutlivingKeys(m, known, eligible, head)
  {
    hide Blocks;
  }

  lemma AsksAll(m: Marketplace, known: Agreements, eligible: set<Key>, head: Option<nat>, first: seq<ExtendOperation>,
                batch: seq<ExtendOperation>)
    requires Asks(m, known, eligible, head, first, known.Keys, batch)
    ensures NoRepeats(batch)
    ensures forall op :: op in batch <==> op in first || (Included(m, known, eligible, head, op.key) && op == ExtendOf(m, op.key))
  {
  }

  /* ---------- when the chain takes the batch ---------- */

  /** The chain takes an extend of a record still alive in the landing block, and only if it moves the expiry
      later. */
  predicate Takes(expiresAt: map<Key, nat>, op: ExtendOperation, block: nat) {
    op.key in expiresAt && expiresAt[op.key] > block && block + op.life > expiresAt[op.key]
  }

  /** One extend the chain refuses fails the whole batch. */
  ghost predicate TakesAll(expiresAt: map<Key, nat>, batch: seq<ExtendOperation>, block: nat) {
    forall op :: op in batch ==> Takes(expiresAt, op, block)
  }

  ghost predicate Refreshes(m: Marketplace, known: Agreements, eligible: set<Key>, listing: Key, listingExpiresAt: nat,
                            head: nat, batch: seq<ExtendOperation>) {
    forall op :: op in batch <==>
      || (op == ExtendOperation(listing, Blocks(m.listingLife)) && !ExpiresLater(Some(head), listingExpiresAt, m.listingLife))
      || (Included(m, known, eligible, Some(head), op.key) && op == ExtendOf(m, op.key))
  }

  /** The chain's expiry is the one memory shows, or the one an extend in a block before this one set since. */
  predicate Behind(shown: nat, now: nat, life: nat, block: nat) {
    now == shown || shown < now < block + Blocks(life)
  }

  /** Memory shows no expiry later than the chain's: the listing's since the start, an agreement's since the
      last poll that could be read. */
  ghost predicate MemoryBehind(m: Marketplace, known: Agreements, listing: Key, listingExpiresAt: nat, now: map<Key, nat>,
                               block: nat) {
    && (listing in now ==> Behind(listingExpiresAt, now[listing], m.listingLife, block))
    && forall a :: a in known && a in now ==> Behind(known[a].expiresAt, now[a], m.agreementLife, block)
  }

  /** Every agreement's record in a batch is alive, by memory, at the head it was built with, and ends no later
      than the refresh would set. */
  lemma IncludedAlive(m: Marketplace, known: Agreements, eligible: set<Key>, head: nat, a: Key)
    requires Included(m, known, eligible, Some(head), a)
    ensures head < known[a].expiresAt <= head + Blocks(m.agreementLife)
  {
  }

  /** However far memory is behind, a batch built with a head is taken at a later block if and only if the chain
      still has every record in it there: no extend of it can fail to move its expiry. */
  lemma TakenWhileAlive(m: Marketplace, known: Agreements, eligible: set<Key>, listing: Key, listingExpiresAt: nat,
                        head: nat, batch: seq<ExtendOperation>, now: map<Key, nat>, block: nat)
    requires Refreshes(m, known, eligible, listing, listingExpiresAt, head, batch) && listing !in known && block > head
    requires MemoryBehind(m, known, listing, listingExpiresAt, now, block)
    ensures TakesAll(now, batch, block) <==> forall op :: op in batch ==> op.key in now && block < now[op.key]
  {
    hide Blocks;
    forall op | op in batch && op.key in now ensures block + op.life > now[op.key] {
      if op.key != listing { IncludedAlive(m, known, eligible, head, op.key); }
    }
  }

  /** What the chain makes of one extend. */
  function Extended(now: nat, block: nat, life: nat): nat {
    if block < now < block + Blocks(life) then block + Blocks(life) else now
  }

  /** The expiries after a batch that was taken: an extend for the record, or nothing. */
  function AfterBatch(now: map<Key, nat>, batch: seq<ExtendOperation>, block: nat): map<Key, nat> {
    if batch == [] then now
    else
      var before, op := AfterBatch(now, batch[..|batch| - 1], block), batch[|batch| - 1];
      if op.key in before then before[op.key := block + op.life] else before
  }

  /** A batch that was taken moves each record exactly as its own fate says, and an ineligible provider's not at all. */
  lemma BatchMovesEach(m: Marketplace, known: Agreements, eligible: set<Key>, listing: Key, listingExpiresAt: nat,
                       head: nat, batch: seq<ExtendOperation>, now: map<Key, nat>, block: nat, a: Key)
    requires Refreshes(m, known, eligible, listing, listingExpiresAt, head, batch) && listing !in known
    requires TakesAll(now, batch, block) && a in known && a in now
    ensures a in AfterBatch(now, batch, block)
    ensures AfterBatch(now, batch, block)[a]
         == if a in eligible && FateAt(Some(head), known[a].expiresAt, m.agreementLife) == In then Extended(now[a], block, m.agreementLife) else now[a]
  {
    hide Blocks, FateAt;
    BatchSets(now, batch, block, a, Blocks(m.agreementLife));
    if Included(m, known, eligible, Some(head), a) { assert ExtendOf(m, a) in batch; }
  }

  lemma {:induction false} BatchSets(now: map<Key, nat>, batch: seq<ExtendOperation>, block: nat, a: Key, life: nat)
    requires a in now && forall op :: op in batch && op.key == a ==> op.life == life
    ensures AfterBatch(now, batch, block).Keys == now.Keys
    ensures AfterBatch(now, batch, block)[a] == if exists op :: op in batch && op.key == a then block + life else now[a]
  {
    if batch != [] {
      var before, last := batch[..|batch| - 1], batch[|batch| - 1];
      assert batch == before + [last];
      BatchSets(now, before, block, a, life);
    }
  }

  /* ---------- was it extended ---------- */

  /** Whether the agent takes a record for an extended one, by the life memory shows of it. */
  predicate WasExtended(agreement: Agreement, agreementLife: nat) {
    SaturatingSub(agreement.expiresAt, agreement.createdAt) >= Blocks(agreementLife)
  }

  /** An accepted record not yet extended is told apart exactly while its estimated creation block is less
      early than the two lives differ; an extended one always is. */
  lemma ToldApart(m: Marketplace, agreement: Agreement, landed: nat, extendedAt: nat)
    requires Validate(m) == None && agreement.createdAt <= landed <= extendedAt
    ensures agreement.expiresAt == extendedAt + Blocks(m.agreementLife) ==> WasExtended(agreement, m.agreementLife)
    ensures agreement.expiresAt == landed + Blocks(m.offerMaxLifetime) ==>
              (WasExtended(agreement, m.agreementLife)
               <==> landed - agreement.createdAt >= Blocks(m.agreementLife) - Blocks(m.offerMaxLifetime))
    ensures Blocks(m.agreementLife) > Blocks(m.offerMaxLifetime)
  {
    ValidPromises(m);
    hide Validate, Blocks;
  }
}

/** The ledger of a settle run: which closed records no receipt names yet, by provider, and what they come to. */
module Ledgers {
  import opened Basics
  import opened Sorting

  /** A closed counter record as settle reads it. */
  datatype Counter = Counter(key: Key, agreement: Key, provider: Address, count: nat, weiPerCall: nat, closedBlock: nat)

  /** What one provider is owed, and for which records. */
  datatype Owed = Owed(provider: Address, records: seq<Counter>, amountWei: nat)

  datatype Ledger = Ledger(owed: seq<Owed>, paid: nat, totalOwedWei: nat)

  /** The counter records the receipts of one payer name, for one provider. */
  type Receipts = (Address, Address) -> seq<Key>

  /** Owed for one record: its count at the rate the record itself carries. */
  function AmountOf(record: Counter): nat {
    record.count * record.weiPerCall
  }

  function SumOf(records: seq<Counter>): nat {
    if records == [] then 0 else AmountOf(records[0]) + SumOf(records[1..])
  }

  function TotalOf(owed: seq<Owed>): nat {
    if owed == [] then 0 else TotalOf(owed[..|owed| - 1]) + owed[|owed| - 1].amountWei
  }

  /** The records of one provider, in the order read. */
  function OfProvider(closed: seq<Counter>, provider: Address): seq<Counter> {
    if closed == [] then []
    else
      var last := closed[|closed| - 1];
      OfProvider(closed[..|closed| - 1], provider) + if last.provider == provider then [last] else []
  }

  function Unpaid(records: seq<Counter>, settled: set<Key>): seq<Counter> {
    if records == [] then []
    else
      var last := records[|records| - 1];
      Unpaid(records[..|records| - 1], settled) + if last.key in settled then [] else [last]
  }

  /** What one payer's receipts name for a provider. */
  function Named(receipts: Receipts, payer: Address, provider: Address): set<Key> {
    var keys := receipts(payer, provider);
    set i | 0 <= i < |keys| :: keys[i]
  }

  /** What the receipts of all payers name for a provider. */
  function SettledFor(payers: seq<Address>, receipts: Receipts, provider: Address): set<Key> {
    if payers == [] then {}
    else SettledFor(payers[..|payers| - 1], receipts, provider) + Named(receipts, payers[|payers| - 1], provider)
  }

  predicate ByClosing(left: Counter, right: Counter) {
    left.closedBlock <= right.closedBlock
  }

  predicate ByProvider(left: Owed, right: Owed) {
    left.provider <= right.provider
  }

  /** One provider's unpaid records, oldest period first. */
  function OwedRecords(closed: seq<Counter>, payers: seq<Address>, receipts: Receipts, provider: Address): seq<Counter> {
    Sort(Unpaid(OfProvider(closed, provider), SettledFor(payers, receipts, provider)), ByClosing)
  }

  /** Some payer has a receipt for the key, among the ones for that provider. */
  ghost predicate HasReceipt(payers: seq<Address>, receipts: Receipts, provider: Address, k: Key) {
    exists payer :: payer in payers && k in receipts(payer, provider)
  }

  ghost predicate IsSettled(payers: seq<Address>, receipts: Receipts, record: Counter) {
    HasReceipt(payers, receipts, record.provider, record.key)
  }

  /** What is read as settled is what any of the payers has a receipt for, whichever one that is. */
  lemma {:induction false} SettledExactly(payers: seq<Address>, receipts: Receipts, provider: Address, k: Key)
    ensures k in SettledFor(payers, receipts, provider) <==> HasReceipt(payers, receipts, provider, k)
  {
    if payers != [] {
      var before, last := payers[..|payers| - 1], payers[|payers| - 1];
      assert payers == before + [last];
      SettledExactly(before, receipts, provider, k);
      var keys := receipts(last, provider);
      if k in keys { var i :| 0 <= i < |keys| && keys[i] == k; }
    }
  }

  /** How many of the records of `providers` are settled already. */
  ghost function PaidCount(closed: seq<Counter>, payers: seq<Address>, receipts: Receipts, providers: set<Address>): nat {
    if closed == [] then 0
    else
      var last := closed[|closed| - 1];
      PaidCount(closed[..|closed| - 1], payers, receipts, providers)
      + if last.provider in providers && IsSettled(payers, receipts, last) then 1 else 0
  }

  /** The sum of count times rate over the records of `providers` no receipt names. */
  ghost function UnpaidSum(closed: seq<Counter>, payers: seq<Address>, receipts: Receipts, providers: set<Address>): nat {
    if closed == [] then 0
    else
      var last := closed[|closed| - 1];
      UnpaidSum(closed[..|closed| - 1], payers, receipts, providers)
      + if last.provider in providers && !IsSettled(payers, receipts, last) then last.count * last.weiPerCall else 0
  }

  function ProvidersOf(closed: seq<Counter>): set<Address> {
    set i | 0 <= i < |closed| :: closed[i].provider
  }

  /** An entry is right: all a provider is owed, and no less than one record. */
  predicate EntryIs(closed: seq<Counter>, payers: seq<Address>, receipts: Receipts, entry: Owed) {
    && entry.records == OwedRecords(closed, payers, receipts, entry.provider)
    && entry.records != [] && entry.amountWei == SumOf(entry.records)
  }

  ghost predicate ApartByProvider(owed: seq<Owed>) {
    forall i, j :: 0 <= i < j < |owed| ==> owed[i].provider != owed[j].provider
  }

  /** The entries of `done`: one for each provider that is owed anything. */
  ghost predicate Entries(closed: seq<Counter>, payers: seq<Address>, receipts: Receipts, done: set<Address>, owed: seq<Owed>) {
    && (forall entry :: entry in owed ==> entry.provider in done && EntryIs(closed, payers, receipts, entry))
    && (forall p :: p in done && OwedRecords(closed, payers, receipts, p) != [] ==> exists entry :: entry in owed && entry.provider == p)
    && ApartByProvider(owed)
  }

  ghost predicate LedgerIs(closed: seq<Counter>, payers: seq<Address>, receipts: Receipts, ledger: Ledger) {
    && Entries(closed, payers, receipts, ProvidersOf(closed), ledger.owed)
    && Sorted(ledger.owed, ByProvider)
    && ledger.paid == PaidCount(closed, payers, receipts, ProvidersOf(closed))
    && ledger.totalOwedWei == TotalOf(ledger.owed)
  }

  /* ---------- how it is gathered ---------- */

  /** The closed records, by provider. */
  method Group(closed: seq<Counter>) returns (byProvider: map<Address, seq<Counter>>)
    ensures byProvider.Keys == ProvidersOf(closed)
    ensures forall p :: p in byProvider ==> byProvider[p] == OfProvider(closed, p)
  {
    byProvider := map[];
    assert ProvidersOf(closed[..0]) == {};
    hide OfProvider, ProvidersOf;
    for i := 0 to |closed|
      invariant byProvider.Keys == ProvidersOf(closed[..i])
      invariant forall p :: p in byProvider ==> byProvider[p] == OfProvider(closed[..i], p)
    {
      GroupMore(closed[..i], closed[i]);
      assert closed[..i + 1] == closed[..i] + [closed[i]];
      var record := closed[i];
      if record.provider in byProvider {
        byProvider := byProvider[record.provider := byProvider[record.provider] + [record]];
      } else {
        byProvider := byProvider[record.provider := [record]];
      }
    }
    assert closed[..|closed|] == closed;
  }

  lemma GroupMore(before: seq<Counter>, record: Counter)
    ensures ProvidersOf(before + [record]) == ProvidersOf(before) + {record.provider}
    ensures forall p :: OfProvider(before + [record], p) == OfProvider(before, p) + if record.provider == p then [record] else []
    ensures record.provider !in ProvidersOf(before) ==> OfProvider(before, record.provider) == []
  {
    var after := before + [record];
    assert after[..|before|] == before;
    assert after[|before|] == record;
    forall i | 0 <= i < |before| ensures after[i] == before[i] {}
    NoneOf(before, record.provider);
  }

  lemma {:induction false} NoneOf(closed: seq<Counter>, p: Address)
    ensures p !in ProvidersOf(closed) ==> OfProvider(closed, p) == []
  {
    if closed != [] && p !in ProvidersOf(closed) {
      var before := closed[..|closed| - 1];
      forall i | 0 <= i < |before| ensures before[i].provider in ProvidersOf(closed) { assert before[i] == closed[i]; }
      assert closed[|closed| - 1].provider in ProvidersOf(closed);
      NoneOf(before, p);
    }
  }

  /** What every payer's receipts name for one provider: one read a payer. */
  method ReadSettled(payers: seq<Address>, receipts: Receipts, provider: Address) returns (settled: set<Key>)
    ensures settled == SettledFor(payers, receipts, provider)
  {
    settled := {};
    for i := 0 to |payers|
      invariant settled == SettledFor(payers[..i], receipts, provider)
    {
      assert payers[..i + 1][..i] == payers[..i];
      settled := settled + Named(receipts, payers[i], provider);
    }
    assert payers[..|payers|] == payers;
  }

  method Filter(records: seq<Counter>, settled: set<Key>) returns (unpaid: seq<Counter>)
    ensures unpaid == Unpaid(records, settled)
  {
    unpaid := [];
    for i := 0 to |records|
      invariant unpaid == Unpaid(records[..i], settled)
    {
      assert records[..i + 1][..i] == records[..i];
      if records[i].key !in settled { unpaid := unpaid + [records[i]]; }
    }
    assert records[..|records|] == records;
  }

  /** One provider's entry, if anything is owed, and how many of its records are settled. */
  method EntryFor(closed: seq<Counter>, payers: seq<Address>, receipts: Receipts, provider: Address, records: seq<Counter>)
    returns (entry: Option<Owed>, paid: nat)
    requires records == OfProvider(closed, provider)
    ensures entry.Some? <==> OwedRecords(closed, payers, receipts, provider) != []
    ensures entry.Some? ==> entry.value.provider == provider && EntryIs(closed, payers, receipts, entry.value)
    ensures paid == PaidCount(closed, payers, receipts, {provider})
  {
    var settled := ReadSettled(payers, receipts, provider);
    var unpaid := Filter(records, settled);
    PaidOfProvider(closed, payers, receipts, provider);
    paid := |records| - |unpaid|;
    SortMembers(unpaid, ByClosing);
    hide Sort, SumOf, OfProvider, Unpaid, PaidCount, SettledFor;
    if |unpaid| == 0 { return None, paid; }
    var sorted := Sort(unpaid, ByClosing);
    entry := Some(Owed(provider, sorted, SumOf(sorted)));
  }

  lemma {:induction false} PaidOfProvider(closed: seq<Counter>, payers: seq<Address>, receipts: Receipts, provider: Address)
    ensures var settled := SettledFor(payers, receipts, provider);
            |OfProvider(closed, provider)| == |Unpaid(OfProvider(closed, provider), settled)|
                                              + PaidCount(closed, payers, receipts, {provider})
  {
    if closed != [] {
      var before, last := closed[..|closed| - 1], closed[|closed| - 1];
      PaidOfProvider(before, payers, receipts, provider);
      SettledExactly(payers, receipts, provider, last.key);
      var its := OfProvider(before, provider);
      assert (its + [last])[..|its|] == its;
      assert its + [] == its;
    }
  }

  /** What a run owes: every closed record that no receipt names, grouped by provider. */
  method Gather(closed: seq<Counter>, payers: seq<Address>, receipts: Receipts) returns (ledger: Ledger)
    ensures LedgerIs(closed, payers, receipts, ledger)
  {
    hide *;
    var byProvider := Group(closed);
    var owed, paid := [], 0;
    NoEntries(closed, payers, receipts);
    var left := byProvider.Keys;
    ghost var done := {};
    while left != {}
      invariant left <= byProvider.Keys && done == byProvider.Keys - left
      invariant Entries(closed, payers, receipts, done, owed)
      invariant paid == PaidCount(closed, payers, receipts, done)
    {
      var provider :| provider in left;
      var entry, its := EntryFor(closed, payers, receipts, provider, byProvider[provider]);
      MorePaid(closed, payers, receipts, done, provider);
      paid := paid + its;
      OneEntry(closed, payers, receipts, done, owed, provider, entry);
      if entry.Some? { owed := owed + [entry.value]; }
      done, left := done + {provider}, left - {provider};
    }
    assert done == byProvider.Keys;
    SortedEntries(closed, payers, receipts, done, owed);
    var sorted := Sort(owed, ByProvider);
    ledger := Ledger(sorted, paid, TotalOf(sorted));
    AllGathered(closed, payers, receipts, ledger);
  }

  lemma AllGathered(closed: seq<Counter>, payers: seq<Address>, receipts: Receipts, ledger: Ledger)
    requires Entries(closed, payers, receipts, ProvidersOf(closed), ledger.owed) && Sorted(ledger.owed, ByProvider)
    requires ledger.paid == PaidCount(closed, payers, receipts, ProvidersOf(closed)) && ledger.totalOwedWei == TotalOf(ledger.owed)
    ensures LedgerIs(closed, payers, receipts, ledger)
  {
  }

  lemma NoEntries(closed: seq<Counter>, payers: seq<Address>, receipts: Receipts)
    ensures Entries(closed, payers, receipts, {}, []) && PaidCount(closed, payers, receipts, {}) == 0
  {
    NonePaid(closed, payers, receipts);
  }

  lemma {:induction false} NonePaid(closed: seq<Counter>, payers: seq<Address>, receipts: Receipts)
    ensures PaidCount(closed, payers, receipts, {}) == 0
  {
    if closed != [] { NonePaid(closed[..|closed| - 1], payers, receipts); }
  }

  lemma {:induction false} MorePaid(closed: seq<Counter>, payers: seq<Address>, receipts: Receipts, done: set<Address>, p: Address)
    requires p !in done
    ensures PaidCount(closed, payers, receipts, done + {p})
         == PaidCount(closed, payers, receipts, done) + PaidCount(closed, payers, receipts, {p})
  {
    if closed != [] { MorePaid(closed[..|closed| - 1], payers, receipts, done, p); }
  }

  lemma OneEntry(closed: seq<Counter>, payers: seq<Address>, receipts: Receipts, done: set<Address>, owed: seq<Owed>,
                 p: Address, entry: Option<Owed>)
    requires Entries(closed, payers, receipts, done, owed) && p !in done
    requires entry.Some? <==> OwedRecords(closed, payers, receipts, p) != []
    requires entry.Some? ==> entry.value.provider == p && EntryIs(closed, payers, receipts, entry.value)
    ensures Entries(closed, payers, receipts, done + {p}, if entry.Some? then owed + [entry.value] else owed)
  {
    hide OwedRecords, EntryIs;
    if entry.Some? {
      var after := owed + [entry.value];
      assert entry.value in after;
      forall q | q in done && OwedRecords(closed, payers, receipts, q) != [] ensures exists e :: e in after && e.provider == q {
        var e :| e in owed && e.provider == q;
        assert e in after;
      }
      forall i, j | 0 <= i < j < |after| ensures after[i].provider != after[j].provider {
        assert after[i] == owed[i] && owed[i] in owed;
      }
    }
  }

  lemma SortedEntries(closed: seq<Counter>, payers: seq<Address>, receipts: Receipts, done: set<Address>, owed: seq<Owed>)
    requires Entries(closed, payers, receipts, done, owed)
    ensures Entries(closed, payers, receipts, done, Sort(owed, ByProvider)) && Sorted(Sort(owed, ByProvider), ByProvider)
  {
    var sorted := Sort(owed, ByProvider);
    SortPermutes(owed, ByProvider);
    SortMembers(owed, ByProvider);
    ProviderOrder();
    SortSorts(owed, ByProvider);
    hide Sort, EntryIs, OwedRecords;
    assert NoRepeats(owed);
    NoRepeatsStays(owed, sorted);
    forall i, j | 0 <= i < j < |sorted| ensures sorted[i].provider != sorted[j].provider {
      assert sorted[i] in owed && sorted[j] in owed && sorted[i] != sorted[j];
    }
    forall p | p in done && OwedRecords(closed, payers, receipts, p) != [] ensures exists e :: e in sorted && e.provider == p {
      var e :| e in owed && e.provider == p;
      assert e in sorted;
    }
  }

  lemma ProviderOrder()
    ensures TotalOrder(ByProvider)
  {
  }

  /* ---------- what a ledger says ---------- */

  lemma OneMoreOwed(before: seq<Counter>, last: Counter, settled: set<Key>, p: Address)
    ensures Unpaid(OfProvider(before + [last], p), settled)
         == Unpaid(OfProvider(before, p), settled) + if last.provider == p && last.key !in settled then [last] else []
  {
    var its := OfProvider(before, p);
    assert (before + [last])[..|before|] == before;
    assert (its + [last])[..|its|] == its && its + [] == its;
    assert Unpaid(its, settled) + [] == Unpaid(its, settled);
  }

  /** How often a record is in a provider's entry. */
  lemma {:induction false} OwedOften(closed: seq<Counter>, settled: set<Key>, p: Address, record: Counter)
    ensures multiset(Unpaid(OfProvider(closed, p), settled))[record]
         == if record.provider == p && record.key !in settled then multiset(closed)[record] else 0
  {
    if closed == [] {
      assert Unpaid(OfProvider(closed, p), settled) == [];
    } else {
      hide Unpaid, OfProvider;
      OwedOften(closed[..|closed| - 1], settled, p, record);
      OwedOnceMore(closed, settled, p, record);
    }
  }

  lemma OwedOnceMore(closed: seq<Counter>, settled: set<Key>, p: Address, record: Counter)
    requires closed != []
    requires var before := closed[..|closed| - 1];
             multiset(Unpaid(OfProvider(before, p), settled))[record]
             == if record.provider == p && record.key !in settled then multiset(before)[record] else 0
    ensures multiset(Unpaid(OfProvider(closed, p), settled))[record]
         == if record.provider == p && record.key !in settled then multiset(closed)[record] else 0
  {
    hide Unpaid, OfProvider;
    var before, last := closed[..|closed| - 1], closed[|closed| - 1];
    OneMoreOwed(before, last, settled, p);
    assert closed == before + [last];
    var owed := Unpaid(OfProvider(before, p), settled);
    Pushed(before, last, record);
    if last.provider == p && last.key !in settled {
      Pushed(owed, last, record);
    } else {
      assert owed + [] == owed;
    }
  }

  lemma Pushed(s: seq<Counter>, last: Counter, record: Counter)
    ensures multiset(s + [last])[record] == multiset(s)[record] + if record == last then 1 else 0
  {
  }

  lemma EntryHolds(closed: seq<Counter>, payers: seq<Address>, receipts: Receipts, p: Address, record: Counter)
    ensures multiset(OwedRecords(closed, payers, receipts, p))[record]
         == if record.provider == p && !IsSettled(payers, receipts, record) then multiset(closed)[record] else 0
  {
    OwedOften(closed, SettledFor(payers, receipts, p), p, record);
    SettledExactly(payers, receipts, p, record.key);
    SortPermutes(Unpaid(OfProvider(closed, p), SettledFor(payers, receipts, p)), ByClosing);
  }

  /** A record is settled and in no entry, or it is in its own provider's entry as often as it was read and in
      no other. */
  lemma RecordsPartition(closed: seq<Counter>, payers: seq<Address>, receipts: Receipts, ledger: Ledger, record: Counter)
    requires LedgerIs(closed, payers, receipts, ledger)
    ensures forall entry :: entry in ledger.owed ==>
              multiset(entry.records)[record]
              == if entry.provider == record.provider && !IsSettled(payers, receipts, record) then multiset(closed)[record] else 0
    ensures record in closed && !IsSettled(payers, receipts, record) ==>
              exists entry :: entry in ledger.owed && entry.provider == record.provider
    ensures ApartByProvider(ledger.owed)
  {
    hide OwedRecords;
    forall entry | entry in ledger.owed
      ensures multiset(entry.records)[record]
           == if entry.provider == record.provider && !IsSettled(payers, receipts, record) then multiset(closed)[record] else 0
    {
      EntryHolds(closed, payers, receipts, entry.provider, record);
    }
    if record in closed && !IsSettled(payers, receipts, record) {
      EntryHolds(closed, payers, receipts, record.provider, record);
      assert record in multiset(closed);
      assert record in multiset(OwedRecords(closed, payers, receipts, record.provider));
      var i :| 0 <= i < |closed| && closed[i] == record;
      assert record.provider in ProvidersOf(closed);
    }
  }

  /** Providers come in strict order, and each one's records by the block their period closed at. */
  lemma InOrder(closed: seq<Counter>, payers: seq<Address>, receipts: Receipts, ledger: Ledger)
    requires LedgerIs(closed, payers, receipts, ledger)
    ensures forall i, j :: 0 <= i < j < |ledger.owed| ==> ledger.owed[i].provider < ledger.owed[j].provider
    ensures forall entry :: entry in ledger.owed ==> entry.records != []
    ensures forall entry, r, q :: entry in ledger.owed && 0 <= r < q < |entry.records| ==>
              entry.records[r].closedBlock <= entry.records[q].closedBlock
  {
    ClosingOrder();
    forall entry | entry in ledger.owed ensures Sorted(entry.records, ByClosing) {
      SortSorts(Unpaid(OfProvider(closed, entry.provider), SettledFor(payers, receipts, entry.provider)), ByClosing);
    }
  }

  lemma ClosingOrder()
    ensures TotalOrder(ByClosing)
  {
  }

  /* ---------- what it adds up to ---------- */

  lemma {:induction false} SumOfInsert(x: Counter, s: seq<Counter>)
    ensures SumOf(Insert(x, s, ByClosing)) == AmountOf(x) + SumOf(s)
  {
    if s == [] || ByClosing(x, s[0]) {
      assert ([x] + s)[1..] == s;
    } else {
      SumOfInsert(x, s[1..]);
      assert ([s[0]] + Insert(x, s[1..], ByClosing))[1..] == Insert(x, s[1..], ByClosing);
    }
  }

  lemma {:induction false} SumOfSort(s: seq<Counter>)
    ensures SumOf(Sort(s, ByClosing)) == SumOf(s)
  {
    if s != [] {
      SumOfSort(s[1..]);
      SumOfInsert(s[0], Sort(s[1..], ByClosing));
    }
  }

  lemma {:induction false} SumOfPush(s: seq<Counter>, x: Counter)
    ensures SumOf(s + [x]) == SumOf(s) + AmountOf(x)
  {
    if s == [] {
      assert s + [x] == [x];
    } else {
      SumOfPush(s[1..], x);
      assert (s + [x])[1..] == s[1..] + [x];
    }
  }

  lemma {:induction false} SumOfProvider(closed: seq<Counter>, payers: seq<Address>, receipts: Receipts, p: Address)
    ensures SumOf(Unpaid(OfProvider(closed, p), SettledFor(payers, receipts, p))) == UnpaidSum(closed, payers, receipts, {p})
  {
    if closed != [] {
      var before, last := closed[..|closed| - 1], closed[|closed| - 1];
      SumOfProvider(before, payers, receipts, p);
      SettledExactly(payers, receipts, p, last.key);
      var its, settled := OfProvider(before, p), SettledFor(payers, receipts, p);
      assert (its + [last])[..|its|] == its && its + [] == its;
      assert Unpaid(its, settled) + [] == Unpaid(its, settled);
      SumOfPush(Unpaid(its, settled), last);
    }
  }

  lemma {:induction false} MoreUnpaid(closed: seq<Counter>, payers: seq<Address>, receipts: Receipts, done: set<Address>, p: Address)
    requires p !in done
    ensures UnpaidSum(closed, payers, receipts, done + {p})
         == UnpaidSum(closed, payers, receipts, done) + UnpaidSum(closed, payers, receipts, {p})
  {
    if closed != [] { MoreUnpaid(closed[..|closed| - 1], payers, receipts, done, p); }
  }

  lemma {:induction false} NoneUnpaid(closed: seq<Counter>, payers: seq<Address>, receipts: Receipts)
    ensures UnpaidSum(closed, payers, receipts, {}) == 0
  {
    if closed != [] { NoneUnpaid(closed[..|closed| - 1], payers, receipts); }
  }

  function ProvidersIn(owed: seq<Owed>): set<Address> {
    set i | 0 <= i < |owed| :: owed[i].provider
  }

  lemma {:induction false} TotalOfEntries(closed: seq<Counter>, payers: seq<Address>, receipts: Receipts, owed: seq<Owed>)
    requires (forall entry :: entry in owed ==> EntryIs(closed, payers, receipts, entry)) && ApartByProvider(owed)
    ensures TotalOf(owed) == UnpaidSum(closed, payers, receipts, ProvidersIn(owed))
  {
    if owed == [] {
      assert ProvidersIn(owed) == {};
      NoneUnpaid(closed, payers, receipts);
    } else {
      var before, last := owed[..|owed| - 1], owed[|owed| - 1];
      assert owed == before + [last];
      hide EntryIs, UnpaidSum;
      TotalOfEntries(closed, payers, receipts, before);
      EntryAmount(closed, payers, receipts, last);
      MoreUnpaid(closed, payers, receipts, ProvidersIn(before), last.provider);
      assert ProvidersIn(owed) == ProvidersIn(before) + {last.provider} by {
        forall i | 0 <= i < |before| ensures owed[i] == before[i] {}
      }
    }
  }

  lemma EntryAmount(closed: seq<Counter>, payers: seq<Address>, receipts: Receipts, entry: Owed)
    requires EntryIs(closed, payers, receipts, entry)
    ensures entry.amountWei == UnpaidSum(closed, payers, receipts, {entry.provider})
  {
    hide SumOf, Sort, Unpaid, UnpaidSum;
    SumOfSort(Unpaid(OfProvider(closed, entry.provider), SettledFor(payers, receipts, entry.provider)));
    SumOfProvider(closed, payers, receipts, entry.provider);
  }

  /** Providers that are owed nothing add nothing. */
  lemma {:induction false} OthersOweNothing(closed: seq<Counter>, payers: seq<Address>, receipts: Receipts,
                                            some: set<Address>, all: set<Address>)
    requires some <= all
    requires forall p :: p in all - some ==> UnpaidSum(closed, payers, receipts, {p}) == 0
    ensures UnpaidSum(closed, payers, receipts, all) == UnpaidSum(closed, payers, receipts, some)
    decreases all - some
  {
    var more := all - some;
    if more == {} {
      forall p | p in all ensures p in some { assert p !in more; }
      assert all == some;
    } else {
      var p :| p in more;
      OthersOweNothing(closed, payers, receipts, some, all - {p});
      MoreUnpaid(closed, payers, receipts, all - {p}, p);
      assert all - {p} + {p} == all;
    }
  }

  /** The records read that some receipt names. */
  ghost function SettledAt(closed: seq<Counter>, payers: seq<Address>, receipts: Receipts): set<nat> {
    set r: nat | r < |closed| && IsSettled(payers, receipts, closed[r])
  }

  lemma {:induction false} PaidIs(closed: seq<Counter>, payers: seq<Address>, receipts: Receipts, providers: set<Address>)
    requires ProvidersOf(closed) <= providers
    ensures PaidCount(closed, payers, receipts, providers) == |SettledAt(closed, payers, receipts)|
  {
    if closed == [] {
      assert SettledAt(closed, payers, receipts) == {};
    } else {
      var before, last := closed[..|closed| - 1], closed[|closed| - 1];
      forall r | 0 <= r < |before| ensures before[r].provider in ProvidersOf(closed) { assert before[r] == closed[r]; }
      assert last.provider in ProvidersOf(closed);
      PaidIs(before, payers, receipts, providers);
      hide IsSettled, ProvidersOf;
      assert SettledAt(closed, payers, receipts)
          == SettledAt(before, payers, receipts) + if IsSettled(payers, receipts, last) then {|before|} else {};
    }
  }

  /** The total is the sum of count times rate over exactly the closed records no receipt names, each entry's amount
      that sum over its provider's, and the paid are the records some receipt names. */
  lemma TotalIsUnpaid(closed: seq<Counter>, payers: seq<Address>, receipts: Receipts, ledger: Ledger)
    requires LedgerIs(closed, payers, receipts, ledger)
    ensures ledger.totalOwedWei == UnpaidSum(closed, payers, receipts, ProvidersOf(closed))
    ensures forall entry :: entry in ledger.owed ==> entry.amountWei == UnpaidSum(closed, payers, receipts, {entry.provider})
    ensures ledger.paid == |SettledAt(closed, payers, receipts)|
  {
    PaidIs(closed, payers, receipts, ProvidersOf(closed));
    forall entry | entry in ledger.owed ensures entry.amountWei == UnpaidSum(closed, payers, receipts, {entry.provider}) {
      EntryAmount(closed, payers, receipts, entry);
    }
    hide IsSettled, SettledAt;
    TotalOfEntries(closed, payers, receipts, ledger.owed);
    var named, all := ProvidersIn(ledger.owed), ProvidersOf(closed);
    forall p | p in all - named ensures UnpaidSum(closed, payers, receipts, {p}) == 0 {
      SumOfProvider(closed, payers, receipts, p);
      SumOfSort(Unpaid(OfProvider(closed, p), SettledFor(payers, receipts, p)));
      forall i | 0 <= i < |ledger.owed| ensures ledger.owed[i].provider != p {}
    }
    OthersOweNothing(closed, payers, receipts, named, all);
  }
}

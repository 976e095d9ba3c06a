/** Slots: how the agent reads its agreements back, and how a poll turns offers into agreements. */
module Slots {
  import opened Basics
  import opened Settings
  import opened Sorting

  datatype Offer = Offer(key: Key, creator: Address, createdAt: nat, expiresAt: nat, chainId: nat)

  datatype Agreement = Agreement(provider: Address, offer: Key, port: nat, createdAt: nat, expiresAt: nat)

  type Agreements = map<Key, Agreement>

  /** What the create of an agreement record came to. Only an unresolved one may have landed unanswered. */
  datatype Answer =
    | Landed(key: Key, record: Record)
    | Unresolved(landed: Option<(Key, Record)>)
    | Failed

  /** Where a record landed, and when it expires. */
  datatype Record = Record(createdAt: nat, expiresAt: nat)

  /** What became of one offer at a poll. */
  datatype Fate =
    | Waits
    | OfferTaken
    | ProviderTaken
    | NoPort
    | Called(port: nat, answer: Answer)

  predicate Holds(fate: Fate) {
    fate.Called? && !fate.answer.Failed?
  }

  function ProvidersOf(known: Agreements): set<Address> {
    set a | a in known :: known[a].provider
  }

  function OffersOf(known: Agreements): set<Key> {
    set a | a in known :: known[a].offer
  }

  function PortsOf(known: Agreements): set<nat> {
    set a | a in known :: known[a].port
  }

  /* ---------- what a poll decides ---------- */

  predicate Posted(left: Offer, right: Offer) {
    left.createdAt < right.createdAt || (left.createdAt == right.createdAt && left.key <= right.key)
  }

  function HeldCount(fates: seq<Fate>): nat {
    if fates == [] then 0 else HeldCount(fates[..|fates| - 1]) + if Holds(fates[|fates| - 1]) then 1 else 0
  }

  function HeldProviders(offers: seq<Offer>, fates: seq<Fate>): set<Address>
    requires |fates| <= |offers|
  {
    set i | 0 <= i < |fates| && Holds(fates[i]) :: offers[i].creator
  }

  function HeldPorts(fates: seq<Fate>): set<nat> {
    set i | 0 <= i < |fates| && Holds(fates[i]) :: fates[i].port
  }

  function FreeSlots(m: Marketplace, known: Agreements): nat {
    SaturatingSub(m.maxProviders, |known|)
  }

  /** The tunnel server still has the port bound when offer `i` or an earlier one is looked at. */
  predicate StaleBy(bound: (nat, nat) -> bool, i: nat, port: nat) {
    exists j: nat :: j <= i && bound(j, port)
  }

  predicate InUse(known: Agreements, fates: seq<Fate>, bound: (nat, nat) -> bool, i: nat, port: nat) {
    port in PortsOf(known) || port in HeldPorts(fates) || StaleBy(bound, i, port)
  }

  /** The fate of offer `i`, given the fates of the ones before it: what is tried, in which order, and the
      lowest port nothing uses. */
  ghost predicate Fits(m: Marketplace, known: Agreements, bound: (nat, nat) -> bool, offers: seq<Offer>, fates: seq<Fate>, i: nat)
    requires i < |fates| <= |offers| && m.remotePortStart <= U16_MAX
  {
    var before, offer := fates[..i], offers[i];
    if HeldCount(before) >= FreeSlots(m, known) then fates[i] == Waits
    else if offer.key in OffersOf(known) then fates[i] == OfferTaken
    else if offer.creator in ProvidersOf(known) + HeldProviders(offers, before) then fates[i] == ProviderTaken
    else match fates[i] {
      case Called(port, _) =>
        && port in RemotePorts(m) && port !in PortsOf(known) && port !in HeldPorts(before) && !bound(i, port)
        && forall lower :: lower in RemotePorts(m) && lower < port ==> InUse(known, before, bound, i, lower)
      case NoPort => forall p :: p in RemotePorts(m) ==> InUse(known, before, bound, i, p)
      case _ => false
    }
  }

  /** A poll's fates: one an offer in order, until a slot has no port left. */
  ghost predicate Decided(m: Marketplace, known: Agreements, bound: (nat, nat) -> bool, answers: nat -> Answer,
                          offers: seq<Offer>, fates: seq<Fate>)
    requires m.remotePortStart <= U16_MAX
  {
    && |fates| <= |offers|
    && (forall i: nat :: i < |fates| ==>
         Fits(m, known, bound, offers, fates, i) && (fates[i].Called? ==> fates[i].answer == answers(i)))
    && (forall i: nat :: i < |fates| && fates[i].NoPort? ==> i == |fates| - 1)
    && (|fates| < |offers| ==> fates != [] && fates[|fates| - 1].NoPort?)
  }

  function NewAgreement(offer: Offer, port: nat, createdAt: nat, expiresAt: nat): Agreement {
    Agreement(offer.creator, offer.key, port, createdAt, expiresAt)
  }

  /** The record a call left on the chain, if it did. */
  function LandedOf(fate: Fate): Option<(Key, Record)> {
    match fate
    case Called(_, Landed(key, record)) => Some((key, record))
    case Called(_, Unresolved(landed)) => landed
    case _ => None
  }

  /** What landed, as the agent knows it: the block it landed in is not in the answer, so the head stands for it. */
  function Learned(known: Agreements, offers: seq<Offer>, fates: seq<Fate>, head: nat): Agreements
    requires |fates| <= |offers|
  {
    if fates == [] then known
    else
      var last := |fates| - 1;
      var before, fate := Learned(known, offers, fates[..last], head), fates[last];
      if fate.Called? && fate.answer.Landed?
      then before[fate.answer.key := NewAgreement(offers[last], fate.port, head, fate.answer.record.expiresAt)] else before
  }

  /** What landed, answered or not. */
  function OnChain(chain: Agreements, offers: seq<Offer>, fates: seq<Fate>): Agreements
    requires |fates| <= |offers|
  {
    if fates == [] then chain
    else
      var last := |fates| - 1;
      var before, landed := OnChain(chain, offers, fates[..last]), LandedOf(fates[last]);
      if landed.None? then before
      else before[landed.value.0 :=
             NewAgreement(offers[last], fates[last].port, landed.value.1.createdAt, landed.value.1.expiresAt)]
  }

  /* ---------- reading agreements back ---------- */

  datatype AgreementRow = AgreementRow(key: Key, agreement: Agreement)

  /** Memory after one more live record: known ones learn their blocks, a new one is adopted unless its
      provider has one already. */
  function AdoptedOne(known: Agreements, row: AgreementRow): Agreements {
    if row.key in known then
      known[row.key := known[row.key].(createdAt := row.agreement.createdAt, expiresAt := row.agreement.expiresAt)]
    else if row.agreement.provider in ProvidersOf(known) then known
    else known[row.key := row.agreement]
  }

  function Adopted(known: Agreements, rows: seq<AgreementRow>): Agreements {
    if rows == [] then known else AdoptedOne(Adopted(known, rows[..|rows| - 1]), rows[|rows| - 1])
  }

  /* ---------- the agent ---------- */

  class Agent {
    const marketplace: Marketplace
    const chainId: nat
    var agreements: Agreements

    constructor (marketplace: Marketplace, chainId: nat)
      ensures this.marketplace == marketplace && this.chainId == chainId && agreements == map[]
    {
      this.marketplace, this.chainId, agreements := marketplace, chainId, map[];
    }

    /** The agreements memory has and the chain does not. */
    method EndAgreements(live: set<Key>)
      modifies this`agreements
      ensures agreements == map a | a in old(agreements) && a in live :: old(agreements)[a]
    {
      var gone := agreements.Keys - live;
      agreements := agreements - gone;
    }

    /** The agreements the chain has, oldest first. */
    method AdoptAgreements(rows: seq<AgreementRow>)
      modifies this`agreements
      ensures agreements == Adopted(old(agreements), rows)
    {
      for i := 0 to |rows|
        invariant agreements == Adopted(old(agreements), rows[..i])
      {
        var row := rows[i];
        assert rows[..i + 1][..i] == rows[..i];
        if row.key in agreements {
          agreements := agreements[row.key :=
            agreements[row.key].(createdAt := row.agreement.createdAt, expiresAt := row.agreement.expiresAt)];
        } else if forall other :: other in agreements.Keys ==> agreements[other].provider != row.agreement.provider {
          agreements := agreements[row.key := row.agreement];
        }
      }
      assert rows[..|rows|] == rows;
    }

    /** The lowest port nothing holds and nothing is bound to; the bound ones on the way are set aside. */
    method FindPort(used: set<nat>, i: nat, bound: (nat, nat) -> bool) returns (port: Option<nat>, nowUsed: set<nat>)
      requires marketplace.remotePortStart <= U16_MAX
      ensures port.Some? ==>
                && port.value in RemotePorts(marketplace) && port.value !in used && !bound(i, port.value)
                && forall lower :: lower in RemotePorts(marketplace) && lower < port.value ==> lower in used || bound(i, lower)
      ensures port.None? ==> forall p :: p in RemotePorts(marketplace) ==> p in used || bound(i, p)
      ensures forall p :: p in nowUsed ==> p in used || bound(i, p)
      ensures used <= nowUsed && (port.Some? ==> port.value !in nowUsed)
    {
      nowUsed := used;
      var candidates := RemotePorts(marketplace);
      for c := 0 to |candidates|
        invariant forall k :: 0 <= k < c ==> candidates[k] in used || bound(i, candidates[k])
        invariant forall p :: p in nowUsed ==> p in used || (bound(i, p) && p in candidates[..c])
        invariant used <= nowUsed
      {
        var candidate := candidates[c];
        if candidate in nowUsed { continue; }
        if bound(i, candidate) {
          nowUsed := nowUsed + {candidate};
          continue;
        }
        return Some(candidate), nowUsed;
      }
      return None, nowUsed;
    }

    /** One acceptance. Returns whether the slot and the port are held. */
    method Accept(offer: Offer, port: nat, head: nat, answer: Answer) returns (held: bool)
      modifies this`agreements
      ensures held <==> answer.Landed? || answer.Unresolved?
      ensures agreements == if answer.Landed?
                            then old(agreements)[answer.key := NewAgreement(offer, port, head, answer.record.expiresAt)]
                            else old(agreements)
    {
      match answer
      case Landed(key, record) =>
        agreements := agreements[key := Agreement(offer.creator, offer.key, port, head, record.expiresAt)];
        held := true;
      case Unresolved(_) => held := true;
      case Failed => held := false;
    }

    /** The offers for this chain, oldest first. */
    method ReadOffers(page: seq<Offer>) returns (offers: seq<Offer>)
      ensures offers == Sort(ForChain(page, chainId), Posted)
    {
      offers := [];
      for i := 0 to |page|
        invariant offers == ForChain(page[..i], chainId)
      {
        assert page[..i + 1][..i] == page[..i];
        if page[i].chainId == chainId { offers := offers + [page[i]]; }
      }
      assert page[..|page|] == page;
      offers := Sort(offers, Posted);
    }

    /** What is tried for one offer. */
    method Decide(i: nat, offers: seq<Offer>, taken: set<Key>, providers: set<Address>, used: set<nat>, full: bool,
                  head: nat, answers: nat -> Answer, bound: (nat, nat) -> bool)
      returns (fate: Fate, nowUsed: set<nat>)
      requires marketplace.remotePortStart <= U16_MAX && i < |offers|
      modifies this`agreements
      ensures fate == if full then Waits else if offers[i].key in taken then OfferTaken
                      else if offers[i].creator in providers then ProviderTaken
                      else if fate.Called? then Called(fate.port, answers(i)) else NoPort
      ensures fate.Called? ==>
                && fate.port in RemotePorts(marketplace) && fate.port !in used && !bound(i, fate.port)
                && forall lower :: lower in RemotePorts(marketplace) && lower < fate.port ==> lower in used || bound(i, lower)
      ensures fate.NoPort? ==> forall p :: p in RemotePorts(marketplace) ==> p in used || bound(i, p)
      ensures used <= nowUsed && forall p :: p in nowUsed ==> p in used || bound(i, p) || (Holds(fate) && p == fate.port)
      ensures Holds(fate) ==> fate.port in nowUsed
      ensures agreements == if fate.Called? && fate.answer.Landed?
                            then old(agreements)[fate.answer.key := NewAgreement(offers[i], fate.port, head, fate.answer.record.expiresAt)]
                            else old(agreements)
    {
      nowUsed := used;
      if full { return Waits, used; }
      if offers[i].key in taken { return OfferTaken, used; }
      if offers[i].creator in providers { return ProviderTaken, used; }
      var port;
      port, nowUsed := FindPort(used, i, bound);
      if port.None? { return NoPort, nowUsed; }
      fate := Called(port.value, answers(i));
      var held := Accept(offers[i], port.value, head, answers(i));
      if held { nowUsed := nowUsed + {port.value}; }
    }

    /** One poll's offers: oldest first, one a provider, up to the free slots, each on the lowest free port. */
    method DiscoverOffers(head: nat, page: seq<Offer>, answers: nat -> Answer, bound: (nat, nat) -> bool)
      returns (offers: seq<Offer>, fates: seq<Fate>)
      requires marketplace.remotePortStart <= U16_MAX
      modifies this`agreements
      ensures offers == Sort(ForChain(page, chainId), Posted)
      ensures OffersOfChain(page, chainId, offers)
      ensures EachTold(marketplace, old(agreements), bound, answers, offers, fates)
      ensures LearnsLanded(old(agreements), offers, fates, head, agreements)
      ensures Decided(marketplace, old(agreements), bound, answers, offers, fates)
      ensures agreements == Learned(old(agreements), offers, fates, head)
    {
      offers := ReadOffers(page);
      hide RemotePorts, PortsOf, OffersOf, ProvidersOf, Sort, Fits, Learned, HeldCount, HeldProviders, HeldPorts, UsedAre,
           GoingOn, Decided, OffersOfChain, EachTold, LearnsLanded;
      NoneHeld(marketplace, agreements, offers, bound, answers, head);
      ghost var known := agreements;
      var free := SaturatingSub(marketplace.maxProviders, |agreements|);
      var taken, providers, used := OffersOf(agreements), ProvidersOf(agreements), PortsOf(agreements);
      var accepted := 0;
      fates := [];
      for i := 0 to |offers|
        invariant |fates| == i && accepted == HeldCount(fates)
        invariant providers == ProvidersOf(known) + HeldProviders(offers, fates)
        invariant UsedAre(known, fates, bound, used)
        invariant agreements == Learned(known, offers, fates, head)
        invariant GoingOn(marketplace, known, bound, answers, offers, fates)
      {
        var fate, nowUsed := Decide(i, offers, taken, providers, used, accepted >= free, head, answers, bound);
        OneMore(marketplace, known, bound, answers, offers, fates, fate, used, nowUsed, head);
        fates, used := fates + [fate], nowUsed;
        if fate.NoPort? {
          PollTells(marketplace, known, bound, answers, offers, fates, head, page, chainId);
          return;
        }
        if Holds(fate) { providers, accepted := providers + {offers[i].creator}, accepted + 1; }
      }
      AllDecided(marketplace, known, bound, answers, offers, fates);
      PollTells(marketplace, known, bound, answers, offers, fates, head, page, chainId);
    }
  }

  function ForChain(page: seq<Offer>, chainId: nat): seq<Offer> {
    if page == [] then []
    else ForChain(page[..|page| - 1], chainId) + if page[|page| - 1].chainId == chainId then [page[|page| - 1]] else []
  }

  /* ---------- what a poll comes to ---------- */

  /** The offers of the page that name the chain, each as often as read, by the block they were posted in and then by
      key. */
  ghost predicate OffersOfChain(page: seq<Offer>, chainId: nat, offers: seq<Offer>) {
    && (forall offer :: multiset(offers)[offer] == if offer.chainId == chainId then multiset(page)[offer] else 0)
    && forall i, j :: 0 <= i < j < |offers| ==>
         offers[i].createdAt < offers[j].createdAt
         || (offers[i].createdAt == offers[j].createdAt && offers[i].key <= offers[j].key)
  }

  /** The offers before the `i`-th whose slot and port stay held: the call landed, or may have. */
  function Kept(fates: seq<Fate>, i: nat): set<nat>
    requires i <= |fates|
  {
    set j: nat | j < i && fates[j].Called? && (fates[j].answer.Landed? || fates[j].answer.Unresolved?)
  }

  /** A port of the configuration that nobody holds when offer `i` is looked at and nothing was bound to by then. */
  ghost predicate PortFree(m: Marketplace, known: Agreements, bound: (nat, nat) -> bool, fates: seq<Fate>, i: nat, p: nat)
    requires i <= |fates|
  {
    && m.remotePortStart <= p < m.remotePortStart + m.maxProviders && p <= U16_MAX
    && PortUnheld(known, fates, i, p) && forall j: nat :: j <= i ==> !bound(j, p)
  }

  ghost predicate PortUnheld(known: Agreements, fates: seq<Fate>, i: nat, p: nat)
    requires i <= |fates|
  {
    (forall a :: a in known ==> known[a].port != p) && forall j :: j in Kept(fates, i) ==> fates[j].port != p
  }

  /** The agreements in memory and the slots held earlier in the poll have reached the cap. */
  predicate CapReached(m: Marketplace, known: Agreements, fates: seq<Fate>, i: nat)
    requires i <= |fates|
  {
    |known| + |Kept(fates, i)| >= m.maxProviders
  }

  predicate OfferAccepted(known: Agreements, offer: Key) {
    exists a :: a in known.Keys && known[a].offer == offer
  }

  predicate ProviderHas(known: Agreements, offers: seq<Offer>, fates: seq<Fate>, i: nat, provider: Address)
    requires i <= |fates| <= |offers|
  {
    (exists a :: a in known.Keys && known[a].provider == provider) || exists j :: j in Kept(fates, i) && offers[j].creator == provider
  }

  /** What an offer meets, and why: it waits if and only if the cap is reached; else it is passed over if and only if
      it was accepted already or its provider has an agreement; else it is called on the lowest free port, and only
      when none is free is there no call. */
  ghost predicate Told(m: Marketplace, known: Agreements, bound: (nat, nat) -> bool, answers: nat -> Answer, offers: seq<Offer>,
                       fates: seq<Fate>, i: nat)
    requires i < |fates| <= |offers|
  {
    && (fates[i] == Waits <==> CapReached(m, known, fates, i))
    && (fates[i] == OfferTaken <==> !CapReached(m, known, fates, i) && OfferAccepted(known, offers[i].key))
    && (fates[i] == ProviderTaken <==>
          && !CapReached(m, known, fates, i) && !OfferAccepted(known, offers[i].key)
          && ProviderHas(known, offers, fates, i, offers[i].creator))
    && (fates[i].Called? ==>
          && fates[i].answer == answers(i)
          && m.remotePortStart <= fates[i].port < m.remotePortStart + m.maxProviders && fates[i].port <= U16_MAX
          && PortUnheld(known, fates, i, fates[i].port) && !bound(i, fates[i].port)
          && forall p: nat :: p < fates[i].port ==> !PortFree(m, known, bound, fates, i, p))
    && (fates[i] == NoPort ==> forall p: nat :: !PortFree(m, known, bound, fates, i, p))
  }

  /** Every offer is told, in order, but for those after one there is no port for. */
  ghost predicate EachTold(m: Marketplace, known: Agreements, bound: (nat, nat) -> bool, answers: nat -> Answer,
                           offers: seq<Offer>, fates: seq<Fate>) {
    && |fates| <= |offers|
    && (forall i: nat :: i < |fates| ==> Told(m, known, bound, answers, offers, fates, i) && (fates[i] == NoPort ==> i == |fates| - 1))
    && (|fates| < |offers| ==> fates != [] && fates[|fates| - 1] == NoPort)
  }

  /** Memory keeps what it had and learns exactly the agreements whose create was answered, at the head of the poll. */
  ghost predicate LearnsLanded(known: Agreements, offers: seq<Offer>, fates: seq<Fate>, head: nat, after: Agreements)
    requires |fates| <= |offers|
  {
    && (forall a :: a in known ==> a in after)
    && (forall i :: 0 <= i < |fates| && fates[i].Called? && fates[i].answer.Landed? ==> fates[i].answer.key in after)
    && (forall a :: a in after ==>
          || (a in known && after[a] == known[a])
          || (exists i :: 0 <= i < |fates| && LandedAs(offers[i], fates[i], head, a, after[a])))
  }

  predicate LandedAs(offer: Offer, fate: Fate, head: nat, a: Key, agreement: Agreement) {
    && fate.Called? && fate.answer.Landed? && fate.answer.key == a
    && agreement == Agreement(offer.creator, offer.key, fate.port, head, fate.answer.record.expiresAt)
  }

  lemma {:induction false} ForChainCounts(page: seq<Offer>, chainId: nat, offer: Offer)
    ensures multiset(ForChain(page, chainId))[offer] == if offer.chainId == chainId then multiset(page)[offer] else 0
  {
    if page != [] {
      var before, last := page[..|page| - 1], page[|page| - 1];
      ForChainCounts(before, chainId, offer);
      assert page == before + [last];
    }
  }

  lemma PostedOrder()
    ensures TotalOrder(Posted)
  {
  }

  lemma OffersAre(page: seq<Offer>, chainId: nat)
    ensures OffersOfChain(page, chainId, Sort(ForChain(page, chainId), Posted))
  {
    var its := ForChain(page, chainId);
    forall offer { ForChainCounts(page, chainId, offer); }
    PostedOrder();
    SortPermutes(its, Posted);
    SortSorts(its, Posted);
    hide ForChain, Sort;
    forall i, j | 0 <= i < j < |Sort(its, Posted)| ensures Posted(Sort(its, Posted)[i], Sort(its, Posted)[j]) {}
  }

  lemma {:induction false} HeldCountIs(fates: seq<Fate>)
    ensures HeldCount(fates) == |Kept(fates, |fates|)|
  {
    if fates == [] {
      assert Kept(fates, 0) == {};
    } else {
      var last := |fates| - 1;
      HeldCountIs(fates[..last]);
      assert Kept(fates, |fates|) == Kept(fates[..last], last) + if Holds(fates[last]) then {last} else {};
    }
  }

  lemma KeptIs(fates: seq<Fate>, i: nat)
    requires i <= |fates|
    ensures Kept(fates, i) == Kept(fates[..i], i) && HeldCount(fates[..i]) == |Kept(fates, i)|
  {
    assert forall j: nat :: j < i ==> fates[..i][j] == fates[j];
    HeldCountIs(fates[..i]);
  }

  lemma PortFreeIs(m: Marketplace, known: Agreements, bound: (nat, nat) -> bool, fates: seq<Fate>, i: nat, p: nat)
    requires i <= |fates| && m.remotePortStart <= U16_MAX
    ensures PortUnheld(known, fates, i, p) <==> p !in PortsOf(known) && p !in HeldPorts(fates[..i])
    ensures PortFree(m, known, bound, fates, i, p) <==> p in RemotePorts(m) && !InUse(known, fates[..i], bound, i, p)
  {
    RemotePortsAre(m);
    hide RemotePorts;
    if p in HeldPorts(fates[..i]) {
      var j: nat :| j < i && Holds(fates[..i][j]) && fates[..i][j].port == p;
      assert j in Kept(fates, i) && fates[j].port == p;
    }
    forall j | j in Kept(fates, i) ensures fates[j].port in HeldPorts(fates[..i]) { assert fates[..i][j] == fates[j]; }
    assert StaleBy(bound, i, p) <==> exists j: nat :: j <= i && bound(j, p);
  }

  lemma ProviderHasIs(known: Agreements, offers: seq<Offer>, fates: seq<Fate>, i: nat, provider: Address)
    requires i <= |fates| <= |offers|
    ensures ProviderHas(known, offers, fates, i, provider) <==> provider in ProvidersOf(known) + HeldProviders(offers, fates[..i])
  {
    if provider in HeldProviders(offers, fates[..i]) {
      var j: nat :| j < i && Holds(fates[..i][j]) && offers[j].creator == provider;
      assert j in Kept(fates, i);
    }
    if j :| j in Kept(fates, i) && offers[j].creator == provider { assert fates[..i][j] == fates[j]; }
    if a :| a in known && known[a].provider == provider { assert a in known.Keys; }
  }

  lemma TellsOne(m: Marketplace, known: Agreements, bound: (nat, nat) -> bool, answers: nat -> Answer, offers: seq<Offer>,
                 fates: seq<Fate>, i: nat)
    requires m.remotePortStart <= U16_MAX && i < |fates| <= |offers|
    requires Fits(m, known, bound, offers, fates, i) && (fates[i].Called? ==> fates[i].answer == answers(i))
    ensures Told(m, known, bound, answers, offers, fates, i)
  {
    KeptIs(fates, i);
    ProviderHasIs(known, offers, fates, i, offers[i].creator);
    OfferAcceptedIs(known, offers[i].key);
    RemotePortsAre(m);
    forall p: nat
      ensures PortUnheld(known, fates, i, p) <==> p !in PortsOf(known) && p !in HeldPorts(fates[..i])
      ensures PortFree(m, known, bound, fates, i, p) <==> p in RemotePorts(m) && !InUse(known, fates[..i], bound, i, p)
    {
      PortFreeIs(m, known, bound, fates, i, p);
    }
    hide RemotePorts, PortsOf, OffersOf, ProvidersOf, HeldCount, HeldProviders, HeldPorts, InUse, Kept, PortUnheld, PortFree,
         ProviderHas, OfferAccepted;
  }

  lemma OfferAcceptedIs(known: Agreements, offer: Key)
    ensures OfferAccepted(known, offer) <==> offer in OffersOf(known)
  {
    if a :| a in known && known[a].offer == offer { assert a in known.Keys; }
  }

  lemma {:induction false} LearnedSays(known: Agreements, offers: seq<Offer>, fates: seq<Fate>, head: nat)
    requires |fates| <= |offers|
    ensures LearnsLanded(known, offers, fates, head, Learned(known, offers, fates, head))
  {
    if fates != [] {
      var last := |fates| - 1;
      var before := Learned(known, offers, fates[..last], head);
      LearnedSays(known, offers, fates[..last], head);
      assert forall i :: 0 <= i < last ==> fates[..last][i] == fates[i];
      var after := Learned(known, offers, fates, head);
      forall a | a in after
        ensures (a in known && after[a] == known[a])
             || (exists i :: 0 <= i < |fates| && LandedAs(offers[i], fates[i], head, a, after[a]))
      {
        if fates[last].Called? && fates[last].answer.Landed? && fates[last].answer.key == a {
          assert LandedAs(offers[last], fates[last], head, a, after[a]);
        } else if !(a in known && after[a] == known[a]) {
          var i :| 0 <= i < last && LandedAs(offers[i], fates[..last][i], head, a, before[a]);
          assert LandedAs(offers[i], fates[i], head, a, after[a]);
        }
      }
    }
  }

  lemma PollTells(m: Marketplace, known: Agreements, bound: (nat, nat) -> bool, answers: nat -> Answer, offers: seq<Offer>,
                  fates: seq<Fate>, head: nat, page: seq<Offer>, chainId: nat)
    requires m.remotePortStart <= U16_MAX && Decided(m, known, bound, answers, offers, fates)
    requires offers == Sort(ForChain(page, chainId), Posted)
    ensures OffersOfChain(page, chainId, offers)
    ensures EachTold(m, known, bound, answers, offers, fates)
    ensures LearnsLanded(known, offers, fates, head, Learned(known, offers, fates, head))
  {
    hide Fits, Told, Sort, ForChain, OffersOfChain, LearnsLanded;
    OffersAre(page, chainId);
    LearnedSays(known, offers, fates, head);
    forall i: nat | i < |fates| ensures Told(m, known, bound, answers, offers, fates, i) {
      TellsOne(m, known, bound, answers, offers, fates, i);
    }
  }

  /** With room under the cap, an offer not accepted before, of a provider without an agreement, is called as soon as
      one port is free; the last slot is given away like any other. */
  lemma RoomMakesACall(m: Marketplace, known: Agreements, bound: (nat, nat) -> bool, answers: nat -> Answer, offers: seq<Offer>,
                       fates: seq<Fate>, i: nat, p: nat)
    requires i < |fates| <= |offers| && Told(m, known, bound, answers, offers, fates, i)
    requires |known| + |Kept(fates, i)| < m.maxProviders && !OfferAccepted(known, offers[i].key)
    requires !ProviderHas(known, offers, fates, i, offers[i].creator) && PortFree(m, known, bound, fates, i, p)
    ensures fates[i].Called? && fates[i].port <= p && fates[i].answer == answers(i)
  {
    hide PortFree, PortUnheld, Kept, OfferAccepted, ProviderHas;
  }

  /* ---------- the loop's steps ---------- */

  /** What the loop holds used: every port held, and on top of those only stale ones. */
  ghost predicate UsedAre(known: Agreements, fates: seq<Fate>, bound: (nat, nat) -> bool, used: set<nat>) {
    && PortsOf(known) + HeldPorts(fates) <= used
    && forall p :: p in used ==> p in PortsOf(known) || p in HeldPorts(fates) || exists j: nat :: j < |fates| && bound(j, p)
  }

  /** Every offer so far has its fate, and none ran out of ports. */
  ghost predicate GoingOn(m: Marketplace, known: Agreements, bound: (nat, nat) -> bool, answers: nat -> Answer,
                          offers: seq<Offer>, fates: seq<Fate>)
    requires m.remotePortStart <= U16_MAX
  {
    && |fates| <= |offers|
    && forall j: nat :: j < |fates| ==>
         Fits(m, known, bound, offers, fates, j) && !fates[j].NoPort? && (fates[j].Called? ==> fates[j].answer == answers(j))
  }

  lemma NoneHeld(m: Marketplace, known: Agreements, offers: seq<Offer>, bound: (nat, nat) -> bool, answers: nat -> Answer, head: nat)
    requires m.remotePortStart <= U16_MAX
    ensures HeldCount([]) == 0 && HeldProviders(offers, []) == {}
    ensures ProvidersOf(known) + {} == ProvidersOf(known)
    ensures UsedAre(known, [], bound, PortsOf(known)) && Learned(known, offers, [], head) == known
    ensures GoingOn(m, known, bound, answers, offers, [])
  {
  }

  lemma FitsLast(m: Marketplace, known: Agreements, bound: (nat, nat) -> bool, offers: seq<Offer>, before: seq<Fate>,
                 fate: Fate, used: set<nat>)
    requires m.remotePortStart <= U16_MAX && |before| < |offers| && UsedAre(known, before, bound, used)
    requires var i := |before|;
             && fate == (if HeldCount(before) >= FreeSlots(m, known) then Waits
                         else if offers[i].key in OffersOf(known) then OfferTaken
                         else if offers[i].creator in ProvidersOf(known) + HeldProviders(offers, before) then ProviderTaken
                         else if fate.Called? then fate else NoPort)
             && (fate.Called? ==>
                   && fate.port in RemotePorts(m) && fate.port !in used && !bound(i, fate.port)
                   && forall lower :: lower in RemotePorts(m) && lower < fate.port ==> lower in used || bound(i, lower))
             && (fate.NoPort? ==> forall p :: p in RemotePorts(m) ==> p in used || bound(i, p))
    ensures Fits(m, known, bound, offers, before + [fate], |before|)
  {
    hide RemotePorts, PortsOf, OffersOf, ProvidersOf, HeldCount, HeldProviders, HeldPorts;
    assert (before + [fate])[..|before|] == before;
    forall p | p in used || bound(|before|, p) ensures InUse(known, before, bound, |before|, p) {
      if j: nat :| j < |before| && bound(j, p) { assert StaleBy(bound, |before|, p); }
    }
  }

  /** One more fate leaves the earlier ones as they were. */
  lemma FitsEarlier(m: Marketplace, known: Agreements, bound: (nat, nat) -> bool, offers: seq<Offer>, before: seq<Fate>,
                    fate: Fate, j: nat)
    requires m.remotePortStart <= U16_MAX && j < |before| < |offers|
    ensures Fits(m, known, bound, offers, before + [fate], j) <==> Fits(m, known, bound, offers, before, j)
  {
    assert (before + [fate])[..j] == before[..j] && (before + [fate])[j] == before[j];
    hide RemotePorts, PortsOf, OffersOf, ProvidersOf, HeldCount, HeldProviders, HeldPorts, InUse;
  }

  lemma OneMoreFate(m: Marketplace, known: Agreements, bound: (nat, nat) -> bool, answers: nat -> Answer, offers: seq<Offer>,
                    before: seq<Fate>, fate: Fate)
    requires m.remotePortStart <= U16_MAX && |before| < |offers|
    requires GoingOn(m, known, bound, answers, offers, before) && Fits(m, known, bound, offers, before + [fate], |before|)
    requires fate.Called? ==> fate.answer == answers(|before|)
    ensures !fate.NoPort? ==> GoingOn(m, known, bound, answers, offers, before + [fate])
    ensures fate.NoPort? ==> Decided(m, known, bound, answers, offers, before + [fate])
  {
    hide Fits;
    forall j: nat | j < |before| ensures Fits(m, known, bound, offers, before + [fate], j) {
      FitsEarlier(m, known, bound, offers, before, fate, j);
    }
  }

  lemma AllDecided(m: Marketplace, known: Agreements, bound: (nat, nat) -> bool, answers: nat -> Answer, offers: seq<Offer>,
                   fates: seq<Fate>)
    requires m.remotePortStart <= U16_MAX && |fates| == |offers|
    requires GoingOn(m, known, bound, answers, offers, fates)
    ensures Decided(m, known, bound, answers, offers, fates)
  {
    hide Fits;
  }

  lemma OneMoreHeld(known: Agreements, offers: seq<Offer>, before: seq<Fate>, fate: Fate, bound: (nat, nat) -> bool,
                    used: set<nat>, nowUsed: set<nat>)
    requires |before| < |offers| && UsedAre(known, before, bound, used)
    requires used <= nowUsed && (Holds(fate) ==> fate.port in nowUsed)
    requires forall p :: p in nowUsed ==> p in used || bound(|before|, p) || (Holds(fate) && p == fate.port)
    ensures HeldCount(before + [fate]) == HeldCount(before) + if Holds(fate) then 1 else 0
    ensures HeldProviders(offers, before + [fate])
         == HeldProviders(offers, before) + if Holds(fate) then {offers[|before|].creator} else {}
    ensures HeldPorts(before + [fate]) == HeldPorts(before) + if Holds(fate) then {fate.port} else {}
    ensures UsedAre(known, before + [fate], bound, nowUsed)
  {
    hide PortsOf, ProvidersOf;
    var after := before + [fate];
    assert after[..|before|] == before;
    HeldMore(offers, before, fate);
    forall p | p in nowUsed
      ensures p in PortsOf(known) || p in HeldPorts(after) || exists j: nat :: j < |after| && bound(j, p)
    {
      if p in used {
        if j: nat :| j < |before| && bound(j, p) { assert j < |after|; }
      }
    }
  }

  lemma HeldMore(offers: seq<Offer>, before: seq<Fate>, fate: Fate)
    requires |before| < |offers|
    ensures HeldProviders(offers, before + [fate])
         == HeldProviders(offers, before) + if Holds(fate) then {offers[|before|].creator} else {}
    ensures HeldPorts(before + [fate]) == HeldPorts(before) + if Holds(fate) then {fate.port} else {}
  {
    var after := before + [fate];
    forall i: nat | i < |before| ensures after[i] == before[i] {}
    assert after[|before|] == fate;
    assert forall p :: p in HeldPorts(before) ==> p in HeldPorts(after);
    assert forall p :: p in HeldProviders(offers, before) ==> p in HeldProviders(offers, after);
  }

  /** One turn of the loop: what it decided fits, and what it holds grows by it. */
  lemma OneMore(m: Marketplace, known: Agreements, bound: (nat, nat) -> bool, answers: nat -> Answer, offers: seq<Offer>,
                before: seq<Fate>, fate: Fate, used: set<nat>, nowUsed: set<nat>, head: nat)
    requires m.remotePortStart <= U16_MAX && |before| < |offers|
    requires UsedAre(known, before, bound, used) && GoingOn(m, known, bound, answers, offers, before)
    requires fate == if HeldCount(before) >= SaturatingSub(m.maxProviders, |known|) then Waits
                     else if offers[|before|].key in OffersOf(known) then OfferTaken
                     else if offers[|before|].creator in ProvidersOf(known) + HeldProviders(offers, before) then ProviderTaken
                     else if fate.Called? then Called(fate.port, answers(|before|)) else NoPort
    requires fate.Called? ==>
               && fate.port in RemotePorts(m) && fate.port !in used && !bound(|before|, fate.port)
               && forall lower :: lower in RemotePorts(m) && lower < fate.port ==> lower in used || bound(|before|, lower)
    requires fate.NoPort? ==> forall p :: p in RemotePorts(m) ==> p in used || bound(|before|, p)
    requires used <= nowUsed && (Holds(fate) ==> fate.port in nowUsed)
    requires forall p :: p in nowUsed ==> p in used || bound(|before|, p) || (Holds(fate) && p == fate.port)
    ensures !fate.NoPort? ==> GoingOn(m, known, bound, answers, offers, before + [fate])
    ensures fate.NoPort? ==> Decided(m, known, bound, answers, offers, before + [fate])
    ensures UsedAre(known, before + [fate], bound, nowUsed)
    ensures HeldCount(before + [fate]) == HeldCount(before) + if Holds(fate) then 1 else 0
    ensures HeldProviders(offers, before + [fate])
         == HeldProviders(offers, before) + if Holds(fate) then {offers[|before|].creator} else {}
    ensures Learned(known, offers, before + [fate], head)
         == if fate.Called? && fate.answer.Landed?
            then Learned(known, offers, before, head)
                   [fate.answer.key := NewAgreement(offers[|before|], fate.port, head, fate.answer.record.expiresAt)]
            else Learned(known, offers, before, head)
  {
    hide RemotePorts, PortsOf, OffersOf, ProvidersOf, Fits, Learned, HeldCount, HeldProviders, HeldPorts, UsedAre, GoingOn, Decided;
    FitsLast(m, known, bound, offers, before, fate, used);
    OneMoreFate(m, known, bound, answers, offers, before, fate);
    OneMoreHeld(known, offers, before, fate, bound, used, nowUsed);
    LearnedMore(known, offers, before, fate, head);
  }

  lemma LearnedMore(known: Agreements, offers: seq<Offer>, before: seq<Fate>, fate: Fate, head: nat)
    requires |before| < |offers|
    ensures Learned(known, offers, before + [fate], head)
         == if fate.Called? && fate.answer.Landed?
            then Learned(known, offers, before, head)
                   [fate.answer.key := NewAgreement(offers[|before|], fate.port, head, fate.answer.record.expiresAt)]
            else Learned(known, offers, before, head)
  {
    assert (before + [fate])[..|before|] == before;
  }
}

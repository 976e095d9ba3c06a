/** Slots over whole runs: ports, providers and offers stay apart, and the cap holds. */
module Allocation {
  import opened Basics
  import opened Settings
  import opened Slots
  import opened Sorting

  /** Every agreement record the LB ever wrote, what memory holds of them, and every offer ever posted. */
  datatype Plane = Plane(head: nat, chain: Agreements, memory: Agreements, posted: map<Key, Offer>)

  /** An expired record is gone from the chain. */
  function Live(chain: Agreements, head: nat): Agreements {
    map a | a in chain && chain[a].expiresAt > head :: chain[a]
  }

  datatype Step =
    | Post(offer: Offer)
    | Pass(blocks: nat)
    | Extend(a: Key, expiresAt: nat)
    | Restart
    | Poll(rows: seq<AgreementRow>, offers: seq<Offer>, bound: (nat, nat) -> bool, answers: nat -> Answer, fates: seq<Fate>)

  /** The live agreements, each once, in some order. */
  ghost predicate RowsOf(live: Agreements, rows: seq<AgreementRow>) {
    && (forall row :: row in rows ==> row.key in live && live[row.key] == row.agreement)
    && (forall a :: a in live ==> AgreementRow(a, live[a]) in rows)
    && forall i, j :: 0 <= i < j < |rows| ==> rows[i].key != rows[j].key
  }

  /** Offers a poll may see: posted, alive, and ending within the longest lifetime. */
  ghost predicate Seen(m: Marketplace, p: Plane, offers: seq<Offer>) {
    forall offer :: offer in offers ==>
      && offer.key in p.posted && p.posted[offer.key] == offer
      && p.head < offer.expiresAt <= p.head + Blocks(m.offerMaxLifetime)
  }

  /** What the chain promises about the creates of one poll: a fresh key each, the life asked for, from a
      block not before the head. */
  ghost predicate Honest(m: Marketplace, p: Plane, fates: seq<Fate>) {
    && (forall i :: 0 <= i < |fates| && LandedOf(fates[i]).Some? ==>
         var landed := LandedOf(fates[i]).value;
         && landed.0 !in p.chain && landed.1.createdAt >= p.head
         && landed.1.expiresAt == landed.1.createdAt + Blocks(m.offerMaxLifetime))
    && forall i, j :: 0 <= i < j < |fates| && LandedOf(fates[i]).Some? && LandedOf(fates[j]).Some? ==>
         LandedOf(fates[i]).value.0 != LandedOf(fates[j]).value.0
  }

  /** Memory after the reconcile of a poll. */
  function Reconciled(p: Plane, rows: seq<AgreementRow>): Agreements {
    Adopted(map a | a in p.memory && a in Live(p.chain, p.head) :: p.memory[a], rows)
  }

  ghost predicate Enabled(m: Marketplace, p: Plane, step: Step)
    requires m.remotePortStart <= U16_MAX
  {
    match step
    case Post(offer) => offer.key !in p.posted
    case Pass(_) => true
    case Extend(a, expiresAt) => a in Live(p.chain, p.head) && expiresAt > p.chain[a].expiresAt
    case Restart => true
    case Poll(rows, offers, bound, answers, fates) =>
      && RowsOf(Live(p.chain, p.head), rows) && Seen(m, p, offers)
      && Decided(m, Reconciled(p, rows), bound, answers, offers, fates) && Honest(m, p, fates)
  }

  ghost function Apply(m: Marketplace, p: Plane, step: Step): Plane
    requires m.remotePortStart <= U16_MAX && Enabled(m, p, step)
  {
    match step
    case Post(offer) => p.(posted := p.posted[offer.key := offer])
    case Pass(blocks) => p.(head := p.head + blocks)
    case Extend(a, expiresAt) => p.(chain := p.chain[a := p.chain[a].(expiresAt := expiresAt)])
    case Restart => p.(memory := map[])
    case Poll(rows, offers, bound, answers, fates) =>
      p.(chain := OnChain(p.chain, offers, fates), memory := Learned(Reconciled(p, rows), offers, fates, p.head))
  }

  /* ---------- what holds ---------- */

  ghost predicate Apart(known: Agreements) {
    forall a, b :: a in known && b in known && a != b ==>
      known[a].provider != known[b].provider && known[a].port != known[b].port
  }

  /** Live agreements have their own provider and their own port of the range, within the cap. */
  ghost predicate SlotsSound(m: Marketplace, live: Agreements)
    requires m.remotePortStart <= U16_MAX
  {
    && Apart(live) && |live| <= m.maxProviders
    && forall a :: a in live ==> live[a].port in RemotePorts(m)
  }

  /** Every agreement ever made answers a posted offer of its provider, outlives it, and no other answers it. */
  ghost predicate OffersSound(chain: Agreements, posted: map<Key, Offer>) {
    && (forall a :: a in chain ==>
         && chain[a].offer in posted && posted[chain[a].offer].creator == chain[a].provider
         && chain[a].expiresAt >= posted[chain[a].offer].expiresAt)
    && forall a, b :: a in chain && b in chain && a != b ==> chain[a].offer != chain[b].offer
  }

  predicate SameTerms(left: Agreement, right: Agreement) {
    left.provider == right.provider && left.offer == right.offer && left.port == right.port
  }

  ghost predicate MemoryTrue(chain: Agreements, memory: Agreements) {
    forall a :: a in memory ==> a in chain && SameTerms(memory[a], chain[a])
  }

  ghost predicate PostedUnderKey(posted: map<Key, Offer>) {
    forall k :: k in posted ==> posted[k].key == k
  }

  ghost predicate Inv(m: Marketplace, p: Plane)
    requires m.remotePortStart <= U16_MAX
  {
    && SlotsSound(m, Live(p.chain, p.head)) && OffersSound(p.chain, p.posted)
    && MemoryTrue(p.chain, p.memory) && PostedUnderKey(p.posted)
  }

  /* ---------- the reconcile ---------- */

  /** Rows so far have put the chain's own record into memory, and nothing foreign. */
  ghost predicate ReadSoFar(live: Agreements, rows: seq<AgreementRow>, known: Agreements) {
    && (forall a :: a in known ==> a in live && SameTerms(known[a], live[a]))
    && forall row :: row in rows ==> row.key in known && known[row.key] == row.agreement
  }

  lemma ReadOne(live: Agreements, rows: seq<AgreementRow>, row: AgreementRow, known: Agreements)
    requires Apart(live) && ReadSoFar(live, rows, known) && row.key in live && live[row.key] == row.agreement
    requires forall other :: other in rows ==> other.key != row.key
    ensures ReadSoFar(live, rows + [row], AdoptedOne(known, row))
  {
    forall b | b in known && b != row.key ensures known[b].provider != row.agreement.provider {
      assert live[b].provider != live[row.key].provider;
    }
  }

  lemma {:induction false} ReadAll(live: Agreements, rows: seq<AgreementRow>, start: Agreements)
    requires Apart(live) && ReadSoFar(live, [], start)
    requires forall row :: row in rows ==> row.key in live && live[row.key] == row.agreement
    requires forall i, j :: 0 <= i < j < |rows| ==> rows[i].key != rows[j].key
    ensures ReadSoFar(live, rows, Adopted(start, rows))
  {
    if rows != [] {
      var before, row := rows[..|rows| - 1], rows[|rows| - 1];
      ReadAll(live, before, start);
      ReadOne(live, before, row, Adopted(start, before));
      assert before + [row] == rows;
    }
  }

  lemma ReadIsLive(live: Agreements, rows: seq<AgreementRow>, known: Agreements)
    requires ReadSoFar(live, rows, known) && forall a :: a in live ==> AgreementRow(a, live[a]) in rows
    ensures known == live
  {
    forall a | a in live ensures a in known && known[a] == live[a] {
      assert AgreementRow(a, live[a]) in rows;
    }
  }

  /** After a reconcile memory is exactly what lives on the chain: every record it adopts has its provider to
      itself, and the estimated creation blocks are corrected. */
  lemma ReconciledIsLive(m: Marketplace, p: Plane, rows: seq<AgreementRow>)
    requires m.remotePortStart <= U16_MAX && Inv(m, p) && RowsOf(Live(p.chain, p.head), rows)
    ensures Reconciled(p, rows) == Live(p.chain, p.head)
  {
    var live := Live(p.chain, p.head);
    var start := map a | a in p.memory && a in live :: p.memory[a];
    assert ReadSoFar(live, [], start);
    hide Adopted, OffersSound, MemoryTrue, Live, Apart, ReadSoFar;
    ReadAll(live, rows, start);
    ReadIsLive(live, rows, Adopted(start, rows));
  }

  /* ---------- the offers ---------- */

  lemma OneMore(known: Agreements, a: Key, agreement: Agreement)
    requires a !in known
    ensures |known[a := agreement]| == |known| + 1
    ensures ProvidersOf(known[a := agreement]) == ProvidersOf(known) + {agreement.provider}
    ensures PortsOf(known[a := agreement]) == PortsOf(known) + {agreement.port}
  {
    var after := known[a := agreement];
    assert after.Keys == known.Keys + {a};
    OneMoreProvider(known, a, agreement);
    OneMorePort(known, a, agreement);
    hide ProvidersOf, PortsOf;
  }

  lemma OneMoreProvider(known: Agreements, a: Key, agreement: Agreement)
    requires a !in known
    ensures ProvidersOf(known[a := agreement]) == ProvidersOf(known) + {agreement.provider}
  {
    var after := known[a := agreement];
    assert after[a] == agreement;
    forall b | b in known ensures after[b].provider in ProvidersOf(after) {}
  }

  lemma OneMorePort(known: Agreements, a: Key, agreement: Agreement)
    requires a !in known
    ensures PortsOf(known[a := agreement]) == PortsOf(known) + {agreement.port}
  {
    var after := known[a := agreement];
    assert after[a] == agreement;
    forall b | b in known ensures after[b].port in PortsOf(after) {}
  }

  lemma LiveMore(chain: Agreements, head: nat, a: Key, agreement: Agreement)
    requires a !in chain && agreement.expiresAt > head
    ensures Live(chain[a := agreement], head) == Live(chain, head)[a := agreement] && a !in Live(chain, head)
  {
  }

  lemma OneMoreSlot(m: Marketplace, live: Agreements, a: Key, agreement: Agreement)
    requires m.remotePortStart <= U16_MAX && SlotsSound(m, live) && a !in live
    requires agreement.provider !in ProvidersOf(live) && agreement.port !in PortsOf(live)
    requires agreement.port in RemotePorts(m) && |live| < m.maxProviders
    ensures SlotsSound(m, live[a := agreement])
  {
    OneMore(live, a, agreement);
    hide RemotePorts;
    forall b | b in live ensures live[b].provider != agreement.provider && live[b].port != agreement.port {}
  }

  /** An earlier agreement from an offer still alive would still be alive, with the offer's own provider. */
  lemma OneMoreOffer(head: nat, chain: Agreements, posted: map<Key, Offer>, a: Key, offer: Offer, agreement: Agreement)
    requires OffersSound(chain, posted) && a !in chain
    requires offer.key in posted && posted[offer.key] == offer && head < offer.expiresAt <= agreement.expiresAt
    requires agreement.provider == offer.creator && agreement.offer == offer.key
    requires offer.creator !in ProvidersOf(Live(chain, head))
    ensures OffersSound(chain[a := agreement], posted)
  {
    forall b | b in chain ensures chain[b].offer != offer.key {
      if b in Live(chain, head) { assert Live(chain, head)[b].provider != offer.creator; }
    }
  }

  /** What the live agreements have grown to, and by no more than what is held. */
  ghost predicate Grown(live: Agreements, now: Agreements, providers: set<Address>, ports: set<nat>, held: nat, free: nat) {
    && ProvidersOf(now) <= ProvidersOf(live) + providers && PortsOf(now) <= PortsOf(live) + ports
    && |now| <= |live| + held && held <= free
  }

  lemma GrownSkips(live: Agreements, now: Agreements, providers: set<Address>, ports: set<nat>, held: nat, free: nat,
                   provider: Address, port: nat)
    requires Grown(live, now, providers, ports, held, free)
    ensures held < free ==> Grown(live, now, providers + {provider}, ports + {port}, held + 1, free)
  {
  }

  lemma GrownLands(live: Agreements, now: Agreements, providers: set<Address>, ports: set<nat>, held: nat, free: nat,
                   a: Key, agreement: Agreement)
    requires Grown(live, now, providers, ports, held, free) && held < free && a !in now
    ensures Grown(live, now[a := agreement], providers + {agreement.provider}, ports + {agreement.port}, held + 1, free)
  {
    OneMore(now, a, agreement);
  }

  predicate LandsAs(fate: Fate, a: Key) {
    LandedOf(fate).Some? && LandedOf(fate).value.0 == a
  }

  /** Every record is an old one or one of the landed. */
  ghost predicate FromFates(chain: Agreements, now: Agreements, fates: seq<Fate>) {
    forall a :: a in now ==> a in chain || exists i :: 0 <= i < |fates| && LandsAs(fates[i], a)
  }

  lemma FromMore(chain: Agreements, now: Agreements, before: seq<Fate>, fate: Fate, agreement: Agreement)
    requires FromFates(chain, now, before)
    ensures FromFates(chain, now, before + [fate])
    ensures LandedOf(fate).Some? ==> FromFates(chain, now[LandedOf(fate).value.0 := agreement], before + [fate])
  {
    var after := before + [fate];
    assert after[|before|] == fate;
    forall a | a in now && a !in chain ensures exists i :: 0 <= i < |after| && LandsAs(after[i], a) {
      var i :| 0 <= i < |before| && LandsAs(before[i], a);
      assert after[i] == before[i];
    }
    if LandedOf(fate).Some? { assert LandsAs(after[|before|], LandedOf(fate).value.0); }
  }

  /** After some of a poll's fates. */
  ghost predicate SoFar(m: Marketplace, p: Plane, offers: seq<Offer>, fates: seq<Fate>)
    requires m.remotePortStart <= U16_MAX && |fates| <= |offers|
  {
    var chain, live := OnChain(p.chain, offers, fates), Live(p.chain, p.head);
    && SlotsSound(m, Live(chain, p.head)) && OffersSound(chain, p.posted)
    && Grown(live, Live(chain, p.head), HeldProviders(offers, fates), HeldPorts(fates), HeldCount(fates), FreeSlots(m, live))
    && FromFates(p.chain, chain, fates)
  }

  lemma SoFarStarts(m: Marketplace, p: Plane, offers: seq<Offer>)
    requires m.remotePortStart <= U16_MAX && Inv(m, p)
    ensures SoFar(m, p, offers, [])
  {
  }

  lemma OnChainMore(chain: Agreements, offers: seq<Offer>, before: seq<Fate>, fate: Fate)
    requires |before| < |offers|
    ensures OnChain(chain, offers, before + [fate])
         == var landed := LandedOf(fate);
            if landed.None? then OnChain(chain, offers, before)
            else OnChain(chain, offers, before)[landed.value.0 :=
                   NewAgreement(offers[|before|], fate.port, landed.value.1.createdAt, landed.value.1.expiresAt)]
  {
    assert (before + [fate])[..|before|] == before;
  }

  lemma HeldCountMore(before: seq<Fate>, fate: Fate)
    ensures HeldCount(before + [fate]) == HeldCount(before) + if Holds(fate) then 1 else 0
  {
    assert (before + [fate])[..|before|] == before;
  }

  /** What a fate that fits allows: a call only with a slot, a provider and a port to spare. */
  lemma CalledFits(m: Marketplace, known: Agreements, bound: (nat, nat) -> bool, offers: seq<Offer>, before: seq<Fate>, fate: Fate)
    requires m.remotePortStart <= U16_MAX && |before| < |offers|
    requires Fits(m, known, bound, offers, before + [fate], |before|) && fate.Called?
    ensures HeldCount(before) < FreeSlots(m, known)
    ensures offers[|before|].creator !in ProvidersOf(known) && offers[|before|].creator !in HeldProviders(offers, before)
    ensures fate.port in RemotePorts(m) && fate.port !in PortsOf(known) && fate.port !in HeldPorts(before)
  {
    assert (before + [fate])[..|before|] == before;
    hide RemotePorts, HeldCount, HeldProviders, HeldPorts, PortsOf, ProvidersOf;
  }

  /** One more fate that left nothing on the chain. */
  lemma SoFarSkips(m: Marketplace, p: Plane, offers: seq<Offer>, before: seq<Fate>, fate: Fate)
    requires m.remotePortStart <= U16_MAX && |before| < |offers| && SoFar(m, p, offers, before)
    requires LandedOf(fate).None? && (Holds(fate) ==> HeldCount(before) < FreeSlots(m, Live(p.chain, p.head)))
    ensures SoFar(m, p, offers, before + [fate])
  {
    hide SlotsSound, OffersSound, HeldCount, HeldProviders, HeldPorts, OnChain, Live, Grown, FromFates;
    OnChainMore(p.chain, offers, before, fate);
    HeldCountMore(before, fate);
    HeldMore(offers, before, fate);
    var chain, live := OnChain(p.chain, offers, before), Live(p.chain, p.head);
    FromMore(p.chain, chain, before, fate, NewAgreement(offers[|before|], 0, 0, 0));
    if Holds(fate) {
      GrownSkips(live, Live(chain, p.head), HeldProviders(offers, before), HeldPorts(before), HeldCount(before),
                 FreeSlots(m, live), offers[|before|].creator, fate.port);
    } else {
      assert HeldProviders(offers, before) + {} == HeldProviders(offers, before) && HeldPorts(before) + {} == HeldPorts(before);
    }
  }

  /** One more that landed. */
  lemma SoFarLands(m: Marketplace, p: Plane, offers: seq<Offer>, before: seq<Fate>, fate: Fate)
    requires m.remotePortStart <= U16_MAX && |before| < |offers| && SoFar(m, p, offers, before)
    requires Seen(m, p, offers) && Honest(m, p, before + [fate]) && fate.Called? && LandedOf(fate).Some?
    requires var live := Live(p.chain, p.head);
             && HeldCount(before) < FreeSlots(m, live)
             && offers[|before|].creator !in ProvidersOf(live) && offers[|before|].creator !in HeldProviders(offers, before)
             && fate.port in RemotePorts(m) && fate.port !in PortsOf(live) && fate.port !in HeldPorts(before)
    ensures SoFar(m, p, offers, before + [fate])
  {
    hide *;
    SoFarParts(m, p, offers, before);
    var chain, live, offer := OnChain(p.chain, offers, before), Live(p.chain, p.head), offers[|before|];
    var a, record := LandedOf(fate).value.0, LandedOf(fate).value.1;
    var agreement := NewAgreement(offer, fate.port, record.createdAt, record.expiresAt);
    AgreementIs(offer, fate.port, record);
    LandedHolds(fate);
    OnChainMore(p.chain, offers, before, fate);
    HeldCountMore(before, fate);
    HeldMore(offers, before, fate);
    FreshKey(m, p, offers, before, fate);
    LandedAlive(m, p, offers, before, fate);
    LandsSound(m, p.head, chain, p.posted, live, HeldProviders(offers, before), HeldPorts(before), HeldCount(before), a, offer, agreement);
    FromMore(p.chain, chain, before, fate, agreement);
    SoFarFrom(m, p, offers, before + [fate]);
  }

  lemma AgreementIs(offer: Offer, port: nat, record: Record)
    ensures var agreement := NewAgreement(offer, port, record.createdAt, record.expiresAt);
            && agreement.provider == offer.creator && agreement.offer == offer.key && agreement.port == port
            && agreement.createdAt == record.createdAt && agreement.expiresAt == record.expiresAt
  {
  }

  lemma LandedHolds(fate: Fate)
    requires LandedOf(fate).Some?
    ensures Holds(fate)
  {
  }

  lemma SoFarParts(m: Marketplace, p: Plane, offers: seq<Offer>, fates: seq<Fate>)
    requires m.remotePortStart <= U16_MAX && |fates| <= |offers| && SoFar(m, p, offers, fates)
    ensures var chain, live := OnChain(p.chain, offers, fates), Live(p.chain, p.head);
            && SlotsSound(m, Live(chain, p.head)) && OffersSound(chain, p.posted)
            && Grown(live, Live(chain, p.head), HeldProviders(offers, fates), HeldPorts(fates), HeldCount(fates), FreeSlots(m, live))
            && FromFates(p.chain, chain, fates)
  {
  }

  lemma SoFarFrom(m: Marketplace, p: Plane, offers: seq<Offer>, fates: seq<Fate>)
    requires m.remotePortStart <= U16_MAX && |fates| <= |offers|
    requires var chain, live := OnChain(p.chain, offers, fates), Live(p.chain, p.head);
             && SlotsSound(m, Live(chain, p.head)) && OffersSound(chain, p.posted)
             && Grown(live, Live(chain, p.head), HeldProviders(offers, fates), HeldPorts(fates), HeldCount(fates), FreeSlots(m, live))
             && FromFates(p.chain, chain, fates)
    ensures SoFar(m, p, offers, fates)
  {
  }

  /** One agreement landed, on the parts of a plane. */
  lemma LandsSound(m: Marketplace, head: nat, chain: Agreements, posted: map<Key, Offer>, live: Agreements,
                   providers: set<Address>, ports: set<nat>, held: nat, a: Key, offer: Offer, agreement: Agreement)
    requires m.remotePortStart <= U16_MAX && SlotsSound(m, Live(chain, head)) && OffersSound(chain, posted) && a !in chain
    requires Grown(live, Live(chain, head), providers, ports, held, FreeSlots(m, live)) && held < FreeSlots(m, live)
    requires agreement.provider == offer.creator && agreement.offer == offer.key
    requires offer.key in posted && posted[offer.key] == offer && head < offer.expiresAt <= agreement.expiresAt
    requires agreement.provider !in ProvidersOf(live) && agreement.provider !in providers && agreement.port in RemotePorts(m)
    requires agreement.port !in PortsOf(live) && agreement.port !in ports
    ensures var after := chain[a := agreement];
            && SlotsSound(m, Live(after, head)) && OffersSound(after, posted)
            && Grown(live, Live(after, head), providers + {agreement.provider}, ports + {agreement.port}, held + 1, FreeSlots(m, live))
  {
    hide SlotsSound, OffersSound, Grown, RemotePorts, ProvidersOf, PortsOf;
    LiveMore(chain, head, a, agreement);
    hide Live;
    Spare(live, Live(chain, head), providers, ports, held, m, offer.creator, agreement.port);
    OneMoreSlot(m, Live(chain, head), a, agreement);
    OneMoreOffer(head, chain, posted, a, offer, agreement);
    GrownLands(live, Live(chain, head), providers, ports, held, FreeSlots(m, live), a, agreement);
  }

  lemma LandedAlive(m: Marketplace, p: Plane, offers: seq<Offer>, before: seq<Fate>, fate: Fate)
    requires |before| < |offers| && Seen(m, p, offers) && Honest(m, p, before + [fate]) && LandedOf(fate).Some?
    ensures var offer, record := offers[|before|], LandedOf(fate).value.1;
            && offer.key in p.posted && p.posted[offer.key] == offer && p.head < offer.expiresAt <= record.expiresAt
  {
    assert (before + [fate])[|before|] == fate && offers[|before|] in offers;
  }

  lemma Spare(live: Agreements, now: Agreements, providers: set<Address>, ports: set<nat>, held: nat, m: Marketplace,
              provider: Address, port: nat)
    requires Grown(live, now, providers, ports, held, FreeSlots(m, live)) && held < FreeSlots(m, live)
    requires provider !in ProvidersOf(live) && provider !in providers && port !in PortsOf(live) && port !in ports
    ensures provider !in ProvidersOf(now) && port !in PortsOf(now) && |now| < m.maxProviders
  {
  }

  lemma FreshKey(m: Marketplace, p: Plane, offers: seq<Offer>, before: seq<Fate>, fate: Fate)
    requires m.remotePortStart <= U16_MAX && |before| < |offers| && SoFar(m, p, offers, before)
    requires Honest(m, p, before + [fate]) && LandedOf(fate).Some?
    ensures LandedOf(fate).value.0 !in OnChain(p.chain, offers, before)
  {
    var a, after := LandedOf(fate).value.0, before + [fate];
    assert after[|before|] == fate;
    hide SlotsSound, OffersSound, OnChain, RemotePorts;
    forall i | 0 <= i < |before| ensures !LandsAs(before[i], a) {
      assert after[i] == before[i];
    }
  }

  lemma {:induction false} PollSoFar(m: Marketplace, p: Plane, bound: (nat, nat) -> bool, offers: seq<Offer>, fates: seq<Fate>)
    requires m.remotePortStart <= U16_MAX && Inv(m, p) && Seen(m, p, offers) && Honest(m, p, fates) && |fates| <= |offers|
    requires forall i: nat :: i < |fates| ==> Fits(m, Live(p.chain, p.head), bound, offers, fates, i)
    ensures SoFar(m, p, offers, fates)
  {
    if fates == [] {
      SoFarStarts(m, p, offers);
    } else {
      var before, fate := fates[..|fates| - 1], fates[|fates| - 1];
      assert fates == before + [fate];
      hide Fits, SoFar, Inv, Seen;
      forall i: nat | i < |before| ensures Fits(m, Live(p.chain, p.head), bound, offers, before, i) {
        FitsEarlier(m, Live(p.chain, p.head), bound, offers, before, fate, i);
      }
      HonestBefore(m, p, before, fate);
      PollSoFar(m, p, bound, offers, before);
      if fate.Called? { CalledFits(m, Live(p.chain, p.head), bound, offers, before, fate); }
      if LandedOf(fate).Some? { SoFarLands(m, p, offers, before, fate); } else { SoFarSkips(m, p, offers, before, fate); }
    }
  }

  lemma HonestBefore(m: Marketplace, p: Plane, before: seq<Fate>, fate: Fate)
    requires Honest(m, p, before + [fate])
    ensures Honest(m, p, before)
  {
    forall i | 0 <= i < |before| ensures (before + [fate])[i] == before[i] {}
  }

  /* ---------- what memory learns ---------- */

  /** The keys the fates landed under are new, and differ. */
  ghost predicate FreshAll(chain: Agreements, fates: seq<Fate>) {
    && (forall i, a :: 0 <= i < |fates| && LandsAs(fates[i], a) ==> a !in chain)
    && forall i, j, a :: 0 <= i < j < |fates| && LandsAs(fates[i], a) ==> !LandsAs(fates[j], a)
  }

  lemma HonestFresh(m: Marketplace, p: Plane, fates: seq<Fate>)
    requires Honest(m, p, fates)
    ensures FreshAll(p.chain, fates)
  {
  }

  lemma FreshBefore(chain: Agreements, before: seq<Fate>, fate: Fate)
    requires FreshAll(chain, before + [fate])
    ensures FreshAll(chain, before)
    ensures forall a :: LandsAs(fate, a) ==> a !in chain && forall i :: 0 <= i < |before| ==> !LandsAs(before[i], a)
  {
    var after := before + [fate];
    assert after[|before|] == fate;
    forall i | 0 <= i < |before| ensures after[i] == before[i] {}
  }

  lemma {:induction false} OnlyFromFates(chain: Agreements, offers: seq<Offer>, fates: seq<Fate>)
    requires |fates| <= |offers|
    ensures FromFates(chain, OnChain(chain, offers, fates), fates)
  {
    if fates != [] {
      var before, fate := fates[..|fates| - 1], fates[|fates| - 1];
      OnlyFromFates(chain, offers, before);
      assert fates == before + [fate];
      OnChainMore(chain, offers, before, fate);
      hide FromFates, OnChain;
      var record := if LandedOf(fate).None? then Record(0, 0) else LandedOf(fate).value.1;
      FromMore(chain, OnChain(chain, offers, before), before, fate,
               NewAgreement(offers[|before|], if fate.Called? then fate.port else 0, record.createdAt, record.expiresAt));
    }
  }

  lemma {:induction false} LearnedTrue(known: Agreements, chain: Agreements, offers: seq<Offer>, fates: seq<Fate>, head: nat)
    requires |fates| <= |offers| && MemoryTrue(chain, known) && FreshAll(chain, fates)
    ensures MemoryTrue(OnChain(chain, offers, fates), Learned(known, offers, fates, head))
  {
    if fates != [] {
      var before, fate := fates[..|fates| - 1], fates[|fates| - 1];
      assert fates == before + [fate];
      FreshBefore(chain, before, fate);
      LearnedTrue(known, chain, offers, before, head);
      OnlyFromFates(chain, offers, before);
      OnChainMore(chain, offers, before, fate);
      LearnedMore(known, offers, before, fate, head);
      hide FreshAll, OnChain, Learned;
      if LandedOf(fate).Some? { assert LandsAs(fate, LandedOf(fate).value.0); }
    }
  }

  /* ---------- every step ---------- */

  lemma TrueLess(chain: Agreements, memory: Agreements, after: Agreements)
    requires MemoryTrue(chain, memory) && forall a :: a in chain ==> a in after && SameTerms(chain[a], after[a])
    ensures MemoryTrue(after, memory)
  {
  }

  lemma LiveIsTrue(chain: Agreements, head: nat)
    ensures MemoryTrue(chain, Live(chain, head))
  {
  }

  lemma PollKeeps(m: Marketplace, p: Plane, step: Step)
    requires m.remotePortStart <= U16_MAX && Inv(m, p) && step.Poll? && Enabled(m, p, step)
    ensures Inv(m, Apply(m, p, step))
  {
    var live := Live(p.chain, p.head);
    ReconciledIsLive(m, p, step.rows);
    hide Fits;
    PollSoFar(m, p, step.bound, step.offers, step.fates);
    HonestFresh(m, p, step.fates);
    LiveIsTrue(p.chain, p.head);
    LearnedTrue(live, p.chain, step.offers, step.fates, p.head);
    hide SlotsSound, OffersSound, MemoryTrue, Grown, FromFates, Honest, Seen, RowsOf, Reconciled, Live, OnChain, Learned, FreshAll;
  }

  lemma FewerSound(m: Marketplace, live: Agreements, after: Agreements)
    requires m.remotePortStart <= U16_MAX && SlotsSound(m, live)
    requires forall a :: a in after ==> a in live && SameTerms(live[a], after[a])
    ensures SlotsSound(m, after)
  {
    assert after.Keys <= live.Keys;
    SmallerSet(after.Keys, live.Keys);
    hide RemotePorts;
  }

  lemma SmallerSet(small: set<Key>, large: set<Key>)
    requires small <= large
    ensures |small| <= |large|
  {
    assert large == small + (large - small);
  }

  lemma PassKeeps(m: Marketplace, p: Plane, blocks: nat)
    requires m.remotePortStart <= U16_MAX && Inv(m, p)
    ensures Inv(m, p.(head := p.head + blocks))
  {
    hide SlotsSound, OffersSound, MemoryTrue;
    FewerSound(m, Live(p.chain, p.head), Live(p.chain, p.head + blocks));
  }

  lemma ExtendKeeps(m: Marketplace, p: Plane, a: Key, expiresAt: nat)
    requires m.remotePortStart <= U16_MAX && Inv(m, p) && a in Live(p.chain, p.head) && expiresAt > p.chain[a].expiresAt
    ensures Inv(m, p.(chain := p.chain[a := p.chain[a].(expiresAt := expiresAt)]))
  {
    var after := p.chain[a := p.chain[a].(expiresAt := expiresAt)];
    ExtendedLive(p.chain, p.head, after);
    hide SlotsSound, OffersSound, MemoryTrue, Live, PostedUnderKey;
    FewerSound(m, Live(p.chain, p.head), Live(after, p.head));
    TrueLess(p.chain, p.memory, after);
    ExtendedOffers(p.chain, p.posted, after);
  }

  predicate Later(chain: Agreements, after: Agreements) {
    after.Keys == chain.Keys
    && forall a :: a in chain ==> SameTerms(chain[a], after[a]) && after[a].expiresAt >= chain[a].expiresAt
  }

  lemma ExtendedLive(chain: Agreements, head: nat, after: Agreements)
    requires Later(chain, after) && forall a :: a in chain && chain[a] != after[a] ==> chain[a].expiresAt > head
    ensures forall a :: a in Live(after, head) ==> a in Live(chain, head) && SameTerms(Live(chain, head)[a], Live(after, head)[a])
  {
  }

  lemma ExtendedOffers(chain: Agreements, posted: map<Key, Offer>, after: Agreements)
    requires OffersSound(chain, posted) && after.Keys == chain.Keys
    requires forall a :: a in chain ==> SameTerms(chain[a], after[a]) && after[a].expiresAt >= chain[a].expiresAt
    ensures OffersSound(after, posted)
  {
  }

  lemma RestartKeeps(m: Marketplace, p: Plane)
    requires m.remotePortStart <= U16_MAX && Inv(m, p)
    ensures Inv(m, p.(memory := map[]))
  {
    hide SlotsSound, OffersSound;
  }

  lemma PostKeeps(m: Marketplace, p: Plane, offer: Offer)
    requires m.remotePortStart <= U16_MAX && Inv(m, p) && offer.key !in p.posted
    ensures Inv(m, p.(posted := p.posted[offer.key := offer]))
  {
    hide SlotsSound, MemoryTrue;
  }

  lemma StepKeeps(m: Marketplace, p: Plane, step: Step)
    requires m.remotePortStart <= U16_MAX && Inv(m, p) && Enabled(m, p, step)
    ensures Inv(m, Apply(m, p, step))
  {
    hide Inv, Decided, Honest, Seen, RowsOf, OnChain, Learned, Reconciled, Live;
    match step
    case Post(offer) => PostKeeps(m, p, offer);
    case Pass(blocks) => PassKeeps(m, p, blocks);
    case Extend(a, expiresAt) => ExtendKeeps(m, p, a, expiresAt);
    case Restart => RestartKeeps(m, p);
    case Poll(_, _, _, _, _) => PollKeeps(m, p, step);
  }

  /* ---------- runs ---------- */

  ghost predicate Feasible(m: Marketplace, p: Plane, run: seq<Step>)
    requires m.remotePortStart <= U16_MAX
    decreases |run|
  {
    run == [] || (Enabled(m, p, run[0]) && Feasible(m, Apply(m, p, run[0]), run[1..]))
  }

  ghost function After(m: Marketplace, p: Plane, run: seq<Step>): Plane
    requires m.remotePortStart <= U16_MAX && Feasible(m, p, run)
    decreases |run|
  {
    if run == [] then p else After(m, Apply(m, p, run[0]), run[1..])
  }

  lemma {:induction false} RunKeeps(m: Marketplace, p: Plane, run: seq<Step>)
    requires m.remotePortStart <= U16_MAX && Inv(m, p) && Feasible(m, p, run)
    ensures Inv(m, After(m, p, run))
    decreases |run|
  {
    if run != [] {
      StepKeeps(m, p, run[0]);
      hide Inv, Enabled, Apply;
      RunKeeps(m, Apply(m, p, run[0]), run[1..]);
    }
  }

  /** Over every run from a first start, whatever lands unanswered and however often the agent restarts: live
      agreements have their own provider and their own port of the range, the cap holds, a poll's page always
      holds them all, and no offer is ever accepted twice. */
  lemma SlotsStaySound(m: Marketplace, head: nat, run: seq<Step>)
    requires m.remotePortStart <= U16_MAX && Validate(m) == None
    requires Feasible(m, Plane(head, map[], map[], map[]), run)
    ensures var p := After(m, Plane(head, map[], map[], map[]), run);
            && SlotsSound(m, Live(p.chain, p.head)) && |Live(p.chain, p.head)| <= PAGE_LIMIT
            && forall a, b :: a in p.chain && b in p.chain && a != b ==> p.chain[a].offer != p.chain[b].offer
  {
    var start := Plane(head, map[], map[], map[]);
    assert Live(start.chain, head) == map[];
    ValidPromises(m);
    RunKeeps(m, start, run);
    hide Validate, Blocks, RemotePorts;
  }

  /* ---------- a port for every slot ---------- */

  lemma {:induction false} SeqSet(s: seq<nat>, t: set<nat>)
    requires (forall i, j :: 0 <= i < j < |s| ==> s[i] != s[j]) && forall x :: x in s ==> x in t
    ensures |s| <= |t|
  {
    if s != [] {
      var last := s[|s| - 1];
      forall x | x in s[..|s| - 1] ensures x != last && x in s {}
      SeqSet(s[..|s| - 1], t - {last});
    }
  }

  lemma {:induction false} FewPorts(known: Agreements)
    ensures |PortsOf(known)| <= |known|
    decreases |known|
  {
    if known != map[] {
      var a :| a in known;
      var less := known - {a};
      assert known == less[a := known[a]];
      FewPorts(less);
      OneMore(less, a, known[a]);
    } else {
      assert PortsOf(known) == {};
    }
  }

  lemma {:induction false} FewHeld(fates: seq<Fate>)
    ensures |HeldPorts(fates)| <= HeldCount(fates)
  {
    if fates != [] {
      var before, fate := fates[..|fates| - 1], fates[|fates| - 1];
      assert fates == before + [fate];
      FewHeld(before);
      HeldMore(seq(|fates|, _ => Offer(0, 0, 0, 0, 0)), before, fate);
      HeldCountMore(before, fate);
    }
  }

  /** While the cap has room, a poll runs out of ports only to tunnels still bound without an agreement. */
  lemma NoPortMeansStale(m: Marketplace, known: Agreements, bound: (nat, nat) -> bool, offers: seq<Offer>, fates: seq<Fate>, i: nat)
    requires m.remotePortStart <= U16_MAX && Validate(m) == None
    requires i < |fates| <= |offers| && Fits(m, known, bound, offers, fates, i) && fates[i].NoPort?
    ensures exists p :: p in RemotePorts(m) && StaleBy(bound, i, p)
  {
    var before, ports := fates[..i], RemotePorts(m);
    PortForEverySlot(m);
    FewPorts(known);
    FewHeld(before);
    assert HeldCount(before) < FreeSlots(m, known);
    if forall p :: p in ports ==> !StaleBy(bound, i, p) {
      hide Validate, RemotePorts, PortsOf, HeldPorts, HeldCount, StaleBy, HeldProviders;
      var used := PortsOf(known) + HeldPorts(before);
      forall p | p in ports ensures p in used { assert InUse(known, before, bound, i, p); }
      assert |used| <= |PortsOf(known)| + |HeldPorts(before)|;
      DistinctPorts(m);
      SeqSet(ports, used);
      assert false;
    }
  }

  lemma DistinctPorts(m: Marketplace)
    requires m.remotePortStart <= U16_MAX
    ensures forall i, j :: 0 <= i < j < |RemotePorts(m)| ==> RemotePorts(m)[i] != RemotePorts(m)[j]
  {
  }

  /* ---------- what a failure must mean ---------- */

  const TWO_SLOTS := Marketplace(Parsed("http"), 2, 20_000, 0, 0, 0, 0, 0, 0, 0, 0)

  function TwoOffers(): seq<Offer> {
    [Offer(1, 1, 0, 9, 0), Offer(2, 2, 0, 9, 0)]
  }

  function FailsFirst(i: nat): Answer {
    if i == 0 then Failed else Landed(7, Record(1, 10))
  }

  /** A create that failed gives its port back at once, within the same poll: had it landed after all, two
      agreements would share the port. */
  lemma FailedFreesThePort()
    ensures exists fates: seq<Fate> ::
              Decided(TWO_SLOTS, map[], (i, p) => false, FailsFirst, TwoOffers(), fates)
              && |fates| == 2 && fates[0] == Called(20_000, Failed) && fates[1].Called? && fates[1].port == fates[0].port
  {
    var bound: (nat, nat) -> bool := (i, p) => false;
    var fates := [Called(20_000, Failed), Called(20_000, Landed(7, Record(1, 10)))];
    var first := fates[..1];
    assert fates[..0] == [] && first == [fates[0]] && first[..0] == [];
    assert HeldCount([]) == 0 && HeldCount(first) == 0;
    assert HeldProviders(TwoOffers(), first) == {} && HeldPorts(first) == {} && HeldPorts([]) == {} && HeldProviders(TwoOffers(), []) == {};
    assert OffersOf(map[]) == {} && ProvidersOf(map[]) == {} && PortsOf(map[]) == {};
    var ports := RemotePorts(TWO_SLOTS);
    assert ports[0] == 20_000;
    assert forall p :: p in ports ==> p >= 20_000;
    hide RemotePorts, HeldCount, HeldProviders, HeldPorts, OffersOf, ProvidersOf, PortsOf;
    assert Fits(TWO_SLOTS, map[], bound, TwoOffers(), fates, 0);
    assert Fits(TWO_SLOTS, map[], bound, TwoOffers(), fates, 1);
    assert Decided(TWO_SLOTS, map[], bound, FailsFirst, TwoOffers(), fates);
  }
}

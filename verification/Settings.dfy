/** The marketplace's configuration and what its validation buys: lifetimes in whole blocks, a port for
    every slot, and the order of the intervals. */
module Settings {
  import opened Basics

  const SECOND: nat := 1_000_000_000
  const MAX_LIFETIME: nat := 15_768_000 * SECOND
  const MAX_BLOCKS: nat := 7_884_000
  /** A page of a query holds this many records. */
  const PAGE_LIMIT: nat := 100
  const U16_MAX: nat := 65_535

  /** A URL as its parser sees it: by its scheme, if it parses. */
  datatype Url = Unparsable | Parsed(scheme: string)

  /** Durations in nanoseconds. */
  datatype Marketplace = Marketplace(
    writerUrl: Url,
    maxProviders: nat,
    remotePortStart: nat,
    discoveryInterval: nat,
    refreshInterval: nat,
    agreementLife: nat,
    listingLife: nat,
    counterRecordLife: nat,
    offerMaxLifetime: nat,
    settlementPeriod: nat,
    flushInterval: nat)

  datatype Fault =
    | DoesNotParse
    | NotHttp
    | Zero(name: string)
    | NotWholeBlocks(name: string)
    | TooLong(name: string)
    | OfferOutlives
    | PollTooRare
    | RefreshTooRare(name: string)
    | RefreshTooOften
    | FlushTooRare
    | TooManyProviders
    | PastLastPort

  datatype Named = Named(name: string, duration: nat)

  /** A lifetime in blocks of two seconds. */
  function Blocks(lifetime: nat): nat {
    (lifetime / SECOND) / 2
  }

  function Intervals(m: Marketplace): seq<Named> {
    [Named("discovery_interval", m.discoveryInterval), Named("refresh_interval", m.refreshInterval),
     Named("agreement_life", m.agreementLife), Named("listing_life", m.listingLife),
     Named("counter_record_life", m.counterRecordLife), Named("offer_max_lifetime", m.offerMaxLifetime),
     Named("settlement_period", m.settlementPeriod), Named("flush_interval", m.flushInterval)]
  }

  function Lives(m: Marketplace): seq<Named> {
    [Named("agreement_life", m.agreementLife), Named("listing_life", m.listingLife),
     Named("counter_record_life", m.counterRecordLife), Named("offer_max_lifetime", m.offerMaxLifetime)]
  }

  function FirstZero(durations: seq<Named>): Option<Fault> {
    if durations == [] then None
    else if durations[0].duration == 0 then Some(Zero(durations[0].name))
    else FirstZero(durations[1..])
  }

  function FirstUnfit(lives: seq<Named>): Option<Fault> {
    if lives == [] then None
    else if lives[0].duration % SECOND != 0 || (lives[0].duration / SECOND) % 2 != 0 then Some(NotWholeBlocks(lives[0].name))
    else if lives[0].duration > MAX_LIFETIME then Some(TooLong(lives[0].name))
    else FirstUnfit(lives[1..])
  }

  function FirstOutrun(lives: seq<Named>, refreshInterval: nat): Option<Fault> {
    if lives == [] then None
    else if lives[0].duration <= refreshInterval then Some(RefreshTooRare(lives[0].name))
    else FirstOutrun(lives[1..], refreshInterval)
  }

  function ValidateUrl(url: Url): Option<Fault> {
    match url
    case Unparsable => Some(DoesNotParse)
    case Parsed(scheme) => if scheme != "http" && scheme != "https" then Some(NotHttp) else None
  }

  /** The first thing wrong with a configuration, in the order the checks are made. */
  function Validate(m: Marketplace): Option<Fault> {
    var url, zero, unfit := ValidateUrl(m.writerUrl), FirstZero(Intervals(m)), FirstUnfit(Lives(m));
    if url.Some? then url
    else if zero.Some? then zero
    else if unfit.Some? then unfit
    else if m.offerMaxLifetime >= m.agreementLife then Some(OfferOutlives)
    else if m.discoveryInterval >= m.refreshInterval then Some(PollTooRare)
    else
      var outrun := FirstOutrun(Lives(m)[..2], m.refreshInterval);
      if outrun.Some? then outrun
      else if m.refreshInterval < 2 * SECOND then Some(RefreshTooOften)
      else if m.flushInterval > m.agreementLife then Some(FlushTooRare)
      else if m.maxProviders > PAGE_LIMIT then Some(TooManyProviders)
      else if m.remotePortStart + m.maxProviders > U16_MAX + 1 then Some(PastLastPort)
      else None
  }

  /** One port per slot, from the start port up. */
  function RemotePorts(m: Marketplace): seq<nat>
    requires m.remotePortStart <= U16_MAX
  {
    var n := if m.remotePortStart + m.maxProviders <= U16_MAX + 1 then m.maxProviders else U16_MAX + 1 - m.remotePortStart;
    seq(n, i requires 0 <= i < n => m.remotePortStart + i)
  }

  lemma RemotePortsAre(m: Marketplace)
    requires m.remotePortStart <= U16_MAX
    ensures forall p: nat :: p in RemotePorts(m) <==> m.remotePortStart <= p < m.remotePortStart + m.maxProviders && p <= U16_MAX
  {
    forall p: nat | m.remotePortStart <= p < m.remotePortStart + m.maxProviders && p <= U16_MAX ensures p in RemotePorts(m) {
      assert RemotePorts(m)[p - m.remotePortStart] == p;
    }
  }

  /** A lifetime the chain takes: between one block and its longest, and no part of a block. */
  predicate WholeBlocks(lifetime: nat) {
    1 <= Blocks(lifetime) <= MAX_BLOCKS && lifetime == Blocks(lifetime) * 2 * SECOND
  }

  /** What a configuration promises the agent, in blocks wherever the chain is concerned. */
  ghost predicate Promises(m: Marketplace) {
    && (m.writerUrl == Parsed("http") || m.writerUrl == Parsed("https"))
    && WholeBlocks(m.agreementLife) && WholeBlocks(m.listingLife)
    && WholeBlocks(m.counterRecordLife) && WholeBlocks(m.offerMaxLifetime)
    && Blocks(m.offerMaxLifetime) < Blocks(m.agreementLife)
    && 0 < m.discoveryInterval < m.refreshInterval < m.agreementLife
    && 2 * SECOND <= m.refreshInterval < m.listingLife
    && 0 < m.flushInterval <= m.agreementLife && 0 < m.settlementPeriod
    && m.maxProviders <= PAGE_LIMIT
    && m.remotePortStart + m.maxProviders <= U16_MAX + 1
  }

  lemma FitIsWhole(lifetime: nat)
    requires 0 < lifetime
    ensures lifetime % SECOND == 0 && (lifetime / SECOND) % 2 == 0 && lifetime <= MAX_LIFETIME <==> WholeBlocks(lifetime)
  {
    var seconds := lifetime / SECOND;
    assert lifetime == seconds * SECOND + lifetime % SECOND;
    if lifetime % SECOND == 0 && seconds % 2 == 0 {
      assert seconds == 2 * Blocks(lifetime);
    }
    if lifetime == Blocks(lifetime) * 2 * SECOND {
      WholeSeconds(Blocks(lifetime) * 2);
    }
  }

  lemma WholeSeconds(seconds: nat)
    ensures (seconds * SECOND) % SECOND == 0 && (seconds * SECOND) / SECOND == seconds
  {
  }

  lemma IntervalsPositive(m: Marketplace)
    ensures FirstZero(Intervals(m)) == None <==>
              && 0 < m.discoveryInterval && 0 < m.refreshInterval && 0 < m.agreementLife && 0 < m.listingLife
              && 0 < m.counterRecordLife && 0 < m.offerMaxLifetime && 0 < m.settlementPeriod && 0 < m.flushInterval
  {
    hide FirstZero;
    NoneZero(Intervals(m));
    var d := Intervals(m);
    if forall i :: 0 <= i < |d| ==> d[i].duration > 0 {
      assert d[0].duration > 0 && d[1].duration > 0 && d[2].duration > 0 && d[3].duration > 0;
      assert d[4].duration > 0 && d[5].duration > 0 && d[6].duration > 0 && d[7].duration > 0;
    }
  }

  lemma LivesWhole(m: Marketplace)
    requires 0 < m.agreementLife && 0 < m.listingLife && 0 < m.counterRecordLife && 0 < m.offerMaxLifetime
    ensures FirstUnfit(Lives(m)) == None <==>
              && WholeBlocks(m.agreementLife) && WholeBlocks(m.listingLife)
              && WholeBlocks(m.counterRecordLife) && WholeBlocks(m.offerMaxLifetime)
  {
    NoneUnfit(Lives(m));
    FitIsWhole(m.agreementLife);
    FitIsWhole(m.listingLife);
    FitIsWhole(m.counterRecordLife);
    FitIsWhole(m.offerMaxLifetime);
    hide WholeBlocks;
    var d := Lives(m);
    assert d[0] in d && d[1] in d && d[2] in d && d[3] in d;
  }

  lemma WholeOrder(left: nat, right: nat)
    requires WholeBlocks(left) && WholeBlocks(right)
    ensures left < right <==> Blocks(left) < Blocks(right)
  {
    hide Blocks;
  }

  /** A configuration validates if and only if it promises all of that. */
  lemma ValidPromises(m: Marketplace)
    ensures Validate(m) == None <==> Promises(m)
  {
    hide FirstZero, FirstUnfit, FirstOutrun, Blocks, Intervals, WholeBlocks;
    IntervalsPositive(m);
    if 0 < m.agreementLife && 0 < m.listingLife && 0 < m.counterRecordLife && 0 < m.offerMaxLifetime {
      LivesWhole(m);
    }
    if WholeBlocks(m.offerMaxLifetime) && WholeBlocks(m.agreementLife) { WholeOrder(m.offerMaxLifetime, m.agreementLife); }
    NoneOutrun(Lives(m)[..2], m.refreshInterval);
    var outrun := Lives(m)[..2];
    assert outrun[0] in outrun && outrun[1] in outrun;
    PositiveWhole(m);
  }

  lemma PositiveWhole(m: Marketplace)
    ensures WholeBlocks(m.agreementLife) ==> 0 < m.agreementLife
    ensures WholeBlocks(m.listingLife) ==> 0 < m.listingLife
    ensures WholeBlocks(m.counterRecordLife) ==> 0 < m.counterRecordLife
    ensures WholeBlocks(m.offerMaxLifetime) ==> 0 < m.offerMaxLifetime
  {
  }

  lemma {:induction false} NoneZero(durations: seq<Named>)
    ensures FirstZero(durations) == None <==> forall i :: 0 <= i < |durations| ==> durations[i].duration > 0
  {
    if durations != [] {
      NoneZero(durations[1..]);
      assert forall i :: 0 <= i < |durations[1..]| ==> durations[1..][i] == durations[i + 1];
      assert forall i :: 1 <= i < |durations| ==> durations[i] == durations[1..][i - 1];
    }
  }

  predicate FitLife(d: Named) {
    d.duration % SECOND == 0 && (d.duration / SECOND) % 2 == 0 && d.duration <= MAX_LIFETIME
  }

  lemma {:induction false} NoneUnfit(lives: seq<Named>)
    ensures FirstUnfit(lives) == None <==> forall d :: d in lives ==> FitLife(d)
  {
    if lives != [] {
      NoneUnfit(lives[1..]);
      assert FirstUnfit(lives) == None <==> FitLife(lives[0]) && FirstUnfit(lives[1..]) == None;
      hide FitLife;
      assert lives == [lives[0]] + lives[1..];
    }
  }

  lemma {:induction false} NoneOutrun(lives: seq<Named>, refreshInterval: nat)
    ensures FirstOutrun(lives, refreshInterval) == None <==> forall d :: d in lives ==> d.duration > refreshInterval
  {
    if lives != [] { NoneOutrun(lives[1..], refreshInterval); assert lives == [lives[0]] + lives[1..]; }
  }

  /** A valid configuration has exactly one port for every slot. */
  lemma PortForEverySlot(m: Marketplace)
    requires m.remotePortStart <= U16_MAX && Validate(m) == None
    ensures |RemotePorts(m)| == m.maxProviders
    ensures forall p: nat :: p in RemotePorts(m) <==> m.remotePortStart <= p < m.remotePortStart + m.maxProviders
    ensures forall p :: p in RemotePorts(m) ==> p <= U16_MAX
  {
    ValidPromises(m);
    forall p: nat | m.remotePortStart <= p < m.remotePortStart + m.maxProviders ensures p in RemotePorts(m) {
      assert RemotePorts(m)[p - m.remotePortStart] == p;
    }
  }
}

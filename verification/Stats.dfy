/** Hourly statistics: a bounded ring of buckets per counter, closed at every hour and at a stop, and kept
    across restarts. */
module Stats {
  import opened Basics

  const HOURS: nat := 31 * 24
  const HOUR: nat := 3600

  /** One hour of one counter. Partial: not a whole hour, cut by a start or a stop. */
  datatype Bucket = Bucket(start: nat, count: nat, partial: bool)

  /** The last hours of one counter, and the reading the next bucket is a difference from. */
  datatype Ring = Ring(buckets: seq<Bucket>, last: Option<nat>)

  const EMPTY := Ring([], None)

  /** What a reading adds: what it grew by since the last one. */
  function Growth(last: Option<nat>, reading: nat): nat {
    SaturatingSub(reading, if last.Some? then last.value else 0)
  }

  predicate SameHour(buckets: seq<Bucket>, start: nat) {
    buckets != [] && buckets[|buckets| - 1].start == start
  }

  /** A ring that never lets go of an hour. */
  function Noted(buckets: seq<Bucket>, start: nat, count: nat, partial: bool): seq<Bucket> {
    if SameHour(buckets, start) then
      var newest := buckets[|buckets| - 1];
      buckets[|buckets| - 1 := Bucket(start, newest.count + count, true)]
    else buckets + [Bucket(start, count, partial)]
  }

  function Newest(buckets: seq<Bucket>, n: nat): seq<Bucket> {
    if |buckets| <= n then buckets else buckets[|buckets| - n..]
  }

  /** A tick or a stop, on one ring. */
  function Closed(ring: Ring, start: nat, reading: nat, stopping: bool): Ring {
    Ring(Newest(Noted(ring.buckets, start, Growth(ring.last, reading), stopping || ring.last.None?), HOURS), Some(reading))
  }

  method Close(ring: Ring, start: nat, reading: nat, stopping: bool) returns (after: Ring)
    requires |ring.buckets| <= HOURS
    ensures after == Closed(ring, start, reading, stopping) && |after.buckets| <= HOURS
  {
    var count := Growth(ring.last, reading);
    var partial := stopping || ring.last.None?;
    var buckets := ring.buckets;
    if |buckets| > 0 && buckets[|buckets| - 1].start == start {
      var newest := buckets[|buckets| - 1];
      return Ring(buckets[|buckets| - 1 := newest.(count := newest.count + count, partial := true)], Some(reading));
    }
    if |buckets| == HOURS { buckets := buckets[1..]; }
    after := Ring(buckets + [Bucket(start, count, partial)], Some(reading));
    assert |ring.buckets| == HOURS ==> (ring.buckets + [Bucket(start, count, partial)])[1..] == after.buckets;
  }

  /* ---------- histories ---------- */

  /** A restart reads the rings from the file; its counters begin at zero. */
  datatype Event = Reading(start: nat, reading: nat, stopping: bool) | Restart

  function After(events: seq<Event>): Ring {
    if events == [] then EMPTY
    else
      var before := After(events[..|events| - 1]);
      match events[|events| - 1]
      case Reading(start, reading, stopping) => Closed(before, start, reading, stopping)
      case Restart => before.(last := None)
  }

  /** The same history without a bound on the hours. */
  function Everything(events: seq<Event>): Ring {
    if events == [] then EMPTY
    else
      var before := Everything(events[..|events| - 1]);
      match events[|events| - 1]
      case Reading(start, reading, stopping) =>
        Ring(Noted(before.buckets, start, Growth(before.last, reading), stopping || before.last.None?), Some(reading))
      case Restart => before.(last := None)
  }

  function Sum(buckets: seq<Bucket>): nat {
    if buckets == [] then 0 else Sum(buckets[..|buckets| - 1]) + buckets[|buckets| - 1].count
  }

  /** The last reading of each process, added up. */
  function FinalReadings(events: seq<Event>): nat
    decreases |events|
  {
    if events == [] then 0
    else
      var before := events[..|events| - 1];
      match events[|events| - 1]
      case Restart => FinalReadings(before)
      case Reading(_, reading, _) => FinalReadings(Earlier(before)) + reading
  }

  /** The history up to the start of its last process. */
  function Earlier(events: seq<Event>): (before: seq<Event>)
    ensures |before| <= |events|
  {
    if events == [] || events[|events| - 1].Restart? then events else Earlier(events[..|events| - 1])
  }

  /** The reading the next one is compared with. */
  function LastReading(events: seq<Event>): Option<nat> {
    if events == [] then None
    else match events[|events| - 1]
      case Reading(_, reading, _) => Some(reading)
      case Restart => None
  }

  /** Event `i` is no reading below the one before it. */
  predicate NoFall(events: seq<Event>, i: nat)
    requires i < |events|
  {
    events[i].Reading? && LastReading(events[..i]).Some? ==> LastReading(events[..i]).value <= events[i].reading
  }

  /** No counter runs backwards while its process lives. */
  ghost predicate Monotone(events: seq<Event>) {
    forall i: nat :: i < |events| ==> NoFall(events, i)
  }

  /** No hour closes before one that closed already. */
  ghost predicate InOrder(events: seq<Event>) {
    forall i, j :: 0 <= i < j < |events| && events[i].Reading? && events[j].Reading? ==> events[i].start <= events[j].start
  }

  ghost predicate Rising(buckets: seq<Bucket>) {
    forall i, j :: 0 <= i < j < |buckets| ==> buckets[i].start < buckets[j].start
  }

  /* ---------- the bound drops the oldest, and only them ---------- */

  lemma NewestNoted(buckets: seq<Bucket>, start: nat, count: nat, partial: bool, n: nat)
    requires n > 0
    ensures Newest(Noted(Newest(buckets, n), start, count, partial), n) == Newest(Noted(buckets, start, count, partial), n)
  {
    var kept := Newest(buckets, n);
    assert SameHour(kept, start) <==> SameHour(buckets, start);
  }

  /** A ring holds exactly the newest hours of the whole history. */
  lemma {:induction false} KeepsTheNewest(events: seq<Event>)
    ensures After(events) == Ring(Newest(Everything(events).buckets, HOURS), Everything(events).last)
    ensures |After(events).buckets| <= HOURS
  {
    if events != [] {
      KeepsTheNewest(events[..|events| - 1]);
      var before, event := Everything(events[..|events| - 1]), events[|events| - 1];
      if event.Reading? {
        NewestNoted(before.buckets, event.start, Growth(before.last, event.reading), event.stopping || before.last.None?, HOURS);
      }
    }
  }

  /* ---------- conservation ---------- */

  lemma SumUpdate(buckets: seq<Bucket>, bucket: Bucket)
    requires buckets != []
    ensures Sum(buckets[|buckets| - 1 := bucket]) == Sum(buckets) - buckets[|buckets| - 1].count + bucket.count
  {
    assert buckets[|buckets| - 1 := bucket][..|buckets| - 1] == buckets[..|buckets| - 1];
  }

  lemma SumNoted(buckets: seq<Bucket>, start: nat, count: nat, partial: bool)
    ensures Sum(Noted(buckets, start, count, partial)) == Sum(buckets) + count
  {
    if SameHour(buckets, start) {
      SumUpdate(buckets, Bucket(start, buckets[|buckets| - 1].count + count, true));
    } else {
      assert (buckets + [Bucket(start, count, partial)])[..|buckets|] == buckets;
    }
  }

  lemma {:induction false} LastIs(events: seq<Event>)
    ensures Everything(events).last == LastReading(events)
  {
  }

  /** What a process's last reading adds to the ones before it. */
  lemma FinalStep(events: seq<Event>, start: nat, reading: nat, stopping: bool)
    ensures FinalReadings(events + [Reading(start, reading, stopping)])
            + (if LastReading(events).Some? then LastReading(events).value else 0)
         == FinalReadings(events) + reading
  {
    var after := events + [Reading(start, reading, stopping)];
    assert after[..|events|] == events;
    if events != [] && events[|events| - 1].Reading? {
      assert Earlier(events) == Earlier(events[..|events| - 1]);
    }
  }

  lemma {:induction false} NeverTooFew(events: seq<Event>)
    ensures Sum(Everything(events).buckets) >= FinalReadings(events)
  {
    if events != [] {
      var before, event := events[..|events| - 1], events[|events| - 1];
      assert events == before + [event];
      NeverTooFew(before);
      LastIs(before);
      if event.Reading? {
        FinalStep(before, event.start, event.reading, event.stopping);
        var ring := Everything(before);
        SumNoted(ring.buckets, event.start, Growth(ring.last, event.reading), event.stopping || ring.last.None?);
      }
    }
  }

  /** Every count is in one bucket, kept or let go, and only there, exactly when no counter ran backwards while
      its process lived. */
  lemma {:induction false} EveryCountOnce(events: seq<Event>)
    ensures Sum(Everything(events).buckets) == FinalReadings(events) <==> Monotone(events)
  {
    if events != [] {
      var before, event := events[..|events| - 1], events[|events| - 1];
      assert events == before + [event];
      EveryCountOnce(before);
      NeverTooFew(before);
      LastIs(before);
      MonotoneMore(before, event);
      if event.Reading? {
        FinalStep(before, event.start, event.reading, event.stopping);
        var ring := Everything(before);
        SumNoted(ring.buckets, event.start, Growth(ring.last, event.reading), event.stopping || ring.last.None?);
      }
    }
  }

  lemma MonotoneMore(before: seq<Event>, event: Event)
    ensures Monotone(before + [event]) <==>
              Monotone(before)
              && (event.Reading? && LastReading(before).Some? ==> LastReading(before).value <= event.reading)
  {
    var events := before + [event];
    assert events[..|before|] == before && events[|before|] == event;
    assert NoFall(events, |before|) <==>
             (event.Reading? && LastReading(before).Some? ==> LastReading(before).value <= event.reading);
    forall i: nat | i < |before| ensures NoFall(events, i) <==> NoFall(before, i) {
      assert events[..i] == before[..i] && events[i] == before[i];
    }
  }

  lemma {:induction false} SumSplit(buckets: seq<Bucket>, n: nat)
    requires n <= |buckets|
    ensures Sum(buckets) == Sum(buckets[..n]) + Sum(buckets[n..])
  {
    if n < |buckets| {
      var before := buckets[..|buckets| - 1];
      SumSplit(before, n);
      assert before[..n] == buckets[..n] && buckets[n..][..|buckets| - n - 1] == before[n..];
    } else {
      assert buckets[..n] == buckets;
    }
  }

  /** What is kept and what was let go add up to the final readings of every process, exactly when no counter
      ran backwards while its process lived. */
  lemma KeptAndLetGo(events: seq<Event>)
    ensures var all, kept := Everything(events).buckets, After(events).buckets;
            && |kept| == Least(|all|, HOURS) && kept == all[|all| - |kept|..]
            && (Sum(all[..|all| - |kept|]) + Sum(kept) == FinalReadings(events) <==> Monotone(events))
  {
    hide Everything, After, Sum, FinalReadings, Monotone;
    var all, kept := Everything(events).buckets, After(events).buckets;
    KeepsTheNewest(events);
    EveryCountOnce(events);
    SumSplit(all, |all| - |kept|);
  }

  /* ---------- the hours ---------- */

  lemma {:induction false} EverythingRises(events: seq<Event>)
    requires InOrder(events)
    ensures Rising(Everything(events).buckets)
    ensures FromEvents(Everything(events).buckets, events)
  {
    if events != [] {
      var before, event := events[..|events| - 1], events[|events| - 1];
      forall i, j | 0 <= i < j < |before| && before[i].Reading? && before[j].Reading? ensures before[i].start <= before[j].start {
        assert events[i] == before[i] && events[j] == before[j];
      }
      EverythingRises(before);
      forall b | b in Everything(before).buckets ensures exists i :: 0 <= i < |events| && events[i].Reading? && events[i].start == b.start {
        var i :| 0 <= i < |before| && before[i].Reading? && before[i].start == b.start;
        assert events[i] == before[i];
      }
      if event.Reading? {
        var ring := Everything(before);
        NotedRises(ring.buckets, events, Growth(ring.last, event.reading), event.stopping || ring.last.None?);
      }
    }
  }

  ghost predicate FromEvents(buckets: seq<Bucket>, events: seq<Event>) {
    forall b :: b in buckets ==> exists i :: 0 <= i < |events| && events[i].Reading? && events[i].start == b.start
  }

  lemma NotedRises(buckets: seq<Bucket>, events: seq<Event>, count: nat, partial: bool)
    requires events != [] && events[|events| - 1].Reading? && InOrder(events) && Rising(buckets) && FromEvents(buckets, events)
    ensures Rising(Noted(buckets, events[|events| - 1].start, count, partial))
    ensures FromEvents(Noted(buckets, events[|events| - 1].start, count, partial), events)
  {
    var last := |events| - 1;
    var start := events[last].start;
    forall i | 0 <= i < |buckets| ensures buckets[i].start <= start {
      assert buckets[i] in buckets;
      var e :| 0 <= e < |events| && events[e].Reading? && events[e].start == buckets[i].start;
    }
    assert buckets != [] && !SameHour(buckets, start) ==> buckets[|buckets| - 1].start < start;
    var noted := Noted(buckets, start, count, partial);
    forall b | b in noted ensures exists i :: 0 <= i < |events| && events[i].Reading? && events[i].start == b.start {
      if b !in buckets { assert b.start == start && events[last].start == b.start; }
    }
  }

  /** With hours closed in order, a ring's hours rise strictly: none is there twice. */
  lemma HoursRise(events: seq<Event>)
    requires InOrder(events)
    ensures Rising(After(events).buckets)
  {
    EverythingRises(events);
    KeepsTheNewest(events);
  }

  /* ---------- what a bucket says ---------- */

  predicate In(event: Event, start: nat) {
    event.Reading? && event.start == start
  }

  /** How many readings closed an hour. */
  function HourReadings(events: seq<Event>, start: nat): nat {
    if events == [] then 0
    else HourReadings(events[..|events| - 1], start) + if In(events[|events| - 1], start) then 1 else 0
  }

  /** What they grew by in all. */
  function HourCount(events: seq<Event>, start: nat): nat {
    if events == [] then 0
    else
      var before, last := events[..|events| - 1], events[|events| - 1];
      HourCount(before, start) + if In(last, start) then Growth(LastReading(before), last.reading) else 0
  }

  /** One of them was a stop, or the first of its process. */
  predicate HourCut(events: seq<Event>, start: nat) {
    events != []
    && var before, last := events[..|events| - 1], events[|events| - 1];
       HourCut(before, start) || (In(last, start) && (last.stopping || LastReading(before).None?))
  }

  /** A bucket says what its hour grew by, and is partial exactly when the hour was cut or closed twice. */
  predicate Says(events: seq<Event>, b: Bucket) {
    && HourReadings(events, b.start) >= 1 && b.count == HourCount(events, b.start)
    && (b.partial <==> HourCut(events, b.start) || HourReadings(events, b.start) >= 2)
  }

  ghost predicate Tells(events: seq<Event>, buckets: seq<Bucket>) {
    && (forall b :: b in buckets ==> Says(events, b))
    && (forall start :: HourReadings(events, start) >= 1 ==> exists b :: b in buckets && b.start == start)
  }

  lemma OneMoreEvent(before: seq<Event>, last: Event, start: nat)
    ensures var events := before + [last];
            && HourReadings(events, start) == HourReadings(before, start) + (if In(last, start) then 1 else 0)
            && HourCount(events, start)
               == HourCount(before, start) + (if In(last, start) then Growth(LastReading(before), last.reading) else 0)
            && (HourCut(events, start)
                <==> HourCut(before, start) || (In(last, start) && (last.stopping || LastReading(before).None?)))
  {
    assert (before + [last])[..|before|] == before;
  }

  lemma {:induction false} NoneYet(events: seq<Event>, start: nat)
    requires HourReadings(events, start) == 0
    ensures HourCount(events, start) == 0 && !HourCut(events, start)
  {
    if events != [] { NoneYet(events[..|events| - 1], start); }
  }

  /** One reading more: the newest bucket when it is the same hour's, and a new one otherwise. */
  lemma NotedTells(before: seq<Event>, last: Event, buckets: seq<Bucket>)
    requires last.Reading? && Tells(before, buckets) && Rising(buckets)
    requires forall b :: b in buckets ==> b.start <= last.start
    ensures Tells(before + [last],
                  Noted(buckets, last.start, Growth(LastReading(before), last.reading), last.stopping || LastReading(before).None?))
  {
    var events, start := before + [last], last.start;
    var noted := Noted(buckets, start, Growth(LastReading(before), last.reading), last.stopping || LastReading(before).None?);
    hide HourReadings, HourCount, HourCut;
    forall hour: nat { OneMoreEvent(before, last, hour); }
    if SameHour(buckets, start) {
      var newest := buckets[|buckets| - 1];
      assert newest in buckets && Says(before, newest);
      forall b | b in noted ensures Says(events, b) {
        if b != noted[|noted| - 1] {
          var i :| 0 <= i < |noted| - 1 && noted[i] == b;
          assert buckets[i] == b && b in buckets && b.start < start;
        }
      }
      forall hour | HourReadings(events, hour) >= 1 ensures exists b :: b in noted && b.start == hour {
        if hour == start {
          assert noted[|noted| - 1] in noted;
        } else {
          var b :| b in buckets && b.start == hour;
          var i :| 0 <= i < |buckets| && buckets[i] == b;
          assert noted[i] in noted;
        }
      }
    } else {
      NoneNoted(before, buckets, start);
      NoneYet(before, start);
      assert noted[|noted| - 1] in noted;
      forall b | b in noted ensures Says(events, b) {
        if b in buckets { assert Says(before, b) && b.start != start; }
      }
      forall hour | HourReadings(events, hour) >= 1 ensures exists b :: b in noted && b.start == hour {
        if hour != start {
          var b :| b in buckets && b.start == hour;
          assert b in noted;
        }
      }
    }
  }

  lemma NoneNoted(before: seq<Event>, buckets: seq<Bucket>, start: nat)
    requires Tells(before, buckets) && Rising(buckets) && !SameHour(buckets, start)
    requires forall b :: b in buckets ==> b.start <= start
    ensures HourReadings(before, start) == 0 && forall b :: b in buckets ==> b.start != start
  {
    forall b | b in buckets ensures b.start != start {
      var i :| 0 <= i < |buckets| && buckets[i] == b;
      assert buckets[|buckets| - 1] in buckets;
    }
  }

  lemma {:induction false} EverythingTells(events: seq<Event>)
    requires InOrder(events)
    ensures Tells(events, Everything(events).buckets)
  {
    if events != [] {
      var before, last := events[..|events| - 1], events[|events| - 1];
      assert events == before + [last];
      OrderBefore(before, last);
      EverythingTells(before);
      EverythingRises(before);
      LastIs(before);
      if last.Reading? {
        forall b | b in Everything(before).buckets ensures b.start <= last.start {
          var i :| 0 <= i < |before| && before[i].Reading? && before[i].start == b.start;
          assert events[i] == before[i];
        }
        NotedTells(before, last, Everything(before).buckets);
      } else {
        forall hour: nat { OneMoreEvent(before, last, hour); }
      }
    }
  }

  lemma OrderBefore(before: seq<Event>, last: Event)
    requires InOrder(before + [last])
    ensures InOrder(before)
  {
    forall i | 0 <= i < |before| ensures (before + [last])[i] == before[i] {}
  }

  /** With hours closed in order, every bucket a ring holds says what its counter grew by over the readings that
      closed its hour, and is partial exactly when one of them was a stop or a process's first, or there were
      two. */
  lemma BucketsTell(events: seq<Event>, b: Bucket)
    requires InOrder(events) && b in After(events).buckets
    ensures Says(events, b)
  {
    EverythingTells(events);
    KeepsTheNewest(events);
    hide Everything, After, Says;
  }

  /* ---------- rings closed together ---------- */

  function Since(buckets: seq<Bucket>, since: nat): seq<Bucket> {
    if buckets == [] then []
    else
      var last := buckets[|buckets| - 1];
      Since(buckets[..|buckets| - 1], since) + if last.start >= since then [last] else []
  }

  /** The same hours, each cut or whole in both. */
  ghost predicate Paired(left: seq<Bucket>, right: seq<Bucket>) {
    |left| == |right| && forall i :: 0 <= i < |left| ==> left[i].start == right[i].start && left[i].partial == right[i].partial
  }

  /** Two counters read at the same moments. */
  ghost predicate ReadTogether(left: seq<Event>, right: seq<Event>) {
    && |left| == |right|
    && forall i :: 0 <= i < |left| ==>
         && left[i].Reading? == right[i].Reading?
         && (left[i].Reading? ==> left[i].start == right[i].start && left[i].stopping == right[i].stopping)
  }

  lemma ClosedPair(left: Ring, right: Ring, start: nat, mine: nat, yours: nat, stopping: bool)
    requires Paired(left.buckets, right.buckets) && left.last.Some? == right.last.Some?
    ensures Paired(Closed(left, start, mine, stopping).buckets, Closed(right, start, yours, stopping).buckets)
  {
    NotedPair(left.buckets, right.buckets, start, Growth(left.last, mine), Growth(right.last, yours), stopping || left.last.None?);
    hide Noted;
  }

  lemma NotedPair(left: seq<Bucket>, right: seq<Bucket>, start: nat, mine: nat, yours: nat, partial: bool)
    requires Paired(left, right)
    ensures Paired(Noted(left, start, mine, partial), Noted(right, start, yours, partial))
  {
  }

  lemma {:induction false} RingsPair(left: seq<Event>, right: seq<Event>)
    requires ReadTogether(left, right)
    ensures Paired(After(left).buckets, After(right).buckets) && After(left).last.Some? == After(right).last.Some?
  {
    hide Closed, Paired;
    if left != [] {
      RingsPair(left[..|left| - 1], right[..|right| - 1]);
      var mine, yours := left[|left| - 1], right[|right| - 1];
      if mine.Reading? {
        ClosedPair(After(left[..|left| - 1]), After(right[..|right| - 1]), mine.start, mine.reading, yours.reading, mine.stopping);
        LastClosed();
      }
    } else {
      NonePair();
    }
  }

  lemma NonePair()
    ensures Paired(EMPTY.buckets, EMPTY.buckets)
  {
  }

  lemma LastClosed()
    ensures forall ring: Ring, start: nat, reading: nat, stopping: bool :: Closed(ring, start, reading, stopping).last == Some(reading)
  {
  }

  lemma {:induction false} SincePairs(left: seq<Bucket>, right: seq<Bucket>, since: nat)
    requires Paired(left, right)
    ensures Paired(Since(left, since), Since(right, since))
  {
    if left != [] { SincePairs(left[..|left| - 1], right[..|right| - 1], since); }
  }

  /** A report's rows lose nothing: rings closed together pair hour by hour, whatever hour the report starts
      from. */
  lemma ReportPairsUp(left: seq<Event>, right: seq<Event>, since: nat)
    requires ReadTogether(left, right)
    ensures Paired(Since(After(left).buckets, since), Since(After(right).buckets, since))
  {
    RingsPair(left, right);
    SincePairs(After(left).buckets, After(right).buckets, since);
  }

  /* ---------- the report ---------- */

  datatype ProviderRow = ProviderRow(hour: nat, served: nat, failures: nat, partial: bool)

  datatype LbRow = LbRow(hour: nat, noHealthyProvider: nat, timedOut: nat, noProviderAnswered: nat, partial: bool)

  /** One row for each pair of buckets, as far as both lists go. */
  function ProviderRows(served: seq<Bucket>, failures: seq<Bucket>): seq<ProviderRow> {
    seq(Least(|served|, |failures|),
        i requires 0 <= i < Least(|served|, |failures|) => ProviderRow(served[i].start, served[i].count, failures[i].count, served[i].partial))
  }

  function LbRows(noHealthy: seq<Bucket>, timedOut: seq<Bucket>, unanswered: seq<Bucket>): seq<LbRow> {
    var n := Least(|noHealthy|, Least(|timedOut|, |unanswered|));
    seq(n, i requires 0 <= i < n =>
      LbRow(noHealthy[i].start, noHealthy[i].count, timedOut[i].count, unanswered[i].count, noHealthy[i].partial))
  }

  /** What `Since` leaves at `k` of three lists is what they have at `i`. */
  predicate Picks(a: seq<Bucket>, b: seq<Bucket>, c: seq<Bucket>, since: nat, k: nat, i: nat) {
    && i < |a| == |b| == |c| && k < |Since(a, since)| == |Since(b, since)| == |Since(c, since)|
    && Since(a, since)[k] == a[i] && Since(b, since)[k] == b[i] && Since(c, since)[k] == c[i] && a[i].start >= since
  }

  ghost predicate Picked(a: seq<Bucket>, b: seq<Bucket>, c: seq<Bucket>, since: nat, k: nat) {
    exists i: nat :: Picks(a, b, c, since, k, i)
  }

  lemma {:induction false} SincePicks(a: seq<Bucket>, b: seq<Bucket>, c: seq<Bucket>, since: nat)
    requires Paired(a, b) && Paired(a, c)
    ensures |Since(a, since)| == |Since(b, since)| == |Since(c, since)|
    ensures forall k: nat :: k < |Since(a, since)| ==> Picked(a, b, c, since, k)
    ensures forall i: nat :: i < |a| && a[i].start >= since ==> exists k: nat :: Picks(a, b, c, since, k, i)
  {
    if a != [] {
      var last := |a| - 1;
      SincePicks(a[..last], b[..last], c[..last], since);
      var n := |Since(a[..last], since)|;
      forall k: nat, i: nat | Picks(a[..last], b[..last], c[..last], since, k, i) ensures Picks(a, b, c, since, k, i) {}
      if a[last].start >= since { assert Picks(a, b, c, since, n, last); }
      forall k: nat | k < |Since(a, since)| ensures Picked(a, b, c, since, k) {
        if k < n {
          assert Picked(a[..last], b[..last], c[..last], since, k);
          var i: nat :| Picks(a[..last], b[..last], c[..last], since, k, i);
          assert Picks(a, b, c, since, k, i);
        }
      }
      forall i: nat | i < |a| && a[i].start >= since ensures exists k: nat :: Picks(a, b, c, since, k, i) {
        if i < last {
          assert a[..last][i] == a[i];
          var k: nat :| Picks(a[..last], b[..last], c[..last], since, k, i);
        }
      }
    }
  }

  lemma {:induction false} SinceRises(buckets: seq<Bucket>, since: nat)
    requires Rising(buckets)
    ensures Rising(Since(buckets, since)) && forall b :: b in Since(buckets, since) ==> b in buckets
  {
    if buckets != [] {
      var before, last := buckets[..|buckets| - 1], buckets[|buckets| - 1];
      SinceRises(before, since);
      assert buckets == before + [last];
      forall b | b in Since(before, since) ensures b.start < last.start {
        var i :| 0 <= i < |before| && before[i] == b;
        assert buckets[i] == b;
      }
    }
  }

  /** Row `i` of a provider's rings. */
  predicate IsRow(served: seq<Bucket>, failures: seq<Bucket>, since: nat, i: nat, row: ProviderRow) {
    && i < |served| == |failures| && served[i].start >= since
    && row == ProviderRow(served[i].start, served[i].count, failures[i].count, served[i].partial)
  }

  /** A provider's report: one row for each hour its rings hold from the one asked for on, with what both counted in
      it, in order. */
  lemma ProviderReport(served: seq<Event>, failures: seq<Event>, since: nat)
    requires ReadTogether(served, failures) && InOrder(served)
    ensures var rows := ProviderRows(Since(After(served).buckets, since), Since(After(failures).buckets, since));
            && (forall row :: row in rows <==> exists i: nat :: IsRow(After(served).buckets, After(failures).buckets, since, i, row))
            && forall k, l :: 0 <= k < l < |rows| ==> rows[k].hour < rows[l].hour
  {
    RingsPair(served, failures);
    HoursRise(served);
    ProviderRowsAre(After(served).buckets, After(failures).buckets, since);
  }

  lemma ProviderRowsAre(served: seq<Bucket>, failures: seq<Bucket>, since: nat)
    requires Paired(served, failures) && Rising(served)
    ensures var rows := ProviderRows(Since(served, since), Since(failures, since));
            && (forall row :: row in rows <==> exists i: nat :: IsRow(served, failures, since, i, row))
            && forall k, l :: 0 <= k < l < |rows| ==> rows[k].hour < rows[l].hour
  {
    var rows := ProviderRows(Since(served, since), Since(failures, since));
    SincePicks(served, failures, failures, since);
    SinceRises(served, since);
    hide Since, Paired;
    forall row | row in rows ensures exists i: nat :: IsRow(served, failures, since, i, row) {
      var k: nat :| k < |rows| && rows[k] == row;
      assert Picked(served, failures, failures, since, k);
      var i: nat :| Picks(served, failures, failures, since, k, i);
      assert IsRow(served, failures, since, i, row);
    }
    forall row | exists i: nat :: IsRow(served, failures, since, i, row) ensures row in rows {
      var i: nat :| IsRow(served, failures, since, i, row);
      var k: nat :| Picks(served, failures, failures, since, k, i);
      assert rows[k] == row;
    }
  }

  predicate IsLbRow(noHealthy: seq<Bucket>, timedOut: seq<Bucket>, unanswered: seq<Bucket>, since: nat, i: nat, row: LbRow) {
    && i < |noHealthy| == |timedOut| == |unanswered| && noHealthy[i].start >= since
    && row == LbRow(noHealthy[i].start, noHealthy[i].count, timedOut[i].count, unanswered[i].count, noHealthy[i].partial)
  }

  /** And so the report of the answers that are the LB's own. */
  lemma LbReport(noHealthy: seq<Event>, timedOut: seq<Event>, unanswered: seq<Event>, since: nat)
    requires ReadTogether(noHealthy, timedOut) && ReadTogether(noHealthy, unanswered) && InOrder(noHealthy)
    ensures var a, b, c := After(noHealthy).buckets, After(timedOut).buckets, After(unanswered).buckets;
            var rows := LbRows(Since(a, since), Since(b, since), Since(c, since));
            && (forall row :: row in rows <==> exists i: nat :: IsLbRow(a, b, c, since, i, row))
            && forall k, l :: 0 <= k < l < |rows| ==> rows[k].hour < rows[l].hour
  {
    RingsPair(noHealthy, timedOut);
    RingsPair(noHealthy, unanswered);
    HoursRise(noHealthy);
    LbRowsAre(After(noHealthy).buckets, After(timedOut).buckets, After(unanswered).buckets, since);
  }

  lemma LbRowsAre(a: seq<Bucket>, b: seq<Bucket>, c: seq<Bucket>, since: nat)
    requires Paired(a, b) && Paired(a, c) && Rising(a)
    ensures var rows := LbRows(Since(a, since), Since(b, since), Since(c, since));
            && (forall row :: row in rows <==> exists i: nat :: IsLbRow(a, b, c, since, i, row))
            && forall k, l :: 0 <= k < l < |rows| ==> rows[k].hour < rows[l].hour
  {
    var rows := LbRows(Since(a, since), Since(b, since), Since(c, since));
    SincePicks(a, b, c, since);
    SinceRises(a, since);
    hide Since, Paired;
    forall row | row in rows ensures exists i: nat :: IsLbRow(a, b, c, since, i, row) {
      var k: nat :| k < |rows| && rows[k] == row;
      assert Picked(a, b, c, since, k);
      var i: nat :| Picks(a, b, c, since, k, i);
      assert IsLbRow(a, b, c, since, i, row);
    }
    forall row | exists i: nat :: IsLbRow(a, b, c, since, i, row) ensures row in rows {
      var i: nat :| IsLbRow(a, b, c, since, i, row);
      var k: nat :| Picks(a, b, c, since, k, i);
      assert rows[k] == row;
    }
    hide IsLbRow, Picks, Picked;
  }

  /* ---------- a counter that starts over ---------- */

  /** A provider that left and came back has a fresh counter under the same ring: of its first reading, what the
      old counter had reached already is not counted. */
  lemma FreshCounterShort(ring: Ring, start: nat, reading: nat, stopping: bool)
    requires ring.last.Some?
    ensures Sum(Noted(ring.buckets, start, Growth(ring.last, reading), stopping)) + Least(ring.last.value, reading)
         == Sum(ring.buckets) + reading
  {
    SumNoted(ring.buckets, start, Growth(ring.last, reading), stopping);
  }

  /* ---------- the clock ---------- */

  /** When the next tick is due, seen at `at`. */
  function NextTick(at: nat, period: nat): nat
    requires period > 0
  {
    (at / period + 1) * period
  }

  /** A tick closes the period that began a period before it was due, a stop the one in progress. Waiting for
      a tick and then looking at the clock again, every period closed begins at least one later; a stop during
      the wait closes a later one too. */
  lemma PeriodsAdvance(at: nat, later: nat, period: nat)
    requires period > 0
    ensures at < NextTick(at, period) <= at + period && NextTick(at, period) - period == at / period * period
    ensures later >= NextTick(at, period) ==> NextTick(later, period) - period >= NextTick(at, period) - period + period
    ensures later >= NextTick(at, period) ==> later / period * period >= NextTick(at, period)
    ensures later >= at ==> later / period * period >= at / period * period
  {
    DivideRound(at, period);
    DivideRound(later, period);
    NextIs(at, period);
    NextIs(later, period);
    if later >= at { RoundMonotone(at, later, period); }
    if later >= NextTick(at, period) { RoundMonotone(NextTick(at, period), later, period); RoundOf(at / period + 1, period); }
  }

  lemma NextIs(at: nat, period: nat)
    requires period > 0
    ensures NextTick(at, period) == at / period * period + period
  {
  }

  lemma DivideRound(x: nat, period: nat)
    requires period > 0
    ensures x / period * period <= x < x / period * period + period
  {
    assert x == x / period * period + x % period;
  }

  lemma RoundOf(n: nat, period: nat)
    requires period > 0
    ensures (n * period) / period * period == n * period
  {
    DivideRound(n * period, period);
    if (n * period) / period < n { Times((n * period) / period + 1, n, period); }
    if (n * period) / period > n { Times(n + 1, (n * period) / period, period); }
  }

  lemma Times(x: nat, y: nat, period: nat)
    requires x <= y
    ensures x * period <= y * period
  {
  }

  lemma RoundMonotone(x: nat, y: nat, period: nat)
    requires period > 0 && x <= y
    ensures x / period * period <= y / period * period
  {
    DivideRound(x, period);
    DivideRound(y, period);
    if x / period > y / period { Times(y / period + 1, x / period, period); } else { Times(x / period, y / period, period); }
  }

  /* ---------- every ring the LB keeps ---------- */

  datatype ProviderRings = ProviderRings(agreement: Option<Key>, served: Ring, failures: Ring)

  const NO_RINGS := ProviderRings(None, EMPTY, EMPTY)

  /** One provider of the pool, as a tick reads it. */
  datatype Entry = Entry(id: Address, agreement: Option<Key>, served: nat, failures: nat)

  function RingsOf(providers: map<Address, ProviderRings>, id: Address): ProviderRings {
    if id in providers then providers[id] else NO_RINGS
  }

  lemma SameRings(left: map<Address, ProviderRings>, right: map<Address, ProviderRings>, id: Address)
    ensures (id in left <==> id in right) && (id in left ==> left[id] == right[id]) ==> RingsOf(left, id) == RingsOf(right, id)
  {
  }

  function ClosedRings(rings: ProviderRings, entry: Entry, start: nat, stopping: bool): ProviderRings {
    ProviderRings(entry.agreement, Closed(rings.served, start, entry.served, stopping),
                  Closed(rings.failures, start, entry.failures, stopping))
  }

  predicate Bounded(rings: ProviderRings) {
    |rings.served.buckets| <= HOURS && |rings.failures.buckets| <= HOURS
  }

  /** The rings of the answers that are the LB's own, and the counters behind them as a tick reads them. */
  datatype LbRings = LbRings(noHealthyProvider: Ring, timedOut: Ring, noProviderAnswered: Ring)

  datatype LbOutcomes = LbOutcomes(noHealthyProvider: nat, timedOut: nat, noProviderAnswered: nat)

  function ClosedLb(rings: LbRings, outcomes: LbOutcomes, start: nat, stopping: bool): LbRings {
    LbRings(Closed(rings.noHealthyProvider, start, outcomes.noHealthyProvider, stopping),
            Closed(rings.timedOut, start, outcomes.timedOut, stopping),
            Closed(rings.noProviderAnswered, start, outcomes.noProviderAnswered, stopping))
  }

  predicate BoundedLb(rings: LbRings) {
    |rings.noHealthyProvider.buckets| <= HOURS && |rings.timedOut.buckets| <= HOURS && |rings.noProviderAnswered.buckets| <= HOURS
  }

  ghost predicate Distinct(pool: seq<Entry>) {
    forall i, j :: 0 <= i < j < |pool| ==> pool[i].id != pool[j].id
  }

  predicate Recent(rings: ProviderRings, oldestKept: nat) {
    rings.served.buckets != [] && rings.served.buckets[|rings.served.buckets| - 1].start >= oldestKept
  }

  /** A provider's rings after a tick or a stop: served onto served, failures onto failures, under its agreement of the
      moment; one not seen before starts from nothing. */
  ghost predicate RingsClosed(before: map<Address, ProviderRings>, after: map<Address, ProviderRings>, entry: Entry, start: nat,
                              stopping: bool) {
    && entry.id in after && after[entry.id].agreement == entry.agreement
    && after[entry.id].served == Closed(if entry.id in before then before[entry.id].served else EMPTY, start, entry.served, stopping)
    && after[entry.id].failures == Closed(if entry.id in before then before[entry.id].failures else EMPTY, start, entry.failures, stopping)
  }

  ghost predicate LbClosed(before: LbRings, after: LbRings, outcomes: LbOutcomes, start: nat, stopping: bool) {
    && after.noHealthyProvider == Closed(before.noHealthyProvider, start, outcomes.noHealthyProvider, stopping)
    && after.timedOut == Closed(before.timedOut, start, outcomes.timedOut, stopping)
    && after.noProviderAnswered == Closed(before.noProviderAnswered, start, outcomes.noProviderAnswered, stopping)
  }

  /** The newest served bucket is one a full ring closed at `start` would still hold. */
  predicate StillShown(rings: ProviderRings, start: nat) {
    rings.served.buckets != [] && rings.served.buckets[|rings.served.buckets| - 1].start + HOURS * HOUR >= start
  }

  class Statistics {
    var providers: map<Address, ProviderRings>
    var lb: LbRings

    ghost predicate Valid()
      reads this
    {
      BoundedLb(lb) && forall id :: id in providers ==> Bounded(providers[id])
    }

    constructor ()
      ensures Valid() && providers == map[] && lb == LbRings(EMPTY, EMPTY, EMPTY)
    {
      providers, lb := map[], LbRings(EMPTY, EMPTY, EMPTY);
    }

    /** The rings of one provider, closed: each counter onto its own. */
    method CloseOne(start: nat, entry: Entry, stopping: bool)
      requires Valid()
      modifies this`providers
      ensures Valid()
      ensures providers == old(providers)[entry.id := ClosedRings(RingsOf(old(providers), entry.id), entry, start, stopping)]
    {
      hide Closed;
      var rings := if entry.id in providers then providers[entry.id] else NO_RINGS;
      var served := Close(rings.served, start, entry.served, stopping);
      var failures := Close(rings.failures, start, entry.failures, stopping);
      providers := providers[entry.id := ProviderRings(entry.agreement, served, failures)];
    }

    method CloseLb(start: nat, outcomes: LbOutcomes, stopping: bool)
      requires Valid()
      modifies this`lb
      ensures Valid() && lb == ClosedLb(old(lb), outcomes, start, stopping)
    {
      hide Closed;
      var noHealthyProvider := Close(lb.noHealthyProvider, start, outcomes.noHealthyProvider, stopping);
      var timedOut := Close(lb.timedOut, start, outcomes.timedOut, stopping);
      var noProviderAnswered := Close(lb.noProviderAnswered, start, outcomes.noProviderAnswered, stopping);
      lb := LbRings(noHealthyProvider, timedOut, noProviderAnswered);
    }

    /** Closes the hour for every provider in the pool, one seen for the first time getting its rings here, and for
        the LB's own answers. */
    method CloseAll(start: nat, pool: seq<Entry>, outcomes: LbOutcomes, stopping: bool)
      requires Valid() && Distinct(pool)
      modifies this
      ensures Valid() && lb == ClosedLb(old(lb), outcomes, start, stopping)
      ensures LbClosed(old(lb), lb, outcomes, start, stopping)
      ensures forall entry :: entry in pool ==> RingsClosed(old(providers), providers, entry, start, stopping)
      ensures forall entry :: entry in pool ==>
                entry.id in providers && providers[entry.id] == ClosedRings(RingsOf(old(providers), entry.id), entry, start, stopping)
      ensures forall id :: (forall entry :: entry in pool ==> entry.id != id) ==>
                (id in providers <==> id in old(providers)) && (id in providers ==> providers[id] == old(providers)[id])
    {
      ghost var before := providers;
      hide ClosedRings, Valid, RingsOf;
      for i := 0 to |pool|
        invariant Valid() && lb == old(lb)
        invariant forall j :: 0 <= j < i ==>
                    pool[j].id in providers && providers[pool[j].id] == ClosedRings(RingsOf(before, pool[j].id), pool[j], start, stopping)
        invariant forall id :: (forall j :: 0 <= j < i ==> pool[j].id != id) ==>
                    (id in providers <==> id in before) && (id in providers ==> providers[id] == before[id])
      {
        SameRings(before, providers, pool[i].id);
        CloseOne(start, pool[i], stopping);
      }
      CloseLb(start, outcomes, stopping);
      forall entry | entry in pool ensures RingsClosed(before, providers, entry, start, stopping) {
        ClosedIs(before, providers, entry, start, stopping);
      }
    }

    /** A tick also lets go of a provider gone for longer than a ring holds. */
    method Tick(start: nat, pool: seq<Entry>, outcomes: LbOutcomes)
      requires Valid() && Distinct(pool)
      modifies this
      ensures Valid() && LbClosed(old(lb), lb, outcomes, start, false)
      ensures forall entry :: entry in pool ==> RingsClosed(old(providers), providers, entry, start, false)
      ensures forall entry :: entry in pool ==>
                entry.id in providers && providers[entry.id] == ClosedRings(RingsOf(old(providers), entry.id), entry, start, false)
      ensures forall id :: (forall entry :: entry in pool ==> entry.id != id) ==>
                (id in providers <==> id in old(providers) && StillShown(old(providers)[id], start))
                && (id in providers ==> providers[id] == old(providers)[id])
    {
      ghost var before := providers;
      CloseAll(start, pool, outcomes, false);
      var oldestKept := SaturatingSub(start, HOURS * HOUR);
      forall entry | entry in pool ensures Recent(providers[entry.id], oldestKept) {
        ClosedNewest(RingsOf(before, entry.id).served, start, entry.served, false);
      }
      providers := map id | id in providers && Recent(providers[id], oldestKept) :: providers[id];
    }
  }

  lemma ClosedIs(before: map<Address, ProviderRings>, after: map<Address, ProviderRings>, entry: Entry, start: nat, stopping: bool)
    requires entry.id in after && after[entry.id] == ClosedRings(RingsOf(before, entry.id), entry, start, stopping)
    ensures RingsClosed(before, after, entry, start, stopping)
  {
    hide Closed;
  }

  lemma ClosedNewest(ring: Ring, start: nat, reading: nat, stopping: bool)
    ensures var buckets := Closed(ring, start, reading, stopping).buckets;
            buckets != [] && buckets[|buckets| - 1].start == start
  {
  }

  /** What a tick lets go of shows nothing a full ring would still hold. */
  lemma LetGoIsOld(rings: ProviderRings, start: nat)
    requires Rising(rings.served.buckets) && !Recent(rings, SaturatingSub(start, HOURS * HOUR))
    ensures forall b :: b in rings.served.buckets ==> b.start + HOURS * HOUR < start
  {
  }
}

/** How long a record that is refreshed lives, when the refresh goes by the expiry memory shows and memory
    learns of an extend at a poll only. */
module KeepAlive {
  import opened Basics
  import opened Settings
  import opened Refresh

  /** One record: its expiry on the chain, and the one memory shows. */
  datatype Record = Record(chain: nat, shown: nat)

  /** A refresh whose batch was taken, a poll that could be read, or the extend at a provider's admission, whose
      answer may be lost. */
  datatype Event =
    | Refreshed(head: nat, landed: nat)
    | Polled(head: nat)
    | Admitted(landed: nat, answered: bool)

  function After(r: Record, event: Event, life: nat): Record {
    match event
    case Refreshed(head, landed) =>
      if FateAt(Some(head), r.shown, life) == In then r.(chain := Extended(r.chain, landed, life)) else r
    case Polled(head) => if head < r.chain then r.(shown := r.chain) else r
    case Admitted(landed, answered) =>
      var chain := Extended(r.chain, landed, life);
      Record(chain, if answered && chain != r.chain then chain else r.shown)
  }

  /** No refresh finds the record gone from the chain. */
  predicate NeverLost(r: Record, events: seq<Event>, life: nat)
    decreases |events|
  {
    events == []
    || ((events[0].Refreshed? ==> events[0].landed < r.chain) && NeverLost(After(r, events[0], life), events[1..], life))
  }

  /** No refresh leaves the record out as gone. */
  predicate NeverLeftOut(r: Record, events: seq<Event>, life: nat)
    decreases |events|
  {
    events == []
    || ((events[0].Refreshed? ==> FateAt(Some(events[0].head), r.shown, life) != Gone)
        && NeverLeftOut(After(r, events[0], life), events[1..], life))
  }

  /** A schedule: refreshes no further apart than `interval`, each landing within `delay` of its head, and never
      more than `gaps` of them from one poll to the next. `last` is the head of the refresh before, `since` how
      many there were since a poll. */
  predicate Timely(events: seq<Event>, last: nat, since: nat, interval: nat, delay: nat, gaps: nat)
    decreases |events|
  {
    events == []
    || match events[0]
       case Refreshed(head, landed) =>
         && last < head <= last + interval && head < landed <= head + delay && since < gaps
         && Timely(events[1..], head, since + 1, interval, delay, gaps)
       case Polled(head) => last < head <= last + interval && Timely(events[1..], last, 0, interval, delay, gaps)
       case Admitted(_, _) => Timely(events[1..], last, since, interval, delay, gaps)
  }

  /** What a refresh on time leaves: the record outlives its head by a whole life, and memory is no further behind
      than the refreshes since the last poll. */
  predicate Kept(r: Record, last: nat, since: nat, interval: nat, gaps: nat, life: nat) {
    && r.shown <= r.chain && r.chain > last + Blocks(life)
    && (since < gaps ==> r.shown + since * interval > last + Blocks(life))
  }

  /** A refresh that finds the record alive, on the chain and in memory, is a start: a poll has to follow. */
  lemma FirstRefreshKeeps(r: Record, head: nat, landed: nat, interval: nat, gaps: nat, life: nat)
    requires head < r.shown <= r.chain && head < landed < r.chain
    ensures Kept(After(r, Refreshed(head, landed), life), head, gaps, interval, gaps, life)
  {
    hide Blocks;
  }

  /** So is an admission's extend that was answered. */
  lemma AdmissionKeeps(r: Record, landed: nat, interval: nat, gaps: nat, life: nat)
    requires r.shown <= r.chain && 0 < landed < r.chain < landed + Blocks(life)
    ensures Kept(After(r, Admitted(landed, true), life), landed - 1, 0, interval, gaps, life)
  {
    hide Blocks;
  }

  lemma Within(since: nat, gaps: nat, interval: nat)
    requires since < gaps
    ensures since * interval + interval <= gaps * interval
  {
    assert since * interval + interval == (since + 1) * interval;
    Grows(since + 1, gaps, interval);
  }

  lemma Grows(x: nat, y: nat, z: nat)
    requires x <= y
    ensures x * z <= y * z
  {
  }

  lemma EventKeeps(r: Record, event: Event, last: nat, since: nat, interval: nat, delay: nat, gaps: nat, life: nat)
    requires Kept(r, last, since, interval, gaps, life) && Timely([event], last, since, interval, delay, gaps)
    requires interval + delay <= Blocks(life) && gaps * interval <= Blocks(life)
    ensures event.Refreshed? ==> event.landed < r.chain && FateAt(Some(event.head), r.shown, life) != Gone
    ensures Kept(After(r, event, life),
                 if event.Refreshed? then event.head else last,
                 match event case Refreshed(_, _) => since + 1 case Polled(_) => 0 case Admitted(_, _) => since,
                 interval, gaps, life)
  {
    hide Blocks;
    if event.Refreshed? {
      Within(since, gaps, interval);
      assert (since + 1) * interval == since * interval + interval;
    }
  }

  /** On such a schedule no refresh loses the record or leaves it out. */
  lemma {:induction false} ScheduleKeeps(r: Record, events: seq<Event>, last: nat, since: nat, interval: nat, delay: nat,
                                         gaps: nat, life: nat)
    requires Kept(r, last, since, interval, gaps, life) && Timely(events, last, since, interval, delay, gaps)
    requires interval + delay <= Blocks(life) && gaps * interval <= Blocks(life)
    ensures NeverLost(r, events, life) && NeverLeftOut(r, events, life)
    decreases |events|
  {
    if events != [] {
      var event := events[0];
      assert [event][1..] == [];
      hide Blocks, Kept, FateAt, After;
      EventKeeps(r, event, last, since, interval, delay, gaps, life);
      ScheduleKeeps(After(r, event, life), events[1..],
                    if event.Refreshed? then event.head else last,
                    match event case Refreshed(_, _) => since + 1 case Polled(_) => 0 case Admitted(_, _) => since,
                    interval, delay, gaps, life);
    }
  }

  /** With a poll between any two refreshes, the spacing and the delay only have to fit the life. */
  lemma PolledBetweenKeeps(r: Record, events: seq<Event>, last: nat, since: nat, interval: nat, delay: nat, life: nat)
    requires Kept(r, last, since, interval, 1, life) && Timely(events, last, since, interval, delay, 1)
    requires interval + delay <= Blocks(life)
    ensures NeverLost(r, events, life) && NeverLeftOut(r, events, life)
  {
    ScheduleKeeps(r, events, last, since, interval, delay, 1, life);
  }

  /* ---------- no weaker condition ---------- */

  /** Whatever the schedule, no refresh loses the record or leaves it out. */
  ghost predicate AlwaysKeeps(interval: nat, delay: nat, gaps: nat, life: nat) {
    forall r, events, last, since ::
      Kept(r, last, since, interval, gaps, life) && Timely(events, last, since, interval, delay, gaps) ==>
        NeverLost(r, events, life) && NeverLeftOut(r, events, life)
  }

  /** Refreshes a full interval apart, landing at once, with no poll. */
  function Unpolled(n: nat, last: nat, interval: nat): seq<Event>
    decreases n
  {
    if n == 0 then [] else [Refreshed(last + interval, last + interval + 1)] + Unpolled(n - 1, last + interval, interval)
  }

  lemma {:induction false} UnpolledLeavesOut(r: Record, n: nat, last: nat, since: nat, interval: nat, delay: nat, gaps: nat, life: nat)
    requires n > 0 && interval > 0 && delay > 0 && since + n <= gaps && r.shown <= last + n * interval
    ensures Timely(Unpolled(n, last, interval), last, since, interval, delay, gaps)
    ensures !NeverLeftOut(r, Unpolled(n, last, interval), life)
    decreases n
  {
    var events := Unpolled(n, last, interval);
    var next := After(r, events[0], life);
    assert events[1..] == Unpolled(n - 1, last + interval, interval);
    assert n * interval == interval + (n - 1) * interval;
    assert next.shown == r.shown;
    if n > 1 { UnpolledLeavesOut(next, n - 1, last + interval, since + 1, interval, delay, gaps, life); }
  }

  /** Every schedule keeps the record exactly when the spacing and the delay fit the life and so do the refreshes
      from one poll to the next. */
  lemma KeepsExactlyWhen(interval: nat, delay: nat, gaps: nat, life: nat)
    requires interval > 0 && delay > 0 && gaps > 0
    ensures AlwaysKeeps(interval, delay, gaps, life) <==> interval + delay <= Blocks(life) && gaps * interval <= Blocks(life)
  {
    if interval + delay <= Blocks(life) && gaps * interval <= Blocks(life) {
      forall r, events, last, since
        | Kept(r, last, since, interval, gaps, life) && Timely(events, last, since, interval, delay, gaps)
        ensures NeverLost(r, events, life) && NeverLeftOut(r, events, life)
      {
        ScheduleKeeps(r, events, last, since, interval, delay, gaps, life);
      }
    } else {
      var r := Record(Blocks(life) + 1, Blocks(life) + 1);
      assert Kept(r, 0, 0, interval, gaps, life);
      if interval + delay > Blocks(life) {
        LateRefreshLoses(r, interval, delay, gaps, life);
      } else {
        UnpolledLeavesOut(r, gaps, 0, 0, interval, delay, gaps, life);
      }
    }
  }

  lemma LateRefreshLoses(r: Record, interval: nat, delay: nat, gaps: nat, life: nat)
    requires interval > 0 && delay > 0 && gaps > 0 && r.chain <= interval + delay
    ensures Timely([Refreshed(interval, interval + delay)], 0, 0, interval, delay, gaps)
    ensures !NeverLost(r, [Refreshed(interval, interval + delay)], life)
  {
    assert [Refreshed(interval, interval + delay)][1..] == [];
  }

  /* ---------- when the polls fail ---------- */

  /** Refreshes alone, one after another: the head of each within `interval` of the head before, and each landing
      within `delay`. */
  predicate Refreshes(events: seq<Event>, before: Event, interval: nat, delay: nat)
    requires before.Refreshed?
    decreases |events|
  {
    events == []
    || (events[0].Refreshed?
        && before.landed <= events[0].head <= before.head + interval
        && events[0].head < events[0].landed <= events[0].head + delay
        && Refreshes(events[1..], events[0], interval, delay))
  }

  /** Every refresh on time and all of them taken, and still the record is lost at the third: until a poll comes
      memory shows its first expiry, so the second leaves it out. */
  lemma PollsFailedLoses()
    ensures Blocks(20 * SECOND) == 10
    ensures Refreshes([Refreshed(8, 9), Refreshed(16, 17)], Refreshed(0, 1), 8, 1)
    ensures After(Record(8, 8), Refreshed(0, 1), 20 * SECOND) == Record(11, 8)
    ensures !NeverLost(Record(11, 8), [Refreshed(8, 9), Refreshed(16, 17)], 20 * SECOND)
  {
    var events := [Refreshed(8, 9), Refreshed(16, 17)];
    assert events[1..] == [events[1]] && events[1..][1..] == [];
  }

  /** The last refresh whose head was below `shown`, or the one before all of them. */
  function LastBelow(events: seq<Event>, shown: nat, before: Event): (e: Event)
    requires before.Refreshed?
    ensures e.Refreshed?
    decreases |events|
  {
    if events == [] || !events[0].Refreshed? || events[0].head >= shown then before
    else LastBelow(events[1..], shown, events[0])
  }

  lemma {:induction false} InOrder(events: seq<Event>, shown: nat, before: Event, interval: nat, delay: nat)
    requires before.Refreshed? && Refreshes(events, before, interval, delay)
    ensures LastBelow(events, shown, before).landed >= before.landed
    ensures forall e :: e in events ==> e.Refreshed? && e.landed > before.landed
    decreases |events|
  {
    if events != [] {
      assert events == [events[0]] + events[1..];
      InOrder(events[1..], shown, events[0], interval, delay);
    }
  }

  /** Once memory shows the record expired, refreshes leave it as it is. */
  lemma {:induction false} GoneStays(r: Record, events: seq<Event>, before: Event, interval: nat, delay: nat, life: nat)
    requires before.Refreshed? && Refreshes(events, before, interval, delay) && r.shown <= before.landed
    ensures forall e :: e in events ==> e.Refreshed?
    ensures NeverLost(r, events, life) <==> forall e :: e in events ==> e.landed < r.chain
    decreases |events|
  {
    hide Blocks;
    if events != [] {
      assert events == [events[0]] + events[1..];
      GoneStays(r, events[1..], events[0], interval, delay, life);
    }
  }

  /** Without a poll the record is in every batch exactly while the heads are below the expiry memory shows, and
      every refresh finds it on the chain exactly when each lands within a life of the last one of those. */
  lemma {:induction false} UnpolledExactly(r: Record, events: seq<Event>, before: Event, interval: nat, delay: nat, life: nat)
    requires before.Refreshed? && before.head < before.landed && Refreshes(events, before, interval, delay)
    requires r.chain == before.landed + Blocks(life) && r.shown <= r.chain && interval + delay <= Blocks(life)
    ensures forall e :: e in events ==> e.Refreshed?
    ensures NeverLeftOut(r, events, life) <==> forall e :: e in events ==> e.head < r.shown
    ensures NeverLost(r, events, life)
       <==> forall e :: e in events ==> e.landed < LastBelow(events, r.shown, before).landed + Blocks(life)
    decreases |events|
  {
    hide Blocks;
    InOrder(events, r.shown, before, interval, delay);
    if events != [] {
      var first, rest := events[0], events[1..];
      assert events == [first] + rest;
      if first.head < r.shown {
        var next := After(r, first, life);
        assert next == Record(first.landed + Blocks(life), r.shown);
        InOrder(rest, r.shown, first, interval, delay);
        UnpolledExactly(next, rest, first, interval, delay, life);
      } else {
        assert first in events;
        GoneStays(r, rest, first, interval, delay, life);
      }
    }
  }

  /* ---------- the listing ---------- */

  /** One refresh of the listing. Memory keeps the expiry it had at the start, and nothing leaves the listing out
      as gone. */
  function ListingAfter(r: Record, e: Event, life: nat): Record
    requires e.Refreshed?
  {
    if ExpiresLater(Some(e.head), r.shown, life) then r else r.(chain := Extended(r.chain, e.landed, life))
  }

  predicate ListingNeverLost(r: Record, events: seq<Event>, life: nat)
    decreases |events|
  {
    events == []
    || (events[0].Refreshed? && events[0].landed < r.chain && ListingNeverLost(ListingAfter(r, events[0], life), events[1..], life))
  }

  /** The listing needs no poll: on time it is never lost, though memory never learns of an extend. */
  lemma {:induction false} ListingKept(r: Record, events: seq<Event>, before: Event, interval: nat, delay: nat, life: nat)
    requires before.Refreshed? && Refreshes(events, before, interval, delay) && interval + delay <= Blocks(life)
    requires r.shown <= r.chain && r.chain > before.head + Blocks(life)
    ensures ListingNeverLost(r, events, life)
    decreases |events|
  {
    hide Blocks;
    if events != [] {
      ListingKept(ListingAfter(r, events[0], life), events[1..], events[0], interval, delay, life);
    }
  }

  /** No weaker condition keeps the listing: a delay more than that and one refresh on time finds it gone. */
  ghost predicate ListingAlwaysKept(interval: nat, delay: nat, life: nat) {
    forall r: Record, events, before: Event ::
      before.Refreshed? && Refreshes(events, before, interval, delay) && r.shown <= r.chain && r.chain > before.head + Blocks(life) ==>
        ListingNeverLost(r, events, life)
  }

  lemma ListingKeptExactlyWhen(interval: nat, delay: nat, life: nat)
    requires interval > 0 && delay > 0
    ensures ListingAlwaysKept(interval, delay, life) <==> interval + delay <= Blocks(life)
  {
    if interval + delay <= Blocks(life) {
      forall r: Record, events, before: Event
        | before.Refreshed? && Refreshes(events, before, interval, delay) && r.shown <= r.chain && r.chain > before.head + Blocks(life)
        ensures ListingNeverLost(r, events, life)
      {
        ListingKept(r, events, before, interval, delay, life);
      }
    } else {
      var r, before, events := Record(Blocks(life) + 1, 0), Refreshed(0, 0), [Refreshed(interval, interval + delay)];
      assert events[1..] == [];
      assert Refreshes(events, before, interval, delay);
      assert events != [] && events[0].landed >= r.chain;
      assert !ListingNeverLost(r, events, life);
    }
  }
}

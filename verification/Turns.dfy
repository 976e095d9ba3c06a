/** The agent's one loop over its timers, and when a poll comes between two refreshes. */
module Turns {
  import opened Basics
  import opened Settings

  datatype Job = Poll | Refresh | Flush

  /** The loop between two jobs: the time, and when each timer is due. */
  datatype Loop = Loop(now: nat, poll: nat, refresh: nat, flush: nat)

  /** A job the loop ran, and how long it took. */
  datatype Ran = Ran(job: Job, took: nat)

  function Due(loop: Loop, job: Job): nat {
    match job case Poll => loop.poll case Refresh => loop.refresh case Flush => loop.flush
  }

  /** When the loop next picks a job: at once when a timer is due, else when the first one is. */
  function Pick(loop: Loop): nat {
    var earliest := Least(loop.poll, Least(loop.refresh, loop.flush));
    if earliest <= loop.now then loop.now else earliest
  }

  /** Any timer that is due may be the one picked. */
  predicate Ready(loop: Loop, job: Job) {
    Due(loop, job) <= Pick(loop)
  }

  /** The loop waits for the job; its timer is due again one interval after it was picked. */
  function After(loop: Loop, ran: Ran, m: Marketplace): Loop {
    var at := Pick(loop);
    Loop(at + ran.took,
         if ran.job == Poll then at + m.discoveryInterval else loop.poll,
         if ran.job == Refresh then at + m.refreshInterval else loop.refresh,
         if ran.job == Flush then at + m.flushInterval else loop.flush)
  }

  /** A run in which no job takes longer than `longest`. */
  predicate Runs(loop: Loop, jobs: seq<Ran>, m: Marketplace, longest: nat)
    decreases |jobs|
  {
    jobs == [] || (Ready(loop, jobs[0].job) && jobs[0].took <= longest && Runs(After(loop, jobs[0], m), jobs[1..], m, longest))
  }

  /** Every refresh is followed by a poll before the next one; `owed` when one poll is still to come. */
  predicate Polled(jobs: seq<Ran>, owed: bool)
    decreases |jobs|
  {
    jobs == []
    || match jobs[0].job
       case Poll => Polled(jobs[1..], false)
       case Refresh => !owed && Polled(jobs[1..], true)
       case Flush => Polled(jobs[1..], owed)
  }

  /** The poll is due no later than an interval from now, as it is once its timer ticked or was started. */
  predicate Ticking(loop: Loop, m: Marketplace) {
    loop.poll <= loop.now + m.discoveryInterval
  }

  /** Since a refresh picked at `at`: its own time, or a flush since, is all that can have kept the loop. */
  predicate Waiting(loop: Loop, at: nat, m: Marketplace, longest: nat) {
    && loop.refresh == at + m.refreshInterval && loop.poll <= at + m.discoveryInterval
    && (loop.now <= at + longest || (loop.now < loop.flush && loop.now < loop.refresh))
  }

  /** No job can keep the loop from the poll for so long that the next refresh is due as well. */
  predicate JobsShort(m: Marketplace, longest: nat) {
    longest < m.flushInterval && m.discoveryInterval + longest < m.refreshInterval && 2 * longest < m.refreshInterval
  }

  lemma {:induction false} ShortJobsPoll(loop: Loop, jobs: seq<Ran>, m: Marketplace, longest: nat, owed: bool, at: nat)
    requires JobsShort(m, longest) && Ticking(loop, m) && Runs(loop, jobs, m, longest)
    requires owed ==> Waiting(loop, at, m, longest)
    ensures Polled(jobs, owed)
    decreases |jobs|
  {
    if jobs != [] {
      var next := After(loop, jobs[0], m);
      match jobs[0].job
      case Poll => ShortJobsPoll(next, jobs[1..], m, longest, false, at);
      case Refresh => ShortJobsPoll(next, jobs[1..], m, longest, true, Pick(loop));
      case Flush => ShortJobsPoll(next, jobs[1..], m, longest, owed, at);
    }
  }

  ghost predicate AlwaysPolled(m: Marketplace, longest: nat) {
    forall loop, jobs :: Ticking(loop, m) && Runs(loop, jobs, m, longest) ==> Polled(jobs, false)
  }

  /** Flushes that each outlast their own interval, until a refresh is due, and then the refresh. */
  function Flushes(loop: Loop, m: Marketplace, longest: nat): seq<Ran>
    requires longest > 0
    decreases SaturatingSub(loop.refresh, loop.now)
  {
    if loop.refresh <= loop.now then [Ran(Refresh, 0)]
    else if loop.flush > loop.now then []
    else [Ran(Flush, longest)] + Flushes(After(loop, Ran(Flush, longest), m), m, longest)
  }

  lemma {:induction false} FlushesCrowdOut(loop: Loop, m: Marketplace, longest: nat)
    requires 0 < m.flushInterval <= longest && loop.flush <= loop.now
    ensures Runs(loop, Flushes(loop, m, longest), m, longest) && !Polled(Flushes(loop, m, longest), true)
    decreases SaturatingSub(loop.refresh, loop.now)
  {
    var jobs := Flushes(loop, m, longest);
    if loop.refresh > loop.now {
      var next := After(loop, Ran(Flush, longest), m);
      FlushesCrowdOut(next, m, longest);
      assert jobs == [Ran(Flush, longest)] + Flushes(next, m, longest);
      assert jobs[1..] == Flushes(next, m, longest);
    } else {
      assert jobs == [Ran(Refresh, 0)] && jobs[1..] == [];
      assert Ready(loop, Refresh);
    }
  }

  lemma Chain(loop: Loop, first: Ran, rest: seq<Ran>, m: Marketplace, longest: nat)
    ensures Runs(loop, [first] + rest, m, longest)
       <==> Ready(loop, first.job) && first.took <= longest && Runs(After(loop, first, m), rest, m, longest)
    ensures Polled([first] + rest, true) == match first.job
                                            case Poll => Polled(rest, false)
                                            case Refresh => false
                                            case Flush => Polled(rest, true)
    ensures first.job == Refresh ==> Polled([first] + rest, false) == Polled(rest, true)
  {
    assert ([first] + rest)[1..] == rest;
  }

  /** Two refreshes with no poll between them, from a loop whose poll was just picked, and a job that takes long. */
  lemma Crowded(m: Marketplace, longest: nat) returns (loop: Loop, jobs: seq<Ran>)
    requires 0 < m.flushInterval && !JobsShort(m, longest)
    ensures Ticking(loop, m) && Runs(loop, jobs, m, longest) && !Polled(jobs, false)
  {
    if m.discoveryInterval >= m.refreshInterval {
      loop, jobs := Loop(0, m.discoveryInterval, 0, m.refreshInterval), [Ran(Refresh, 0), Ran(Refresh, 0)];
      Chain(loop, jobs[0], jobs[1..], m, longest);
      Chain(After(loop, jobs[0], m), jobs[1], [], m, longest);
      assert jobs[1..] == [jobs[1]] + [] && jobs == [jobs[0]] + jobs[1..];
    } else if longest >= m.flushInterval {
      loop := Loop(0, m.discoveryInterval, 0, 0);
      var next := After(loop, Ran(Refresh, 0), m);
      FlushesCrowdOut(next, m, longest);
      jobs := [Ran(Refresh, 0)] + Flushes(next, m, longest);
      Chain(loop, jobs[0], Flushes(next, m, longest), m, longest);
    } else {
      var first := if m.discoveryInterval + longest >= m.refreshInterval then 0 else longest;
      loop := Loop(0, m.discoveryInterval, 0, if first == 0 then m.discoveryInterval else longest);
      jobs := [Ran(Refresh, first), Ran(Flush, longest), Ran(Refresh, 0)];
      var second := After(loop, jobs[0], m);
      var third := After(second, jobs[1], m);
      Chain(third, jobs[2], [], m, longest);
      Chain(second, jobs[1], [jobs[2]], m, longest);
      Chain(loop, jobs[0], [jobs[1], jobs[2]], m, longest);
      assert jobs == [jobs[0]] + [jobs[1], jobs[2]] && [jobs[1], jobs[2]] == [jobs[1]] + [jobs[2]] && [jobs[2]] == [jobs[2]] + [];
    }
  }

  /** Between any two refreshes there is a poll, whatever is picked, if and only if no job can last as long as the
      flush interval, as half the refresh interval, or as the refresh interval is longer than the discovery one. */
  lemma PolledExactlyWhen(m: Marketplace, longest: nat)
    requires 0 < m.flushInterval
    ensures AlwaysPolled(m, longest) <==> JobsShort(m, longest)
  {
    if JobsShort(m, longest) {
      forall loop, jobs | Ticking(loop, m) && Runs(loop, jobs, m, longest) ensures Polled(jobs, false) {
        ShortJobsPoll(loop, jobs, m, longest, false, 0);
      }
    } else {
      var loop, jobs := Crowded(m, longest);
    }
  }

  /** What validating the intervals buys: jobs short enough exist, and the order it checks is needed. */
  lemma ValidLeavesRoom(m: Marketplace)
    ensures Validate(m) == None ==> AlwaysPolled(m, 0)
    ensures 0 < m.flushInterval && AlwaysPolled(m, 0) ==> m.discoveryInterval < m.refreshInterval
  {
    ValidPromises(m);
    hide Validate, AlwaysPolled;
    if 0 < m.flushInterval { PolledExactlyWhen(m, 0); }
  }
}

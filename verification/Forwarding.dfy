/** One request, forwarded with failover: what it counts, and where. Beside it, how often a failing provider
    is probed, and when the boot window has let a good one in. */
module Forwarding {
  import opened Basics
  import opened Pool

  /** What one attempt came to. Silent: the provider answered nobody while it waited. */
  datatype Outcome = Answer | TooLarge | NoAnswer | TimedOut(silent: bool)

  datatype Attempt = Attempt(provider: nat, outcome: Outcome)

  datatype Reply = Answered(provider: nat) | ResponseTooLarge | NoHealthyProvider | RequestTimedOut | NoProviderAnswered

  /** The answers the LB gave itself. */
  class LbOutcomes {
    var noHealthyProvider: nat
    var timedOut: nat
    var noProviderAnswered: nat

    constructor ()
      ensures noHealthyProvider == 0 && timedOut == 0 && noProviderAnswered == 0
    {
      noHealthyProvider, timedOut, noProviderAnswered := 0, 0, 0;
    }
  }

  predicate Failed(outcome: Outcome) {
    outcome.NoAnswer? || outcome.TimedOut?
  }

  /** The failed attempts on one provider. */
  function FailedOn(trace: seq<Attempt>, i: nat): set<nat> {
    set n: nat | n < |trace| && trace[n].provider == i && (trace[n].outcome.NoAnswer? || trace[n].outcome.TimedOut?)
  }

  /** The ones its health hears of: a refusal, or a timeout it was silent through. */
  function HeardOn(trace: seq<Attempt>, i: nat): set<nat> {
    set n: nat | n < |trace| && trace[n].provider == i && (trace[n].outcome.NoAnswer? || trace[n].outcome == TimedOut(true))
  }

  /** What so many failures make of its standing; nothing here is ever a success. */
  function Ticked(standing: Standing, failures: nat, flipAfter: nat): Standing {
    if failures == 0 then standing else Heard(Ticked(standing, failures - 1, flipAfter), Result(false), flipAfter)
  }

  ghost predicate Distinct(pool: seq<Provider>) {
    forall i, j :: 0 <= i < j < |pool| ==> pool[i] != pool[j]
  }

  /** What is counted for provider `i`, before an answer is. */
  ghost predicate Counted(pool: seq<Provider>, i: nat, trace: seq<Attempt>, flipAfter: nat, standing: Standing,
                          failures: nat, served: nat)
    requires i < |pool|
    reads pool[i]
  {
    pool[i].State() == Ticked(standing, |HeardOn(trace, i)|, flipAfter)
    && pool[i].transportFailures == failures + |FailedOn(trace, i)| && pool[i].served == served
  }

  /** A failed attempt, on the provider that failed it. */
  method RecordFailure(provider: Provider, outcome: Outcome, flipAfter: nat)
    requires Failed(outcome)
    modifies provider
    ensures provider.State() == if outcome == TimedOut(false) then old(provider.State())
                                else Heard(old(provider.State()), Result(false), flipAfter)
    ensures provider.transportFailures == old(provider.transportFailures) + 1
    ensures provider.served == old(provider.served)
  {
    if outcome != TimedOut(false) { provider.RecordHealth(false, flipAfter); }
    provider.RecordTransportFailure();
  }

  lemma OneMoreFailed(trace: seq<Attempt>, last: Attempt, i: nat)
    ensures |FailedOn(trace + [last], i)| == |FailedOn(trace, i)| + if last.provider == i && Failed(last.outcome) then 1 else 0
  {
    var before, after := FailedOn(trace, i), FailedOn(trace + [last], i);
    assert after == before + if last.provider == i && Failed(last.outcome) then {|trace|} else {} by {
      assert forall n :: 0 <= n < |trace| ==> (trace + [last])[n] == trace[n];
    }
  }

  lemma OneMoreHeard(trace: seq<Attempt>, last: Attempt, i: nat)
    ensures |HeardOn(trace + [last], i)|
         == |HeardOn(trace, i)| + if last.provider == i && (last.outcome.NoAnswer? || last.outcome == TimedOut(true)) then 1 else 0
  {
    var before, after := HeardOn(trace, i), HeardOn(trace + [last], i);
    assert after == before + if last.provider == i && (last.outcome.NoAnswer? || last.outcome == TimedOut(true)) then {|trace|} else {} by {
      assert forall n :: 0 <= n < |trace| ==> (trace + [last])[n] == trace[n];
    }
  }

  /** The first `n` attempts had no answer to give back. */
  ghost predicate Fruitless(trace: seq<Attempt>, n: nat)
    requires n <= |trace|
  {
    forall m :: 0 <= m < n ==> trace[m].outcome.NoAnswer? || trace[m].outcome.TimedOut?
  }

  /** Why the attempts stopped: an answer, an answer too large, nobody to ask, or the budget or the time spent. Every
      one before the last was fruitless. */
  ghost predicate EndsAs(trace: seq<Attempt>, reply: Option<Reply>, maxRetries: nat, picks: nat -> Option<nat>, spent: nat -> bool) {
    match reply
    case None => Fruitless(trace, |trace|) && (|trace| == 1 + maxRetries || spent(|trace|))
    case Some(Answered(i)) => trace != [] && trace[|trace| - 1] == Attempt(i, Answer) && Fruitless(trace, |trace| - 1)
    case Some(ResponseTooLarge) => trace != [] && trace[|trace| - 1].outcome == TooLarge && Fruitless(trace, |trace| - 1)
    case Some(r) => r == NoHealthyProvider && picks(|trace|) == None && Fruitless(trace, |trace|)
  }

  /** Each attempt was made while there was time. */
  ghost predicate InTime(trace: seq<Attempt>, spent: nat -> bool) {
    forall n: nat :: n < |trace| ==> !spent(n)
  }

  lemma NoneYet(flipAfter: nat)
    ensures forall i: nat :: FailedOn([], i) == {} && HeardOn([], i) == {}
    ensures forall standing :: Ticked(standing, 0, flipAfter) == standing
    ensures forall standing, failures: nat ::
              Ticked(standing, failures + 1, flipAfter) == Heard(Ticked(standing, failures, flipAfter), Result(false), flipAfter)
  {
  }

  /** The attempts of one request, within the retry budget. `picks` is what the rotation gives before each
      attempt, `spent` whether the request's time is up then, `outcomes` what each attempt comes to. */
  method Attempts(pool: seq<Provider>, flipAfter: nat, maxRetries: nat, picks: nat -> Option<nat>, spent: nat -> bool,
                  outcomes: nat -> Outcome)
    returns (trace: seq<Attempt>, reply: Option<Reply>)
    requires Distinct(pool) && forall n :: picks(n).Some? ==> picks(n).value < |pool|
    modifies pool
    ensures |trace| <= 1 + maxRetries
    ensures forall n :: 0 <= n < |trace| ==> picks(n) == Some(trace[n].provider) && trace[n].outcome == outcomes(n)
    ensures InTime(trace, spent) && EndsAs(trace, reply, maxRetries, picks, spent)
    ensures forall i :: 0 <= i < |pool| ==>
              Counted(pool, i, trace, flipAfter, old(pool[i].State()), old(pool[i].transportFailures), old(pool[i].served))
  {
    hide Heard, HeardOn, FailedOn, Ticked;
    trace := [];
    NoneYet(flipAfter);
    while |trace| < 1 + maxRetries
      invariant |trace| <= 1 + maxRetries
      invariant forall n :: 0 <= n < |trace| ==>
                  picks(n) == Some(trace[n].provider) && trace[n].outcome == outcomes(n) && Failed(trace[n].outcome)
      invariant InTime(trace, spent)
      invariant forall i :: 0 <= i < |pool| ==>
                  Counted(pool, i, trace, flipAfter, old(pool[i].State()), old(pool[i].transportFailures), old(pool[i].served))
      decreases 1 + maxRetries - |trace|
    {
      var n := |trace|;
      if picks(n).None? { return trace, Some(NoHealthyProvider); }
      if spent(n) { return trace, None; }
      var at := picks(n).value;
      var attempt := Attempt(at, outcomes(n));
      forall i | 0 <= i < |pool|
        ensures |FailedOn(trace + [attempt], i)| == |FailedOn(trace, i)| + if at == i && Failed(attempt.outcome) then 1 else 0
        ensures |HeardOn(trace + [attempt], i)|
             == |HeardOn(trace, i)| + if at == i && (attempt.outcome.NoAnswer? || attempt.outcome == TimedOut(true)) then 1 else 0
      {
        OneMoreFailed(trace, attempt, i);
        OneMoreHeard(trace, attempt, i);
      }
      trace := trace + [attempt];
      match attempt.outcome
      case Answer => return trace, Some(Answered(at));
      case TooLarge => return trace, Some(ResponseTooLarge);
      case NoAnswer => RecordFailure(pool[at], attempt.outcome, flipAfter);
      case TimedOut(_) => RecordFailure(pool[at], attempt.outcome, flipAfter);
    }
    return trace, None;
  }

  /** One request from start to end: its attempts, and the one thing its end is counted as. An answer counts for
      the provider that gave it and nothing else; an answer too large counts nowhere. */
  method Forward(pool: seq<Provider>, lb: LbOutcomes, flipAfter: nat, maxRetries: nat, picks: nat -> Option<nat>,
                 spent: nat -> bool, outcomes: nat -> Outcome, overdue: bool)
    returns (trace: seq<Attempt>, reply: Reply)
    requires Distinct(pool) && forall n :: picks(n).Some? ==> picks(n).value < |pool|
    modifies pool, lb
    ensures |trace| <= 1 + maxRetries
    ensures forall n :: 0 <= n < |trace| ==> picks(n) == Some(trace[n].provider) && trace[n].outcome == outcomes(n)
    ensures InTime(trace, spent)
    ensures if reply.RequestTimedOut? || reply.NoProviderAnswered?
            then EndsAs(trace, None, maxRetries, picks, spent) && reply == (if overdue then RequestTimedOut else NoProviderAnswered)
            else EndsAs(trace, Some(reply), maxRetries, picks, spent)
    ensures forall i :: 0 <= i < |pool| ==>
              Counted(pool, i, trace, flipAfter, old(pool[i].State()), old(pool[i].transportFailures),
                      old(pool[i].served) + if reply == Answered(i) then 1 else 0)
    ensures lb.noHealthyProvider == old(lb.noHealthyProvider) + if reply == NoHealthyProvider then 1 else 0
    ensures lb.timedOut == old(lb.timedOut) + if reply == RequestTimedOut then 1 else 0
    ensures lb.noProviderAnswered == old(lb.noProviderAnswered) + if reply == NoProviderAnswered then 1 else 0
  {
    hide EndsAs, Ticked, HeardOn, FailedOn, Distinct;
    var ended: Option<Reply>;
    trace, ended := Attempts(pool, flipAfter, maxRetries, picks, spent, outcomes);
    EndedWell(trace, ended, maxRetries, picks, spent, |pool|);
    if ended.None? {
      if overdue {
        reply := RequestTimedOut;
        lb.timedOut := lb.timedOut + 1;
      } else {
        reply := NoProviderAnswered;
        lb.noProviderAnswered := lb.noProviderAnswered + 1;
      }
    } else {
      reply := ended.value;
      if reply.Answered? {
        OnlyThis(pool, reply.provider);
        pool[reply.provider].RecordServed();
      } else if reply.NoHealthyProvider? {
        lb.noHealthyProvider := lb.noHealthyProvider + 1;
      }
    }
  }

  lemma OnlyThis(pool: seq<Provider>, at: nat)
    requires Distinct(pool) && at < |pool|
    ensures forall i :: 0 <= i < |pool| && i != at ==> pool[i] != pool[at]
  {
  }

  lemma EndedWell(trace: seq<Attempt>, ended: Option<Reply>, maxRetries: nat, picks: nat -> Option<nat>, spent: nat -> bool, n: nat)
    requires EndsAs(trace, ended, maxRetries, picks, spent)
    requires forall m :: 0 <= m < |trace| ==> picks(m) == Some(trace[m].provider)
    requires forall m :: picks(m).Some? ==> picks(m).value < n
    ensures ended.Some? ==> !ended.value.RequestTimedOut? && !ended.value.NoProviderAnswered?
    ensures ended.Some? && ended.value.Answered? ==> ended.value.provider < n
  {
  }

  /** A request leaves every health gate as it was or lower: traffic lets nobody in. */
  lemma {:induction false} TrafficAdmitsNobody(standing: Standing, failures: nat, flipAfter: nat)
    requires flipAfter > 0
    ensures GateOpen(Ticked(standing, failures, flipAfter).eligibility, Health) ==> GateOpen(standing.eligibility, Health)
    ensures Ticked(standing, failures, flipAfter).streak <= (if standing.streak > 0 then standing.streak else 0)
    ensures GateOpen(Ticked(standing, failures, flipAfter).eligibility, Integrity) == GateOpen(standing.eligibility, Integrity)
  {
    if failures > 0 { TrafficAdmitsNobody(standing, failures - 1, flipAfter); }
  }

  /* ---------- how often a failing provider is probed ---------- */

  const U32_MAX: nat := 0xffff_ffff

  function Power2(n: nat): nat {
    if n == 0 then 1 else 2 * Power2(n - 1)
  }

  /** `1u32` shifted left, or the largest u32 when the shift is too wide. */
  function Shifted(excess: nat): nat {
    if excess < 32 then Power2(excess) else U32_MAX
  }

  /** The wait before a failing provider's next probe. */
  function ProbeDelay(interval: nat, flipAfter: nat, cap: nat, failures: nat): nat {
    Least(interval * Shifted(SaturatingSub(failures, flipAfter)), cap)
  }

  lemma {:induction false} PowerGrows(n: nat, m: nat)
    requires n <= m
    ensures Power2(n) <= Power2(m)
  {
    if n < m { PowerGrows(n, m - 1); }
  }

  lemma ShiftedGrows(n: nat, m: nat)
    requires n <= m
    ensures 1 <= Shifted(n) <= Shifted(m)
  {
    PowerGrows(0, Least(n, 31));
    PowerGrows(Least(n, 31), Least(m, 31));
    PowerGrows(Least(m, 31), 31);
    assert Power2(8) == 256;
    assert Power2(16) == 256 * Power2(8);
    assert Power2(24) == 256 * Power2(16);
    assert Power2(31) == 128 * Power2(24);
  }

  /** The way to quarantine is never slowed; past it every failure waits at least as long as the last one, twice
      as long until the cap or the width of the counter is reached, and never longer than the cap. */
  lemma DelayBacksOff(interval: nat, flipAfter: nat, cap: nat, failures: nat)
    ensures failures <= flipAfter ==> ProbeDelay(interval, flipAfter, cap, failures) == Least(interval, cap)
    ensures ProbeDelay(interval, flipAfter, cap, failures) <= ProbeDelay(interval, flipAfter, cap, failures + 1) <= cap
    ensures flipAfter <= failures < flipAfter + 31 ==>
              ProbeDelay(interval, flipAfter, cap, failures + 1) == Least(2 * ProbeDelay(interval, flipAfter, cap, failures), cap)
    ensures failures >= flipAfter + 32 ==> ProbeDelay(interval, flipAfter, cap, failures) == Least(interval * U32_MAX, cap)
  {
    var before, after := SaturatingSub(failures, flipAfter), SaturatingSub(failures + 1, flipAfter);
    ShiftedGrows(before, after);
    Larger(interval, Shifted(before), Shifted(after));
    if flipAfter <= failures < flipAfter + 31 {
      assert Shifted(after) == 2 * Shifted(before);
      Doubled(interval, Shifted(before));
    }
    assert Shifted(0) == 1;
  }

  lemma Larger(x: nat, y: nat, z: nat)
    requires y <= z
    ensures x * y <= x * z
  {
  }

  lemma Doubled(x: nat, y: nat)
    ensures x * (2 * y) == 2 * (x * y)
  {
  }

  /* ---------- the boot window ---------- */

  function Repeated(signal: Signal, n: nat): seq<Signal> {
    seq(n, _ => signal)
  }

  /** A provider that answered well in each of the first `flipAfter` rounds is let in when the boot window closes,
      and not a round before. */
  lemma {:induction false} BootWindowAdmits(flipAfter: nat, rounds: nat)
    requires 0 < flipAfter < I64_MAX && rounds <= flipAfter
    ensures Eligible(After(Repeated(Result(true), rounds), flipAfter)) <==> rounds == flipAfter
    ensures After(Repeated(Result(true), rounds), flipAfter).streak == rounds
    ensures GateOpen(After(Repeated(Result(true), rounds), flipAfter).eligibility, Integrity)
  {
    if rounds > 0 {
      BootWindowAdmits(flipAfter, rounds - 1);
      assert Repeated(Result(true), rounds)[..rounds - 1] == Repeated(Result(true), rounds - 1);
      HistoryTells(Repeated(Result(true), rounds), flipAfter);
      HistoryTells(Repeated(Result(true), rounds - 1), flipAfter);
    }
  }
}

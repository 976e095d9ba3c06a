/** The provider pool: an entry's counters and gates, and the round robin over the eligible ones. */
module Pool {
  import opened Basics

  datatype Verdict = Match | Stale | Divergence | Unknown

  datatype Gate = Health | Integrity

  const ALL_GATES: bv8 := 3

  const I64_MAX: int := 0x7fff_ffff_ffff_ffff
  const I64_MIN: int := -0x8000_0000_0000_0000

  function Bit(gate: Gate): bv8 {
    match gate case Health => 1 case Integrity => 2
  }

  /** The byte after one gate is set or cleared, the other gate untouched. */
  function WithGate(eligibility: bv8, gate: Gate, value: bool): bv8 {
    if value then eligibility | Bit(gate) else eligibility & !Bit(gate)
  }

  predicate GateOpen(eligibility: bv8, gate: Gate) {
    eligibility & Bit(gate) != 0
  }

  /** What the streak becomes with one more result; i64, saturating. */
  function Streak(streak: int, success: bool): int {
    if success then (if streak < 0 then 1 else if streak >= I64_MAX then I64_MAX else streak + 1)
    else (if streak > 0 then -1 else if streak <= I64_MIN then I64_MIN else streak - 1)
  }

  /** The one thing that flips the health gate, if this streak does. */
  function Decision(streak: int, flipAfter: nat): Option<bool> {
    if streak >= flipAfter then Some(true)
    else if streak + flipAfter <= 0 then Some(false)
    else None
  }

  /** The mutable state behind an entry's eligibility. `flips` is what was logged. */
  datatype Standing = Standing(eligibility: bv8, streak: int, flips: seq<bool>)

  const BORN := Standing(2, 0, [])

  predicate Eligible(standing: Standing) {
    standing.eligibility == ALL_GATES
  }

  /** A gate set, and the flip logged when what `Eligible` answers changed. */
  function Gated(standing: Standing, gate: Gate, value: bool): Standing {
    var after := WithGate(standing.eligibility, gate, value);
    Standing(after, standing.streak,
             if (standing.eligibility == ALL_GATES) != (after == ALL_GATES) then standing.flips + [after == ALL_GATES]
             else standing.flips)
  }

  datatype Signal =
    | Result(success: bool)          // a probe, or a traffic failure
    | Quarantined
    | Judged(verdict: Verdict)

  function Decided(standing: Standing, decision: Option<bool>): Standing {
    if decision.Some? then Gated(standing, Health, decision.value) else standing
  }

  function Heard(standing: Standing, signal: Signal, flipAfter: nat): Standing {
    match signal
    case Result(success) =>
      var streak := Streak(standing.streak, success);
      Decided(standing.(streak := streak), Decision(streak, flipAfter))
    case Quarantined => Gated(standing.(streak := 0), Health, false)
    case Judged(Divergence) => Gated(standing, Integrity, false)
    case Judged(Match) => Gated(standing, Integrity, true)
    case Judged(_) => standing
  }

  class Provider {
    const id: Address
    var eligibility: bv8
    var verdict: Option<Verdict>
    var verdictHeight: nat
    var healthStreak: int
    var served: nat
    var servedTotal: nat
    var transportFailures: nat
    ghost var flips: seq<bool>

    constructor (id: Address)
      ensures this.id == id && served == 0 && servedTotal == 0 && transportFailures == 0
      ensures State() == BORN && verdict == None
    {
      this.id := id;
      eligibility := Bit(Integrity);
      verdict, verdictHeight := None, 0;
      healthStreak := 0;
      served, servedTotal, transportFailures := 0, 0, 0;
      flips := [];
    }

    ghost function State(): Standing
      reads this
    {
      Standing(eligibility, healthStreak, flips)
    }

    /** One completed forward: the billing basis, and the stats basis beside it. */
    method RecordServed()
      modifies this`served, this`servedTotal
      ensures served == old(served) + 1 && servedTotal == old(servedTotal) + 1
    {
      served := served + 1;
      servedTotal := servedTotal + 1;
    }

    /** A period just closed: its count is no longer the entry's to carry. */
    method SubtractServed(count: nat)
      modifies this`served
      ensures served == SaturatingSub(old(served), count)
    {
      served := if count <= served then served - count else 0;
    }

    method SeedServed(count: nat)
      modifies this`served
      ensures served == old(served) + count
    {
      served := served + count;
    }

    method RecordTransportFailure()
      modifies this`transportFailures
      ensures transportFailures == old(transportFailures) + 1
    {
      transportFailures := transportFailures + 1;
    }

    method IsEligible() returns (yes: bool)
      ensures yes == Eligible(State())
    {
      yes := eligibility == ALL_GATES;
    }

    /** Sets one gate's bit in one atomic update, and answers what eligible said before and after. */
    method SetEligibility(gate: Gate, value: bool) returns (was: bool, now: bool)
      modifies this`eligibility
      ensures eligibility == WithGate(old(eligibility), gate, value)
      ensures GateOpen(eligibility, gate) == value
      ensures forall other :: other != gate ==> GateOpen(eligibility, other) == GateOpen(old(eligibility), other)
      ensures was == (old(eligibility) == ALL_GATES) && now == (eligibility == ALL_GATES)
    {
      var before := eligibility;
      if value {
        eligibility := before | Bit(gate);
      } else {
        eligibility := before & !Bit(gate);
      }
      was, now := before == ALL_GATES, eligibility == ALL_GATES;
    }

    method SetEligibilityAndLog(gate: Gate, value: bool)
      modifies this`eligibility, this`flips
      ensures State() == Gated(old(State()), gate, value)
      ensures flips == if (old(eligibility) == ALL_GATES) == (eligibility == ALL_GATES) then old(flips)
                       else old(flips) + [eligibility == ALL_GATES]
    {
      var was, now := SetEligibility(gate, value);
      if was != now {
        flips := flips + [now];
      }
    }

    method RecordHealth(success: bool, flipAfter: nat)
      modifies this`eligibility, this`healthStreak, this`flips
      ensures State() == Heard(old(State()), Result(success), flipAfter)
    {
      healthStreak := Streak(healthStreak, success);
      var streak := healthStreak;
      if streak >= flipAfter {
        SetEligibilityAndLog(Health, true);
      } else if streak + flipAfter <= 0 {
        SetEligibilityAndLog(Health, false);
      }
    }

    method Quarantine()
      modifies this`eligibility, this`healthStreak, this`flips
      ensures forall flipAfter: nat :: State() == Heard(old(State()), Quarantined, flipAfter)
    {
      healthStreak := 0;
      SetEligibilityAndLog(Health, false);
    }

    method RecordIntegrity(newVerdict: Verdict, height: nat)
      modifies this`eligibility, this`verdict, this`verdictHeight, this`flips
      ensures forall flipAfter: nat :: State() == Heard(old(State()), Judged(newVerdict), flipAfter)
      ensures verdict == Some(newVerdict) && verdictHeight == height
    {
      verdict, verdictHeight := Some(newVerdict), height;
      match newVerdict
      case Divergence => SetEligibilityAndLog(Integrity, false);
      case Match => SetEligibilityAndLog(Integrity, true);
      case Stale =>
      case Unknown =>
    }
  }

  /* ---------- what a history of signals means ---------- */

  /** The standing after a history, from birth. */
  function After(history: seq<Signal>, flipAfter: nat): Standing {
    if history == [] then BORN
    else Heard(After(history[..|history| - 1], flipAfter), history[|history| - 1], flipAfter)
  }

  /** The last `n` results agree: all of this success, no quarantine and no other result among them;
      verdicts do not count. */
  predicate Agree(history: seq<Signal>, success: bool, n: nat) {
    n == 0
    || (history != []
        && var last := history[|history| - 1];
           match last
           case Result(result) => result == success && Agree(history[..|history| - 1], success, n - 1)
           case Quarantined => false
           case Judged(_) => Agree(history[..|history| - 1], success, n))
  }

  /** No history is long enough to reach the end of an i64. */
  predicate Countable(history: seq<Signal>) {
    |history| < I64_MAX
  }

  lemma {:induction false} StreakBounded(history: seq<Signal>, flipAfter: nat)
    ensures -|history| <= After(history, flipAfter).streak <= |history|
    ensures I64_MIN <= After(history, flipAfter).streak <= I64_MAX
  {
    if history != [] { StreakBounded(history[..|history| - 1], flipAfter); }
  }

  /** The streak is the signed length of the trailing run of equal results since the last quarantine:
      at least `n` successes agree exactly when it is `n` or more, and likewise for failures. */
  lemma {:induction false} StreakIsRun(history: seq<Signal>, flipAfter: nat, n: nat)
    requires Countable(history) && n > 0
    ensures After(history, flipAfter).streak >= n <==> Agree(history, true, n)
    ensures After(history, flipAfter).streak + n <= 0 <==> Agree(history, false, n)
    decreases |history|
  {
    if history != [] {
      var before := history[..|history| - 1];
      StreakBounded(before, flipAfter);
      StreakIsRun(before, flipAfter, n);
      if n > 1 { StreakIsRun(before, flipAfter, n - 1); }
    }
  }

  /** Setting one gate leaves the other as it was. */
  lemma GatesApart(eligibility: bv8, gate: Gate, value: bool, other: Gate)
    ensures GateOpen(WithGate(eligibility, gate, value), other)
         == if other == gate then value else GateOpen(eligibility, other)
  {
  }

  lemma BothGates(eligibility: bv8)
    requires eligibility <= ALL_GATES
    ensures eligibility == ALL_GATES <==> GateOpen(eligibility, Health) && GateOpen(eligibility, Integrity)
  {
  }

  /** The provider was let in at some point: `flipAfter` successes agreed, and since then neither
      `flipAfter` failures did nor did anything quarantine it. */
  ghost predicate Admitted(history: seq<Signal>, flipAfter: nat) {
    exists i :: 0 < i <= |history| && Agree(history[..i], true, flipAfter) && Unbroken(history, i, flipAfter)
  }

  ghost predicate Unbroken(history: seq<Signal>, from: nat, flipAfter: nat) {
    forall j :: from < j <= |history| ==> !Agree(history[..j], false, flipAfter) && history[j - 1] != Quarantined
  }

  lemma PrefixOfPrefix(history: seq<Signal>)
    requires history != []
    ensures forall j :: 0 <= j <= |history| - 1 ==> history[..|history| - 1][..j] == history[..j]
    ensures history[..|history|] == history
  {
  }

  lemma AdmittedOn(history: seq<Signal>, flipAfter: nat)
    requires history != [] && !Agree(history, false, flipAfter) && history[|history| - 1] != Quarantined
    requires Admitted(history[..|history| - 1], flipAfter)
    ensures Admitted(history, flipAfter)
  {
    var before := history[..|history| - 1];
    var i :| 0 < i <= |before| && Agree(before[..i], true, flipAfter) && Unbroken(before, i, flipAfter);
    assert before[..i] == history[..i];
    forall j | i < j <= |history| ensures !Agree(history[..j], false, flipAfter) && history[j - 1] != Quarantined {
      if j < |history| { assert before[..j] == history[..j]; } else { assert history[..j] == history; }
    }
    assert Unbroken(history, i, flipAfter);
  }

  lemma AdmittedBack(history: seq<Signal>, flipAfter: nat)
    requires history != [] && Admitted(history, flipAfter)
    requires Agree(history, true, flipAfter) ==> Agree(history[..|history| - 1], true, flipAfter) && |history| > 1
    ensures Admitted(history[..|history| - 1], flipAfter)
  {
    var before := history[..|history| - 1];
    var i :| 0 < i <= |history| && Agree(history[..i], true, flipAfter) && Unbroken(history, i, flipAfter);
    var at := if i == |history| then i - 1 else i;
    assert history[..|history|] == history && before[..|before|] == before;
    assert before[..at] == history[..at];
    forall j | at < j <= |before| ensures !Agree(before[..j], false, flipAfter) && before[j - 1] != Quarantined {
      assert before[..j] == history[..j];
    }
    assert Unbroken(before, at, flipAfter);
  }

  /** One more signal that neither admits nor bars leaves admission as it was. */
  lemma AdmittedStays(history: seq<Signal>, flipAfter: nat)
    requires history != [] && !Agree(history, false, flipAfter) && history[|history| - 1] != Quarantined
    requires Agree(history, true, flipAfter) ==> Agree(history[..|history| - 1], true, flipAfter) && |history| > 1
    ensures Admitted(history, flipAfter) <==> Admitted(history[..|history| - 1], flipAfter)
  {
    if Admitted(history[..|history| - 1], flipAfter) { AdmittedOn(history, flipAfter); }
    if Admitted(history, flipAfter) { AdmittedBack(history, flipAfter); }
  }

  /** The health gate is open exactly when the provider was let in and nothing barred it since. */
  lemma {:induction false} HealthGate(history: seq<Signal>, flipAfter: nat)
    requires Countable(history) && flipAfter > 0
    ensures GateOpen(After(history, flipAfter).eligibility, Health) <==> Admitted(history, flipAfter)
  {
    if history != [] {
      var before := history[..|history| - 1];
      HealthGate(before, flipAfter);
      StreakIsRun(history, flipAfter, flipAfter);
      StreakIsRun(before, flipAfter, flipAfter);
      PrefixOfPrefix(history);
      match history[|history| - 1]
      case Result(success) =>
        if Agree(history, true, flipAfter) {
          assert Agree(history[..|history|], true, flipAfter) && Unbroken(history, |history|, flipAfter);
        } else if Agree(history, false, flipAfter) {
          assert forall i :: 0 < i < |history| ==> !Unbroken(history, i, flipAfter);
        } else {
          AdmittedStays(history, flipAfter);
        }
      case Quarantined =>
        assert forall i :: 0 < i < |history| ==> !Unbroken(history, i, flipAfter);
      case Judged(verdict) =>
        JudgedHealth(history, flipAfter);
    }
  }

  /** A verdict moves nothing on the health side. */
  lemma JudgedHealth(history: seq<Signal>, flipAfter: nat)
    requires Countable(history) && flipAfter > 0 && history != [] && history[|history| - 1].Judged?
    ensures GateOpen(After(history, flipAfter).eligibility, Health)
       <==> GateOpen(After(history[..|history| - 1], flipAfter).eligibility, Health)
    ensures Admitted(history, flipAfter) <==> Admitted(history[..|history| - 1], flipAfter)
  {
    var before := history[..|history| - 1];
    PrefixOfPrefix(history);
    if Agree(history, false, flipAfter) {
      assert Agree(before, false, flipAfter) && |before| > 0;
      assert before[..|before|] == before;
      StreakIsRun(before, flipAfter, flipAfter);
      assert !Agree(before[..|before|], true, flipAfter);
      assert forall i :: 0 < i < |before| ==> !Unbroken(before, i, flipAfter);
      StreakIsRun(history, flipAfter, flipAfter);
      assert !Agree(history[..|history|], true, flipAfter);
      assert forall i :: 0 < i < |history| ==> !Unbroken(history, i, flipAfter);
    } else {
      AdmittedStays(history, flipAfter);
    }
  }

  /** Results that alternate never flip the health gate: a result after its opposite leaves it. */
  lemma AlternatingHolds(history: seq<Signal>, flipAfter: nat)
    requires flipAfter >= 2 && |history| >= 2
    requires history[|history| - 1].Result? && history[|history| - 2] == Result(!history[|history| - 1].success)
    ensures After(history, flipAfter).eligibility == After(history[..|history| - 1], flipAfter).eligibility
  {
    var before := history[..|history| - 1];
    assert before[|before| - 1] == history[|history| - 2];
  }

  /** The last verdict that says anything: a match or a divergence. */
  function LastVerdict(history: seq<Signal>): Option<Verdict> {
    if history == [] then None
    else if history[|history| - 1] == Judged(Match) || history[|history| - 1] == Judged(Divergence)
      then Some(history[|history| - 1].verdict)
    else LastVerdict(history[..|history| - 1])
  }

  /** The integrity gate is shut exactly when the last match or divergence was a divergence, whatever the
      probes said. */
  lemma {:induction false} IntegrityGate(history: seq<Signal>, flipAfter: nat)
    ensures !GateOpen(After(history, flipAfter).eligibility, Integrity) <==> LastVerdict(history) == Some(Divergence)
  {
    if history != [] {
      IntegrityGate(history[..|history| - 1], flipAfter);
    }
  }

  /* ---------- the flip log ---------- */

  /** What was logged alternates, starts with an admission, and ends on what eligible answers now. */
  ghost predicate LogTells(standing: Standing) {
    && (standing.flips == [] ==> !Eligible(standing))
    && (standing.flips != [] ==> standing.flips[0] && standing.flips[|standing.flips| - 1] == Eligible(standing))
    && (forall i :: 0 <= i < |standing.flips| - 1 ==> standing.flips[i] != standing.flips[i + 1])
  }

  lemma GatedTells(standing: Standing, gate: Gate, value: bool)
    requires LogTells(standing)
    ensures LogTells(Gated(standing, gate, value))
  {
  }

  datatype Update = Update(gate: Gate, value: bool)

  /** Gate updates, from whichever callers, in the order they took effect. */
  function Raced(standing: Standing, updates: seq<Update>): Standing {
    if updates == [] then standing
    else Gated(Raced(standing, updates[..|updates| - 1]), updates[|updates| - 1].gate, updates[|updates| - 1].value)
  }

  /** In the order the updates take effect, flips alternate and the last one is the truth. */
  lemma {:induction false} FlipsAlternate(updates: seq<Update>)
    ensures LogTells(Raced(BORN, updates)) && Raced(BORN, updates).eligibility <= ALL_GATES
  {
    if updates != [] {
      FlipsAlternate(updates[..|updates| - 1]);
      GatedTells(Raced(BORN, updates[..|updates| - 1]), updates[|updates| - 1].gate, updates[|updates| - 1].value);
    }
  }

  /** And so it is after any history of signals. */
  lemma {:induction false} HistoryTells(history: seq<Signal>, flipAfter: nat)
    ensures LogTells(After(history, flipAfter)) && After(history, flipAfter).eligibility <= ALL_GATES
  {
    if history != [] {
      HistoryTells(history[..|history| - 1], flipAfter);
    }
  }
}

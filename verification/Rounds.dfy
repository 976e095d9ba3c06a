/** A whole integrity round: the first looks, the second looks at what diverged, and every verdict onto its
    provider's entry. */
module Rounds {
  import opened Basics
  import opened Pool
  import opened Checks = Integrity

  /** What a round finds of a provider from its two answers; the second is asked for only after a divergence, and
      judged against the same expected answers. */
  function RoundLook(first: Answers, second: Answers, expected: Expected): Look {
    if Judge(first, expected).verdict == Divergence then Judge(second, expected) else Judge(first, expected)
  }

  function RoundVerdict(first: Answers, second: Answers, expected: Expected): Verdict {
    RoundLook(first, second, expected).verdict
  }

  /** What each verdict of a round means. A divergence is a provider wrong at both looks, and carries what was wrong at
      the second; otherwise the answer that was not wrong decides, and is a match, lags, or cannot be compared. */
  lemma RoundTells(first: Answers, second: Answers, expected: Expected)
    ensures var look := RoundLook(first, second, expected);
            && (look.verdict == Divergence <==> !Blameless(first, expected) && !Blameless(second, expected))
            && (look.evidence.Some? <==> look.verdict == Divergence)
            && (look.evidence.Some? ==> Shows(look.evidence.value, second, expected))
            && (look.verdict == Match <==> Agrees(if Blameless(first, expected) then first else second, expected))
            && (look.verdict == Stale <==> Lags(if Blameless(first, expected) then first else second, expected))
  {
    hide Judge, Blameless, Shows, Agrees, Lags;
    DivergesOnlyIfWrong(first, expected);
    DivergesOnlyIfWrong(second, expected);
    var deciding := if Blameless(first, expected) then first else second;
    StaleMeans(deciding, expected);
    MatchMeans(deciding, expected);
    if Judge(second, expected).evidence.Some? { EvidenceShows(second, expected); }
  }

  lemma WrongTwice(first: Answers, second: Answers, expected: Expected)
    ensures RoundVerdict(first, second, expected) == Divergence <==> !Blameless(first, expected) && !Blameless(second, expected)
  {
    RoundTells(first, second, expected);
  }

  ghost predicate Apart(providers: seq<Provider>) {
    forall i, j :: 0 <= i < j < |providers| ==> providers[i] != providers[j] && providers[i].id != providers[j].id
  }

  function FirstFindings(providers: seq<Provider>, answers: seq<Answers>, expected: Expected): (findings: seq<Finding>)
    requires |answers| == |providers|
    ensures |findings| == |providers|
    ensures forall i :: 0 <= i < |findings| ==> findings[i] == Finding(providers[i].id, Judge(answers[i], expected))
  {
    seq(|providers|, i requires 0 <= i < |providers| => Finding(providers[i].id, Judge(answers[i], expected)))
  }

  /** The second answers, in the order they came in: one from each provider that diverged. */
  datatype Asked = Asked(provider: Address, answer: Answers)

  function SecondFindings(again: seq<Asked>, expected: Expected): (findings: seq<Finding>)
    ensures |findings| == |again|
    ensures forall i :: 0 <= i < |again| ==> findings[i] == Finding(again[i].provider, Judge(again[i].answer, expected))
  {
    seq(|again|, i requires 0 <= i < |again| => Finding(again[i].provider, Judge(again[i].answer, expected)))
  }

  /** The verdict of each provider, by its own two answers. */
  ghost predicate VerdictOf(provider: Address, first: Answers, again: seq<Asked>, expected: Expected, verdict: Verdict) {
    if Judge(first, expected).verdict != Divergence then verdict == Judge(first, expected).verdict
    else exists j :: 0 <= j < |again| && again[j].provider == provider && verdict == RoundVerdict(first, again[j].answer, expected)
  }

  lemma {:induction false} FinalOf(finding: Finding, seconds: seq<Finding>, j: nat)
    requires j < |seconds| && seconds[j].provider == finding.provider && OneEach(seconds)
    ensures Final(finding, seconds) == seconds[j]
  {
    if j < |seconds| - 1 { FinalOf(finding, seconds[..|seconds| - 1], j); }
  }

  lemma FinalVerdict(findings: seq<Finding>, i: nat, provider: Address, first: Answers, again: seq<Asked>, expected: Expected)
    requires i < |findings| && findings[i] == Finding(provider, Judge(first, expected)) && OneEach(findings)
    requires SecondLooks(findings, SecondFindings(again, expected))
    ensures VerdictOf(provider, first, again, expected, Final(findings[i], SecondFindings(again, expected)).look.verdict)
  {
    var seconds := SecondFindings(again, expected);
    FinalsAre(findings, seconds);
    FinalIs(findings[i], seconds);
    hide Judge;
    if findings[i].look.verdict == Divergence {
      assert provider in Doubtful(findings);
      var j :| 0 <= j < |seconds| && seconds[j].provider == provider;
      FinalOf(findings[i], seconds, j);
      assert again[j].provider == provider;
    }
  }

  /** The provider was right at its first look, or at its second. */
  ghost predicate RightOnce(provider: Address, first: Answers, again: seq<Asked>, expected: Expected) {
    Blameless(first, expected) || forall j :: 0 <= j < |again| && again[j].provider == provider ==> Blameless(again[j].answer, expected)
  }

  lemma RightOnceKeepsGate(provider: Address, first: Answers, again: seq<Asked>, expected: Expected, verdict: Verdict,
                           standing: Standing, flipAfter: nat)
    requires VerdictOf(provider, first, again, expected, verdict) && RightOnce(provider, first, again, expected)
    ensures verdict != Divergence
    ensures GateOpen(standing.eligibility, Gate.Integrity) ==>
              GateOpen(Heard(standing, Judged(verdict), flipAfter).eligibility, Gate.Integrity)
  {
    DivergesOnlyIfWrong(first, expected);
    if Judge(first, expected).verdict == Divergence {
      var j :| 0 <= j < |again| && again[j].provider == provider && verdict == RoundVerdict(first, again[j].answer, expected);
      WrongTwice(first, again[j].answer, expected);
    }
    hide Judge, Blameless;
  }

  /** Every verdict onto its provider's entry, with the height it was given at. */
  method Record(providers: seq<Provider>, findings: array<Finding>, height: nat)
    requires Apart(providers) && findings.Length == |providers|
    modifies providers
    ensures forall i, flipAfter: nat :: 0 <= i < |providers| ==>
              providers[i].State() == Heard(old(providers[i].State()), Judged(findings[i].look.verdict), flipAfter)
    ensures forall i :: 0 <= i < |providers| ==>
              providers[i].verdict == Some(findings[i].look.verdict) && providers[i].verdictHeight == height
  {
    hide Heard;
    for n := 0 to |providers|
      invariant forall i, flipAfter: nat :: 0 <= i < n ==>
                  providers[i].State() == Heard(old(providers[i].State()), Judged(findings[i].look.verdict), flipAfter)
      invariant forall i :: 0 <= i < n ==>
                  providers[i].verdict == Some(findings[i].look.verdict) && providers[i].verdictHeight == height
      invariant forall i :: n <= i < |providers| ==> providers[i].State() == old(providers[i].State())
    {
      providers[n].RecordIntegrity(findings[n].look.verdict, height);
    }
  }

  /** A round over the providers asked. Each is judged by its own two answers alone and hears that verdict and
      nothing else: the integrity gate shuts only on one that was wrong at both looks, and the health gate and the
      streak stay. */
  method Round(providers: seq<Provider>, expected: Expected, answers: seq<Answers>, again: seq<Asked>)
    requires Apart(providers) && |answers| == |providers|
    requires SecondLooks(FirstFindings(providers, answers, expected), SecondFindings(again, expected))
    modifies providers
    ensures forall i :: 0 <= i < |providers| ==>
              && providers[i].verdict.Some? && providers[i].verdictHeight == expected.finalized.number
              && VerdictOf(providers[i].id, answers[i], again, expected, providers[i].verdict.value)
    ensures forall i, flipAfter: nat :: 0 <= i < |providers| ==>
              providers[i].State() == Heard(old(providers[i].State()), Judged(providers[i].verdict.value), flipAfter)
    ensures forall i :: 0 <= i < |providers| && RightOnce(providers[i].id, answers[i], again, expected) ==>
              && providers[i].verdict != Some(Divergence)
              && (GateOpen(old(providers[i].eligibility), Gate.Integrity) ==> GateOpen(providers[i].eligibility, Gate.Integrity))
  {
    var findings := new Finding[|providers|](i requires 0 <= i < |providers| => Finding(providers[i].id, Judge(answers[i], expected)));
    ghost var first := FirstFindings(providers, answers, expected);
    assert findings[..] == first;
    Confirm(findings, SecondFindings(again, expected));
    forall i | 0 <= i < |providers|
      ensures VerdictOf(providers[i].id, answers[i], again, expected, findings[i].look.verdict)
    {
      FinalVerdict(first, i, providers[i].id, answers[i], again, expected);
    }
    hide Judge, Heard, VerdictOf;
    assert forall i :: 0 <= i < |providers| ==> providers[i].State() == old(providers[i].State());
    Record(providers, findings, expected.finalized.number);
    assert forall i :: 0 <= i < |providers| ==> providers[i].verdict.value == findings[i].look.verdict;
    forall i | 0 <= i < |providers| && RightOnce(providers[i].id, answers[i], again, expected)
      ensures providers[i].verdict != Some(Divergence)
      ensures GateOpen(old(providers[i].eligibility), Gate.Integrity) ==> GateOpen(providers[i].eligibility, Gate.Integrity)
    {
      RightOnceKeepsGate(providers[i].id, answers[i], again, expected, providers[i].verdict.value, old(providers[i].State()), 0);
    }
  }

  /* ---------- over any number of rounds ---------- */

  /** A verdict some round gave a provider that was right at one look at least. */
  ghost predicate FromARightLook(verdict: Verdict) {
    exists first: Answers, second: Answers, expected: Expected ::
      verdict == RoundVerdict(first, second, expected) && (Blameless(first, expected) || Blameless(second, expected))
  }

  /** A provider right at one look of every round, whatever its probes say meanwhile and whenever rounds come, is
      never shut out by the integrity gate. */
  lemma {:induction false} RightOnceIsNeverShutOut(history: seq<Signal>, flipAfter: nat)
    requires forall signal :: signal in history && signal.Judged? ==> FromARightLook(signal.verdict)
    ensures GateOpen(After(history, flipAfter).eligibility, Gate.Integrity)
  {
    IntegrityGate(history, flipAfter);
    NoneDiverges(history);
  }

  lemma {:induction false} NoneDiverges(history: seq<Signal>)
    requires forall signal :: signal in history && signal.Judged? ==> FromARightLook(signal.verdict)
    ensures LastVerdict(history) != Some(Divergence)
  {
    if history != [] {
      var last := history[|history| - 1];
      assert last in history;
      NoneDiverges(history[..|history| - 1]);
      if last == Judged(Divergence) {
        var first: Answers, second: Answers, expected: Expected :|
          last.verdict == RoundVerdict(first, second, expected) && (Blameless(first, expected) || Blameless(second, expected));
        WrongTwice(first, second, expected);
      }
    }
  }
}

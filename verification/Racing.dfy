/** Callers that race: a signal moves the streak at once, but the gate it decides on is set later, and the line
    about the flip is written later still. */
module Racing {
  import opened Basics
  import opened Pool

  /** What is under way and what was done. `decided` is in the order the streak moved, `applied` and `flips` in the
      order the updates took effect, `lines` in the order the log got them. */
  datatype Race = Race(
    history: seq<Signal>,
    eligibility: bv8,
    streak: int,
    decided: seq<Update>,
    pending: seq<Update>,
    applied: seq<Update>,
    flips: seq<bool>,
    unwritten: seq<bool>,
    lines: seq<bool>)

  const START := Race([], BORN.eligibility, BORN.streak, [], [], [], [], [], [])

  /** Any caller may be the next one to get on: it moves the streak, sets its gate, or writes its line. */
  datatype Move =
    | Hear(signal: Signal)
    | Set(i: nat)
    | Write(i: nat)

  function StreakAfter(streak: int, signal: Signal): int {
    match signal
    case Result(success) => Streak(streak, success)
    case Quarantined => 0
    case Judged(_) => streak
  }

  /** The update a caller sets out to make, by the streak it left itself. */
  function Decides(streak: int, signal: Signal, flipAfter: nat): seq<Update> {
    match signal
    case Result(success) =>
      var decision := Decision(Streak(streak, success), flipAfter);
      if decision.Some? then [Update(Health, decision.value)] else []
    case Quarantined => [Update(Health, false)]
    case Judged(Divergence) => [Update(Integrity, false)]
    case Judged(Match) => [Update(Integrity, true)]
    case Judged(_) => []
  }

  function Without<T>(s: seq<T>, i: nat): seq<T>
    requires i < |s|
  {
    s[..i] + s[i + 1..]
  }

  /** The flip one update makes, if any. */
  function Flip(before: bv8, after: bv8): seq<bool> {
    if (before == ALL_GATES) != (after == ALL_GATES) then [after == ALL_GATES] else []
  }

  function SetAt(r: Race, i: nat): Race
    requires i < |r.pending|
  {
    var after := WithGate(r.eligibility, r.pending[i].gate, r.pending[i].value);
    var flip := Flip(r.eligibility, after);
    r.(eligibility := after, pending := Without(r.pending, i), applied := r.applied + [r.pending[i]],
       flips := r.flips + flip, unwritten := r.unwritten + flip)
  }

  function After(r: Race, move: Move, flipAfter: nat): Race {
    match move
    case Hear(signal) =>
      var update := Decides(r.streak, signal, flipAfter);
      r.(history := r.history + [signal], streak := StreakAfter(r.streak, signal),
         decided := r.decided + update, pending := r.pending + update)
    case Set(i) => if i < |r.pending| then SetAt(r, i) else r
    case Write(i) =>
      if i < |r.unwritten| then r.(unwritten := Without(r.unwritten, i), lines := r.lines + [r.unwritten[i]]) else r
  }

  function Run(moves: seq<Move>, flipAfter: nat): Race {
    if moves == [] then START
    else After(Run(moves[..|moves| - 1], flipAfter), moves[|moves| - 1], flipAfter)
  }

  /* ---------- what every race keeps ---------- */

  /** The updates a history decides on, one signal at a time. */
  function Decisions(history: seq<Signal>, flipAfter: nat): seq<Update> {
    if history == [] then []
    else
      var before := history[..|history| - 1];
      Decisions(before, flipAfter) + Decides(Pool.After(before, flipAfter).streak, history[|history| - 1], flipAfter)
  }

  ghost predicate Sound(r: Race, flipAfter: nat) {
    && r.streak == Pool.After(r.history, flipAfter).streak
    && r.decided == Decisions(r.history, flipAfter)
    && multiset(r.applied) + multiset(r.pending) == multiset(r.decided)
    && r.eligibility == Raced(BORN, r.applied).eligibility && r.flips == Raced(BORN, r.applied).flips
    && multiset(r.lines) + multiset(r.unwritten) == multiset(r.flips)
  }

  lemma WithoutCounts<T>(s: seq<T>, i: nat)
    requires i < |s|
    ensures multiset(Without(s, i)) + multiset([s[i]]) == multiset(s)
  {
    assert s == s[..i] + [s[i]] + s[i + 1..];
  }

  lemma HearKeeps(r: Race, signal: Signal, flipAfter: nat)
    requires Sound(r, flipAfter)
    ensures Sound(After(r, Hear(signal), flipAfter), flipAfter)
  {
    var history := r.history + [signal];
    assert history[..|history| - 1] == r.history;
    hide Raced, Decides, Streak;
    StreakMoves(history, flipAfter);
  }

  lemma StreakMoves(history: seq<Signal>, flipAfter: nat)
    requires history != []
    ensures Pool.After(history, flipAfter).streak
         == StreakAfter(Pool.After(history[..|history| - 1], flipAfter).streak, history[|history| - 1])
  {
  }

  lemma SetKeeps(r: Race, i: nat, flipAfter: nat)
    requires Sound(r, flipAfter) && i < |r.pending|
    ensures Sound(SetAt(r, i), flipAfter)
  {
    WithoutCounts(r.pending, i);
    var applied := r.applied + [r.pending[i]];
    assert applied[..|applied| - 1] == r.applied;
    hide WithGate, Decisions, Without;
  }

  lemma WriteKeeps(r: Race, i: nat, flipAfter: nat)
    requires Sound(r, flipAfter)
    ensures Sound(After(r, Write(i), flipAfter), flipAfter)
  {
    hide Decisions, Raced, Without;
    if i < |r.unwritten| { WithoutCounts(r.unwritten, i); }
  }

  lemma {:induction false} RunSound(moves: seq<Move>, flipAfter: nat)
    ensures Sound(Run(moves, flipAfter), flipAfter)
  {
    if moves != [] {
      var before := Run(moves[..|moves| - 1], flipAfter);
      RunSound(moves[..|moves| - 1], flipAfter);
      hide Sound;
      match moves[|moves| - 1]
      case Hear(signal) => HearKeeps(before, signal, flipAfter);
      case Set(i) => if i < |before.pending| { SetKeeps(before, i, flipAfter); }
      case Write(i) => WriteKeeps(before, i, flipAfter);
    }
  }

  /** However callers race, flips in the order of effect alternate and end on the truth, the streak is the run of
      results, and the log is the flips in some order, each once. */
  lemma EffectsTell(moves: seq<Move>, flipAfter: nat)
    ensures var r := Run(moves, flipAfter);
            && LogTells(Standing(r.eligibility, r.streak, r.flips))
            && r.streak == Pool.After(r.history, flipAfter).streak
            && multiset(r.lines) + multiset(r.unwritten) == multiset(r.flips)
  {
    RunSound(moves, flipAfter);
    FlipsAlternate(Run(moves, flipAfter).applied);
  }

  /* ---------- when the gate is right ---------- */

  /** How a gate stands after updates in order: the last one of that gate, or as it was at birth. */
  predicate Stands(updates: seq<Update>, gate: Gate) {
    if updates == [] then gate == Integrity
    else if updates[|updates| - 1].gate == gate then updates[|updates| - 1].value
    else Stands(updates[..|updates| - 1], gate)
  }

  lemma {:induction false} GateStands(updates: seq<Update>, gate: Gate)
    ensures GateOpen(Raced(BORN, updates).eligibility, gate) <==> Stands(updates, gate)
  {
    if updates != [] {
      var before, last := updates[..|updates| - 1], updates[|updates| - 1];
      GateStands(before, gate);
      GatesApart(Raced(BORN, before).eligibility, last.gate, last.value, gate);
    }
  }

  lemma RacedOn(updates: seq<Update>, more: seq<Update>)
    requires |more| <= 1
    ensures more == [] ==> Raced(BORN, updates + more) == Raced(BORN, updates)
    ensures more != [] ==> Raced(BORN, updates + more) == Gated(Raced(BORN, updates), more[0].gate, more[0].value)
  {
    hide Gated;
    if more == [] {
      assert updates + more == updates;
    } else {
      assert (updates + more)[..|updates + more| - 1] == updates;
    }
  }

  /** One signal on its own is its streak step and then its update. */
  lemma HeardIs(standing: Standing, signal: Signal, flipAfter: nat)
    ensures var update := Decides(standing.streak, signal, flipAfter);
            && Heard(standing, signal, flipAfter).eligibility
               == (if update == [] then standing else Gated(standing, update[0].gate, update[0].value)).eligibility
            && Heard(standing, signal, flipAfter).flips
               == (if update == [] then standing else Gated(standing, update[0].gate, update[0].value)).flips
            && Heard(standing, signal, flipAfter).streak == StreakAfter(standing.streak, signal)
  {
    hide WithGate, Streak;
  }

  lemma GatedSame(left: Standing, right: Standing, gate: Gate, value: bool)
    requires left.eligibility == right.eligibility && left.flips == right.flips
    ensures Gated(left, gate, value).eligibility == Gated(right, gate, value).eligibility
    ensures Gated(left, gate, value).flips == Gated(right, gate, value).flips
  {
  }

  /** Signals heard one at a time are the race in which updates take effect in the order decided. */
  lemma {:induction false} SequentialIs(history: seq<Signal>, flipAfter: nat)
    ensures Pool.After(history, flipAfter).eligibility == Raced(BORN, Decisions(history, flipAfter)).eligibility
    ensures Pool.After(history, flipAfter).flips == Raced(BORN, Decisions(history, flipAfter)).flips
  {
    if history != [] {
      var before, signal := history[..|history| - 1], history[|history| - 1];
      var standing := Pool.After(before, flipAfter);
      SequentialIs(before, flipAfter);
      var update := Decides(standing.streak, signal, flipAfter);
      hide Raced, Heard, Gated;
      assert |update| <= 1;
      HeardIs(standing, signal, flipAfter);
      RacedOn(Decisions(before, flipAfter), update);
      if update != [] { GatedSame(standing, Raced(BORN, Decisions(before, flipAfter)), update[0].gate, update[0].value); }
    }
  }

  /** The provider is let in exactly when the updates in the order they took effect leave both gates open; a gate
      is as the history says exactly when the last update of it to take effect says what the last one decided
      does. For the health gate the history says whether enough results agreed and none barred it since. */
  lemma RightExactlyWhen(moves: seq<Move>, flipAfter: nat)
    requires flipAfter > 0 && Countable(Run(moves, flipAfter).history)
    ensures var r := Run(moves, flipAfter);
            && (r.eligibility == ALL_GATES <==> Stands(r.applied, Health) && Stands(r.applied, Integrity))
            && ((GateOpen(r.eligibility, Health) <==> Admitted(r.history, flipAfter))
                <==> Stands(r.applied, Health) == Stands(r.decided, Health))
            && ((!GateOpen(r.eligibility, Integrity) <==> LastVerdict(r.history) == Some(Divergence))
                <==> Stands(r.applied, Integrity) == Stands(r.decided, Integrity))
  {
    var r := Run(moves, flipAfter);
    RunSound(moves, flipAfter);
    FlipsAlternate(r.applied);
    SequentialIs(r.history, flipAfter);
    GateStands(r.applied, Health);
    GateStands(r.applied, Integrity);
    GateStands(r.decided, Health);
    GateStands(r.decided, Integrity);
    BothGates(r.eligibility);
    HealthGate(r.history, flipAfter);
    IntegrityGate(r.history, flipAfter);
    hide Raced, Stands, GateOpen, Admitted, LastVerdict, Pool.After, Run;
  }

  /* ---------- what is still under way ---------- */

  function SetAll(r: Race, picks: seq<nat>): Race
    decreases |picks|
  {
    if picks == [] then r
    else if picks[0] < |r.pending| then SetAll(SetAt(r, picks[0]), picks[1..])
    else r
  }

  /** Every order in which the updates under way can take effect leaves the gate as the last decision says. */
  ghost predicate AlwaysEndsRight(r: Race, gate: Gate) {
    forall picks :: SetAll(r, picks).pending == [] ==> Stands(SetAll(r, picks).applied, gate) == Stands(r.decided, gate)
  }

  /** No update under way says otherwise than the last decision about that gate; and with none under way, the last
      one to take effect does not either. */
  predicate NoneOutdated(r: Race, gate: Gate) {
    && (forall u :: u in r.pending && u.gate == gate ==> u.value == Stands(r.decided, gate))
    && ((forall u :: u in r.pending ==> u.gate != gate) ==> Stands(r.applied, gate) == Stands(r.decided, gate))
  }

  lemma SetStands(r: Race, i: nat, gate: Gate)
    requires i < |r.pending|
    ensures Stands(SetAt(r, i).applied, gate)
         == if r.pending[i].gate == gate then r.pending[i].value else Stands(r.applied, gate)
  {
    var applied := r.applied + [r.pending[i]];
    assert applied[..|applied| - 1] == r.applied;
  }

  lemma WithoutHas<T>(s: seq<T>, i: nat)
    requires i < |s|
    ensures forall x :: x in Without(s, i) ==> x in s
    ensures forall x :: x in s ==> x in Without(s, i) || x == s[i]
  {
    assert s == s[..i] + [s[i]] + s[i + 1..];
  }

  lemma {:induction false} EndsRight(r: Race, picks: seq<nat>, gate: Gate)
    requires NoneOutdated(r, gate) && SetAll(r, picks).pending == []
    ensures Stands(SetAll(r, picks).applied, gate) == Stands(r.decided, gate)
    decreases |picks|
  {
    if picks != [] && picks[0] < |r.pending| {
      SetStands(r, picks[0], gate);
      WithoutHas(r.pending, picks[0]);
      hide Stands, Without, WithGate;
      EndsRight(SetAt(r, picks[0]), picks[1..], gate);
    } else {
      hide Stands;
      assert r.pending == [];
    }
  }

  /** An order in which the update at `i` is the last to take effect. */
  lemma {:induction false} SetLast(r: Race, i: nat) returns (picks: seq<nat>)
    requires i < |r.pending|
    ensures SetAll(r, picks).pending == [] && SetAll(r, picks).applied != []
    ensures SetAll(r, picks).applied[|SetAll(r, picks).applied| - 1] == r.pending[i]
    decreases |r.pending|
  {
    hide WithGate;
    if |r.pending| == 1 {
      picks := [0];
      assert picks[1..] == [];
    } else {
      var first := if i == 0 then 1 else 0;
      var rest := SetLast(SetAt(r, first), if i == 0 then 0 else i - 1);
      picks := [first] + rest;
      assert picks[1..] == rest;
    }
  }

  lemma {:induction false} SetInTurn(r: Race, gate: Gate) returns (picks: seq<nat>)
    ensures SetAll(r, picks).pending == []
    ensures (forall u :: u in r.pending ==> u.gate != gate) ==> Stands(SetAll(r, picks).applied, gate) == Stands(r.applied, gate)
    decreases |r.pending|
  {
    if r.pending == [] {
      picks := [];
    } else {
      SetStands(r, 0, gate);
      WithoutHas(r.pending, 0);
      hide Stands, WithGate;
      var rest := SetInTurn(SetAt(r, 0), gate);
      picks := [0] + rest;
      assert picks[1..] == rest;
    }
  }

  /** The exact condition: a gate ends as decided, however the updates under way race, if and only if none of them
      is outdated. */
  lemma EndsRightExactlyWhen(r: Race, gate: Gate)
    ensures AlwaysEndsRight(r, gate) <==> NoneOutdated(r, gate)
  {
    hide Stands;
    if NoneOutdated(r, gate) {
      forall picks | SetAll(r, picks).pending == []
        ensures Stands(SetAll(r, picks).applied, gate) == Stands(r.decided, gate)
      {
        EndsRight(r, picks, gate);
      }
    } else if u :| u in r.pending && u.gate == gate && u.value != Stands(r.decided, gate) {
      var i :| 0 <= i < |r.pending| && r.pending[i] == u;
      var picks := SetLast(r, i);
      LastStands(SetAll(r, picks).applied, gate);
    } else {
      var picks := SetInTurn(r, gate);
    }
  }

  lemma LastStands(updates: seq<Update>, gate: Gate)
    requires updates != [] && updates[|updates| - 1].gate == gate
    ensures Stands(updates, gate) == updates[|updates| - 1].value
  {
  }

  /* ---------- how far behind an outdated decision is ---------- */

  /** Some results of `history` after the first `i` signals. */
  function ResultsSince(history: seq<Signal>, i: nat): nat {
    if |history| <= i then 0
    else (if history[|history| - 1].Result? then 1 else 0) + ResultsSince(history[..|history| - 1], i)
  }

  lemma {:induction false} AgreeSpans(history: seq<Signal>, i: nat, success: bool, n: nat)
    requires i <= |history| && Agree(history, success, n) && n > ResultsSince(history, i)
    ensures Agree(history[..i], success, n - ResultsSince(history, i))
    decreases |history|
  {
    if i < |history| {
      var before := history[..|history| - 1];
      assert before[..i] == history[..i];
      AgreeSpans(before, i, success, if history[|history| - 1].Result? then n - 1 else n);
    } else {
      assert history[..i] == history;
    }
  }

  lemma {:induction false} NotBoth(history: seq<Signal>, n: nat, m: nat)
    requires n > 0 && m > 0 && Agree(history, true, n)
    ensures !Agree(history, false, m)
  {
    if history[|history| - 1].Judged? { NotBoth(history[..|history| - 1], n, m); }
  }

  lemma {:induction false} ResultsSplit(history: seq<Signal>, i: nat, j: nat)
    requires i <= j <= |history|
    ensures ResultsSince(history, i) >= ResultsSince(history[..j], i)
    decreases |history|
  {
    if j < |history| {
      assert history[..|history| - 1][..j] == history[..j];
      ResultsSplit(history[..|history| - 1], i, j);
    } else {
      assert history[..j] == history;
    }
  }

  /** The `i`-th signal decided so about the health gate. */
  predicate DecidedAt(history: seq<Signal>, i: nat, flipAfter: nat, value: bool)
    requires i <= |history|
  {
    Agree(history[..i], value, flipAfter) || (i > 0 && history[i - 1] == Quarantined && !value)
  }

  /** No single result outdates a decision: one the history has gone back on was followed by as many results as it
      takes to flip, or, if it let the provider in, by a quarantine. */
  lemma OutdatedIsOvertaken(history: seq<Signal>, i: nat, flipAfter: nat, value: bool)
    requires flipAfter > 0 && i <= |history|
    requires DecidedAt(history, i, flipAfter, value) && Admitted(history, flipAfter) == !value
    ensures ResultsSince(history, i) >= flipAfter || (value && Quarantined in history[i..])
  {
    if value {
      var j :| i < j <= |history| && (Agree(history[..j], false, flipAfter) || history[j - 1] == Quarantined);
      if history[j - 1] == Quarantined {
        assert history[i..][j - 1 - i] == Quarantined;
      } else {
        Overtakes(history, i, j, flipAfter, value);
      }
    } else {
      var j :| 0 < j <= |history| && Agree(history[..j], true, flipAfter) && Unbroken(history, j, flipAfter);
      if j == i { NotBothAt(history[..i], flipAfter, flipAfter); }
      Overtakes(history, i, j, flipAfter, value);
    }
  }

  /** A quarantine ends a run of successes. */
  lemma NotBothAt(history: seq<Signal>, n: nat, m: nat)
    requires n > 0 && m > 0 && history != []
    requires Agree(history, false, m) || history[|history| - 1] == Quarantined
    ensures !Agree(history, true, n)
  {
    if Agree(history, true, n) { NotBoth(history, n, m); }
  }

  lemma Overtakes(history: seq<Signal>, i: nat, j: nat, flipAfter: nat, value: bool)
    requires flipAfter > 0 && i <= j <= |history|
    requires DecidedAt(history, i, flipAfter, value) && Agree(history[..j], !value, flipAfter)
    ensures ResultsSince(history, i) >= flipAfter
  {
    var upto := history[..j];
    assert upto[..i] == history[..i];
    ResultsSplit(history, i, j);
    if ResultsSince(upto, i) < flipAfter {
      AgreeSpans(upto, i, !value, flipAfter);
      if value {
        NotBoth(history[..i], flipAfter, flipAfter - ResultsSince(upto, i));
      } else {
        NotBothAt(history[..i], flipAfter - ResultsSince(upto, i), flipAfter);
      }
    }
  }

  /** A decision that takes effect with no other update of its gate under way puts the gate right, whatever state
      earlier races left it in. */
  lemma NextDecisionHeals(r: Race, signal: Signal, flipAfter: nat)
    requires r.pending == [] && Decides(r.streak, signal, flipAfter) != []
    ensures var next := After(After(r, Hear(signal), flipAfter), Set(0), flipAfter);
            var gate := Decides(r.streak, signal, flipAfter)[0].gate;
            next.pending == [] && Stands(next.applied, gate) == Stands(next.decided, gate)
  {
    var update := Decides(r.streak, signal, flipAfter);
    var heard := After(r, Hear(signal), flipAfter);
    assert heard.pending == update && |update| == 1;
    SetStands(heard, 0, update[0].gate);
    LastStands(heard.decided, update[0].gate);
  }

  /* ---------- the log ---------- */

  function WriteAll(r: Race, picks: seq<nat>): Race
    decreases |picks|
  {
    if picks == [] then r
    else if picks[0] < |r.unwritten|
      then WriteAll(r.(unwritten := Without(r.unwritten, picks[0]), lines := r.lines + [r.unwritten[picks[0]]]), picks[1..])
    else r
  }

  /** The last line says what eligible answers, and no line at all says not eligible. */
  predicate LastLineTrue(r: Race) {
    (r.lines != [] && r.lines[|r.lines| - 1]) == (r.eligibility == ALL_GATES)
  }

  /** Every order in which the lines under way can be written ends on a true one. */
  ghost predicate AlwaysEndsTrue(r: Race) {
    forall picks :: WriteAll(r, picks).unwritten == [] ==> LastLineTrue(WriteAll(r, picks))
  }

  predicate NoLineFalse(r: Race) {
    && (forall line :: line in r.unwritten ==> line == (r.eligibility == ALL_GATES))
    && (r.unwritten == [] ==> LastLineTrue(r))
  }

  lemma {:induction false} EndsTrue(r: Race, picks: seq<nat>)
    requires NoLineFalse(r) && WriteAll(r, picks).unwritten == []
    ensures LastLineTrue(WriteAll(r, picks))
    decreases |picks|
  {
    if picks != [] && picks[0] < |r.unwritten| {
      WithoutHas(r.unwritten, picks[0]);
      assert r.unwritten[picks[0]] in r.unwritten;
      var next := r.(unwritten := Without(r.unwritten, picks[0]), lines := r.lines + [r.unwritten[picks[0]]]);
      assert LastLineTrue(next);
      hide Without, LastLineTrue;
      EndsTrue(next, picks[1..]);
    }
  }

  lemma {:induction false} WriteLast(r: Race, i: nat) returns (picks: seq<nat>)
    requires i < |r.unwritten|
    ensures var end := WriteAll(r, picks);
            && end.unwritten == [] && end.eligibility == r.eligibility
            && end.lines != [] && end.lines[|end.lines| - 1] == r.unwritten[i]
    decreases |r.unwritten|
  {
    if |r.unwritten| == 1 {
      picks := [0];
      assert picks[1..] == [];
    } else {
      var first := if i == 0 then 1 else 0;
      var next := r.(unwritten := Without(r.unwritten, first), lines := r.lines + [r.unwritten[first]]);
      var rest := WriteLast(next, if i == 0 then 0 else i - 1);
      picks := [first] + rest;
      assert picks[1..] == rest;
    }
  }

  /** The log ends on the truth, however the lines under way race, if and only if none of them is about a flip that
      was flipped back. */
  lemma LogRightExactlyWhen(r: Race)
    ensures AlwaysEndsTrue(r) <==> NoLineFalse(r)
  {
    if NoLineFalse(r) {
      forall picks | WriteAll(r, picks).unwritten == [] ensures LastLineTrue(WriteAll(r, picks)) {
        EndsTrue(r, picks);
      }
    } else if line :| line in r.unwritten && line != (r.eligibility == ALL_GATES) {
      var i :| 0 <= i < |r.unwritten| && r.unwritten[i] == line;
      var picks := WriteLast(r, i);
    } else {
      var none: seq<nat> := [];
      assert WriteAll(r, none) == r;
    }
  }

  lemma LastMove(moves: seq<Move>, flipAfter: nat)
    requires moves != []
    ensures Run(moves, flipAfter) == After(Run(moves[..|moves| - 1], flipAfter), moves[|moves| - 1], flipAfter)
  {
  }

  /** Lines are written oldest first. */
  predicate InTurn(moves: seq<Move>) {
    forall i :: 0 <= i < |moves| && moves[i].Write? ==> moves[i] == Write(0)
  }

  lemma WriteInTurn(r: Race, move: Move, flipAfter: nat)
    requires r.lines + r.unwritten == r.flips && (move.Write? ==> move == Write(0))
    ensures After(r, move, flipAfter).lines + After(r, move, flipAfter).unwritten == After(r, move, flipAfter).flips
  {
    hide WithGate, Decides, StreakAfter;
    match move
    case Hear(_) =>
    case Set(i) =>
      if i < |r.pending| {
        var after := WithGate(r.eligibility, r.pending[i].gate, r.pending[i].value);
        var flip := Flip(r.eligibility, after);
        assert r.lines + (r.unwritten + flip) == r.lines + r.unwritten + flip;
      }
    case Write(i) =>
      if r.unwritten != [] {
        var line, rest := r.unwritten[0], Without(r.unwritten, 0);
        assert r.unwritten == [line] + rest;
        assert r.lines + [line] + rest == r.lines + ([line] + rest);
      }
  }

  /** Written in turn, the log is the flips in the order of effect, short of those still under way. */
  lemma {:induction false} WrittenInTurn(moves: seq<Move>, flipAfter: nat)
    requires InTurn(moves)
    ensures Run(moves, flipAfter).lines + Run(moves, flipAfter).unwritten == Run(moves, flipAfter).flips
  {
    hide After;
    if moves != [] {
      WrittenInTurn(moves[..|moves| - 1], flipAfter);
      WriteInTurn(Run(moves[..|moves| - 1], flipAfter), moves[|moves| - 1], flipAfter);
    }
  }

  /* ---------- nothing races ---------- */

  /** Each signal sets its gate and writes its line before the next is heard. */
  function OneByOne(history: seq<Signal>): seq<Move> {
    if history == [] then [] else OneByOne(history[..|history| - 1]) + [Hear(history[|history| - 1]), Set(0), Write(0)]
  }

  lemma RunOn(moves: seq<Move>, signal: Signal, flipAfter: nat)
    ensures Run(moves + [Hear(signal), Set(0), Write(0)], flipAfter)
         == After(After(After(Run(moves, flipAfter), Hear(signal), flipAfter), Set(0), flipAfter), Write(0), flipAfter)
  {
    hide After;
    var third := moves + [Hear(signal), Set(0), Write(0)];
    var second, first := third[..|third| - 1], third[..|third| - 2];
    assert second[..|second| - 1] == first && first[..|first| - 1] == moves;
    assert second[|second| - 1] == Set(0) && first[|first| - 1] == Hear(signal);
    hide Run;
    LastMove(third, flipAfter);
    LastMove(second, flipAfter);
    LastMove(first, flipAfter);
  }

  /** The race stands where the history does, with nothing under way. */
  predicate StandsAs(r: Race, standing: Standing) {
    Standing(r.eligibility, r.streak, r.lines) == standing && r.pending == [] && r.unwritten == [] && r.lines == r.flips
  }

  /** Then the race ends as the history does, gate, streak and log alike. */
  lemma {:induction false} OneByOneIs(history: seq<Signal>, flipAfter: nat)
    ensures StandsAs(Run(OneByOne(history), flipAfter), Pool.After(history, flipAfter))
    ensures Run(OneByOne(history), flipAfter).history == history
  {
    if history != [] {
      hide Run, StandsAs, Pool.After, OneByOne;
      OneByOneIs(history[..|history| - 1], flipAfter);
      OneMore(history, flipAfter);
    }
  }

  lemma OneMore(history: seq<Signal>, flipAfter: nat)
    requires history != []
    requires StandsAs(Run(OneByOne(history[..|history| - 1]), flipAfter), Pool.After(history[..|history| - 1], flipAfter))
    requires Run(OneByOne(history[..|history| - 1]), flipAfter).history == history[..|history| - 1]
    ensures StandsAs(Run(OneByOne(history), flipAfter), Pool.After(history, flipAfter))
    ensures Run(OneByOne(history), flipAfter).history == history
  {
    hide Run, After, StandsAs, Heard;
    var before, signal := history[..|history| - 1], history[|history| - 1];
    RunOn(OneByOne(before), signal, flipAfter);
    assert history == before + [signal];
    OneIs(Run(OneByOne(before), flipAfter), Pool.After(before, flipAfter), signal, flipAfter);
  }

  function One(r: Race, signal: Signal, flipAfter: nat): Race {
    After(After(After(r, Hear(signal), flipAfter), Set(0), flipAfter), Write(0), flipAfter)
  }

  lemma OneIs(r: Race, standing: Standing, signal: Signal, flipAfter: nat)
    requires StandsAs(r, standing)
    ensures StandsAs(One(r, signal, flipAfter), Heard(standing, signal, flipAfter))
    ensures One(r, signal, flipAfter).history == r.history + [signal]
  {
    HeardIs(standing, signal, flipAfter);
    var update := Decides(r.streak, signal, flipAfter);
    assert |update| <= 1 && [] + update == update;
    HearIs(r, signal, flipAfter, update, StreakAfter(r.streak, signal));
    var heard := After(r, Hear(signal), flipAfter);
    hide Heard, Decides, WithGate, StreakAfter;
    if update == [] {
      NothingMoves(heard, flipAfter);
    } else {
      assert Without(update, 0) == [];
      SetIs(heard, 0, flipAfter, WithGate(r.eligibility, update[0].gate, update[0].value), []);
      hide After;
      FlipWritten(After(heard, Set(0), flipAfter), flipAfter);
    }
  }

  lemma NothingMoves(r: Race, flipAfter: nat)
    requires r.pending == [] && r.unwritten == []
    ensures After(After(r, Set(0), flipAfter), Write(0), flipAfter) == r
  {
  }

  /** The one line under way, if there is one, is written. */
  lemma FlipWritten(r: Race, flipAfter: nat)
    requires |r.unwritten| <= 1
    ensures After(r, Write(0), flipAfter) == r.(unwritten := [], lines := r.lines + r.unwritten)
  {
    if r.unwritten == [] {
      assert r.lines + [] == r.lines;
    } else {
      assert Without(r.unwritten, 0) == [] && r.unwritten == [r.unwritten[0]];
    }
  }

  /* ---------- races that do harm ---------- */

  const YES := Hear(Result(true))
  const NO := Hear(Result(false))

  lemma Then(moves: seq<Move>, k: nat, flipAfter: nat)
    requires k < |moves|
    ensures Run(moves[..0], flipAfter) == START
    ensures Run(moves[..k + 1], flipAfter) == After(Run(moves[..k], flipAfter), moves[k], flipAfter)
  {
    assert moves[..k + 1][..k] == moves[..k];
  }

  lemma HearIs(r: Race, signal: Signal, flipAfter: nat, update: seq<Update>, streak: int)
    requires Decides(r.streak, signal, flipAfter) == update && StreakAfter(r.streak, signal) == streak
    ensures After(r, Hear(signal), flipAfter)
         == r.(history := r.history + [signal], streak := streak, decided := r.decided + update, pending := r.pending + update)
  {
  }

  lemma SetIs(r: Race, i: nat, flipAfter: nat, after: bv8, left: seq<Update>)
    requires i < |r.pending| && WithGate(r.eligibility, r.pending[i].gate, r.pending[i].value) == after
    requires Without(r.pending, i) == left
    ensures After(r, Set(i), flipAfter)
         == r.(eligibility := after, pending := left, applied := r.applied + [r.pending[i]],
               flips := r.flips + Flip(r.eligibility, after), unwritten := r.unwritten + Flip(r.eligibility, after))
  {
  }

  const LET_IN := Update(Health, true)
  const SHUT_OUT := Update(Health, false)

  /** Two results of a kind, from a streak of the other kind: the second one decides. */
  lemma TwoDecide(r: Race, success: bool)
    requires (if success then -2 else 0) <= r.streak <= (if success then 0 else 2)
    ensures After(After(r, Hear(Result(success)), 2), Hear(Result(success)), 2)
         == r.(history := r.history + [Result(success), Result(success)], streak := if success then 2 else -2,
               decided := r.decided + [Update(Health, success)], pending := r.pending + [Update(Health, success)])
  {
    hide After;
    HearIs(r, Result(success), 2, [], if success then 1 else -1);
    var one := After(r, Hear(Result(success)), 2);
    assert one.decided == r.decided && one.pending == r.pending;
    HearIs(one, Result(success), 2, [Update(Health, success)], if success then 2 else -2);
    assert r.history + [Result(success)] + [Result(success)] == r.history + [Result(success), Result(success)];
  }

  lemma Four(moves: seq<Move>)
    requires |moves| >= 4 && moves[0] == moves[1] == YES && moves[2] == moves[3] == NO
    ensures Run(moves[..4], 2)
         == Race([Result(true), Result(true), Result(false), Result(false)], 2, -2, [LET_IN, SHUT_OUT], [LET_IN, SHUT_OUT], [], [], [], [])
  {
    hide Run, After;
    Then(moves, 0, 2);
    Then(moves, 1, 2);
    Then(moves, 2, 2);
    Then(moves, 3, 2);
    TwoDecide(START, true);
    TwoDecide(Run(moves[..2], 2), false);
  }

  /** Two successes decide to let in, and before that takes effect two failures have shut the gate. It is left open
      on a streak of failures. */
  lemma OutdatedDecisionLetsIn()
    ensures ShutsThenLetsIn(Run([YES, YES, NO, NO, Set(1), Set(0)], 2))
  {
    var moves := [YES, YES, NO, NO, Set(1), Set(0)];
    var r := Run(moves, 2);
    hide Run, Admitted, Stands;
    assert moves[..6] == moves;
    Four(moves);
    Then(moves, 4, 2);
    Then(moves, 5, 2);
    SetsOutOfTurn(Run(moves[..4], 2));
    LastStands(r.applied, Health);
    LastStands(r.decided, Health);
    RightExactlyWhen(moves, 2);
  }

  ghost predicate ShutsThenLetsIn(r: Race) {
    r.pending == [] && GateOpen(r.eligibility, Health) && r.streak == -2 && !Admitted(r.history, 2)
  }

  lemma SetsOutOfTurn(r: Race)
    requires r.pending == [LET_IN, SHUT_OUT] && r.applied == [] && r.eligibility == 2
    ensures After(After(r, Set(1), 2), Set(0), 2) == r.(pending := [], applied := [SHUT_OUT, LET_IN], eligibility := 3,
                                                        flips := r.flips + [true], unwritten := r.unwritten + [true])
  {
    hide After;
    BitsMove();
    assert Without([LET_IN, SHUT_OUT], 1) == [LET_IN] && Without([LET_IN], 0) == [];
    SetIs(r, 1, 2, 2, [LET_IN]);
    SetIs(After(r, Set(1), 2), 0, 2, 3, []);
  }

  /** The last line says eligible, and the provider is not. */
  lemma LateLineMisleads()
    ensures EndsMisleading(Run([YES, YES, Set(0), NO, NO, Set(0), Write(1), Write(0)], 2))
  {
    var moves := [YES, YES, Set(0), NO, NO, Set(0), Write(1), Write(0)];
    hide Run;
    assert moves[..8] == moves;
    LetInThenOut(moves);
    Then(moves, 6, 2);
    Then(moves, 7, 2);
    assert Without([true, false], 1) == [true] && Without([true], 0) == [];
  }

  predicate EndsMisleading(r: Race) {
    r.pending == [] && r.unwritten == [] && r.lines == [false, true] && r.eligibility != ALL_GATES
  }

  lemma LetInThenOut(moves: seq<Move>)
    requires |moves| >= 6 && moves[0] == moves[1] == YES && moves[3] == moves[4] == NO && moves[2] == moves[5] == Set(0)
    ensures var r := Run(moves[..6], 2);
            r.pending == [] && r.unwritten == [true, false] && r.lines == [] && r.eligibility == 2
  {
    hide Run, After, WithGate;
    Then(moves, 0, 2);
    Then(moves, 1, 2);
    Then(moves, 2, 2);
    Then(moves, 3, 2);
    Then(moves, 4, 2);
    Then(moves, 5, 2);
    TwoDeliver(START, true);
    TwoDeliver(Run(moves[..3], 2), false);
  }

  /** Two results that decide, and their update before anything else. */
  lemma TwoDeliver(r: Race, success: bool)
    requires (if success then -2 else 0) <= r.streak <= (if success then 0 else 2)
    requires r.pending == [] && r.eligibility == if success then 2 else 3
    ensures var end := After(After(After(r, Hear(Result(success)), 2), Hear(Result(success)), 2), Set(0), 2);
            end.pending == [] && end.eligibility == (if success then 3 else 2) && end.streak == (if success then 2 else -2)
            && end.unwritten == r.unwritten + [success] && end.lines == r.lines
  {
    hide After, WithGate;
    BitsMove();
    assert Without([Update(Health, success)], 0) == [];
    TwoDecide(r, success);
    var decided := After(After(r, Hear(Result(success)), 2), Hear(Result(success)), 2);
    SetIs(decided, 0, 2, if success then 3 else 2, []);
  }

  lemma BitsMove()
    ensures WithGate(2, Health, true) == 3 && WithGate(3, Health, false) == 2 && WithGate(2, Health, false) == 2
  {
  }
}

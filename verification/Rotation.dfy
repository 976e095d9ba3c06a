/** Membership, and the round robin over the eligible members. */
module Rotation {
  import opened Basics
  import opened Pool

  /* ---------- where a selection lands ---------- */

  /** The number of positions in `[from, till)` whose member is eligible; members repeat every lap. */
  ghost function Eligibles(eligible: seq<bool>, from: nat, till: nat): nat
    requires |eligible| > 0 && from <= till
    decreases till - from
  {
    if till == from then 0
    else (if eligible[from % |eligible|] then 1 else 0) + Eligibles(eligible, from + 1, till)
  }

  /** The first position from the cursor whose member is eligible, within one lap. */
  ghost predicate Selects(eligible: seq<bool>, cursor: nat, position: nat)
    requires |eligible| > 0
  {
    && cursor <= position < cursor + |eligible|
    && eligible[position % |eligible|]
    && (forall q :: cursor <= q < position ==> !eligible[q % |eligible|])
  }

  /** `positions` are the ones a run of selections takes, each from where the one before it left off. */
  ghost predicate Sequential(eligible: seq<bool>, cursor: nat, positions: seq<nat>)
    requires |eligible| > 0
    decreases |positions|
  {
    positions == []
    || (Selects(eligible, cursor, positions[0]) && Sequential(eligible, positions[0] + 1, positions[1..]))
  }

  lemma {:induction false} EligiblesSplit(eligible: seq<bool>, from: nat, mid: nat, till: nat)
    requires |eligible| > 0 && from <= mid <= till
    ensures Eligibles(eligible, from, till) == Eligibles(eligible, from, mid) + Eligibles(eligible, mid, till)
    decreases mid - from
  {
    if from < mid { EligiblesSplit(eligible, from + 1, mid, till); }
  }

  lemma {:induction false} NoneEligible(eligible: seq<bool>, from: nat, till: nat)
    requires |eligible| > 0 && from <= till
    requires forall q :: from <= q < till ==> !eligible[q % |eligible|]
    ensures Eligibles(eligible, from, till) == 0
    decreases till - from
  {
    if from < till { NoneEligible(eligible, from + 1, till); }
  }

  lemma SameMember(len: nat, position: nat)
    requires len > 0
    ensures (position + len) % len == position % len
  {
    var quotient, rest := position / len, position % len;
    assert position + len == len * (quotient + 1) + rest;
    ModIs(position + len, len, quotient + 1, rest);
  }

  lemma ModIs(x: nat, len: nat, quotient: nat, rest: nat)
    requires len > 0 && x == len * quotient + rest && rest < len
    ensures x % len == rest
  {
    var lap := x / len;
    assert x == len * lap + x % len;
    OneLapMore(len, lap, quotient);
    OneLapMore(len, quotient, lap);
  }

  lemma {:induction false} OneLapMore(len: nat, lap: nat, later: nat)
    ensures lap < later ==> len * lap + len <= len * later
    decreases later
  {
    if lap < later {
      assert len * later == len * (later - 1) + len;
      OneLapMore(len, lap, later - 1);
    }
  }

  /** A lap holds the same number of eligible members wherever it starts. */
  lemma {:induction false} LapCount(eligible: seq<bool>, cursor: nat)
    requires |eligible| > 0
    ensures Eligibles(eligible, cursor, cursor + |eligible|) == Eligibles(eligible, 0, |eligible|)
  {
    if cursor > 0 {
      LapCount(eligible, cursor - 1);
      var last := cursor - 1 + |eligible|;
      EligiblesSplit(eligible, cursor - 1, cursor, last);
      EligiblesSplit(eligible, cursor, last, last + 1);
      SameMember(|eligible|, cursor - 1);
      assert Eligibles(eligible, cursor - 1, cursor) == Eligibles(eligible, last, last + 1);
    }
  }

  /** A selection takes exactly one of the eligible positions ahead of it, the nearest. */
  lemma SelectionTakesOne(eligible: seq<bool>, cursor: nat, position: nat, end: nat)
    requires |eligible| > 0 && Selects(eligible, cursor, position)
    requires cursor <= end && Eligibles(eligible, cursor, end) > 0
    ensures position < end
    ensures Eligibles(eligible, cursor, end) == 1 + Eligibles(eligible, position + 1, end)
  {
    if end <= position {
      NoneEligible(eligible, cursor, end);
    } else {
      NoneEligible(eligible, cursor, position);
      EligiblesSplit(eligible, cursor, position, end);
    }
  }

  /** A run of selections no longer than the eligible positions ahead stays among them, in order, and skips
      none: what it has not taken is still ahead of it. */
  lemma {:induction false} RunOfSelections(eligible: seq<bool>, cursor: nat, positions: seq<nat>, end: nat)
    requires |eligible| > 0 && cursor <= end && Sequential(eligible, cursor, positions)
    requires |positions| <= Eligibles(eligible, cursor, end)
    ensures forall i :: 0 <= i < |positions| ==> cursor <= positions[i] < end && eligible[positions[i] % |eligible|]
    ensures forall i, j :: 0 <= i < j < |positions| ==> positions[i] < positions[j]
    ensures |positions| == Eligibles(eligible, cursor, end) ==>
              forall q :: cursor <= q < end && eligible[q % |eligible|] ==> q in positions
    decreases |positions|
  {
    if positions == [] {
      if Eligibles(eligible, cursor, end) == 0 {
        forall q | cursor <= q < end ensures !eligible[q % |eligible|] { Taken(eligible, cursor, q, end); }
      }
    } else {
      var rest := positions[1..];
      SelectionTakesOne(eligible, cursor, positions[0], end);
      RunOfSelections(eligible, positions[0] + 1, rest, end);
      assert forall i :: 0 < i < |positions| ==> positions[i] == rest[i - 1];
      forall q | |positions| == Eligibles(eligible, cursor, end) && cursor <= q < end && eligible[q % |eligible|]
        ensures q in positions
      {
        if q > positions[0] { assert q in rest; }
      }
    }
  }

  lemma Taken(eligible: seq<bool>, from: nat, q: nat, till: nat)
    requires |eligible| > 0 && from <= q < till && Eligibles(eligible, from, till) == 0
    ensures !eligible[q % |eligible|]
  {
    EligiblesSplit(eligible, from, q, till);
  }

  /** Of two positions less than a lap apart, no two are the same member. */
  lemma WithinALap(len: nat, one: nat, two: nat)
    requires len > 0 && one < two < one + len
    ensures one % len != two % len
  {
    if one / len >= two / len {
      assert len * (two / len) <= len * (one / len);
    } else {
      assert len * (one / len + 1) <= len * (two / len);
    }
  }

  /** Fair turns: with k members eligible, any k selections in a row take each of them exactly once, in
      cyclic order from the cursor. */
  lemma FairTurns(eligible: seq<bool>, cursor: nat, positions: seq<nat>)
    requires |eligible| > 0 && Sequential(eligible, cursor, positions)
    requires |positions| == Eligibles(eligible, 0, |eligible|)
    ensures forall i :: 0 <= i < |positions| ==> eligible[positions[i] % |eligible|]
    ensures forall i, j :: 0 <= i < j < |positions| ==>
              positions[i] < positions[j] && positions[i] % |eligible| != positions[j] % |eligible|
    ensures forall member :: 0 <= member < |eligible| && eligible[member] ==>
              exists i :: 0 <= i < |positions| && positions[i] % |eligible| == member
  {
    var end := cursor + |eligible|;
    LapCount(eligible, cursor);
    RunOfSelections(eligible, cursor, positions, end);
    forall i, j | 0 <= i < j < |positions| ensures positions[i] % |eligible| != positions[j] % |eligible| {
      WithinALap(|eligible|, positions[i], positions[j]);
    }
    forall member | 0 <= member < |eligible| && eligible[member]
      ensures exists i :: 0 <= i < |positions| && positions[i] % |eligible| == member
    {
      var q := PositionOf(|eligible|, cursor, member);
      assert q in positions;
    }
  }

  /** Every member has a position in the lap that starts at the cursor. */
  lemma PositionOf(len: nat, cursor: nat, member: nat) returns (q: nat)
    requires len > 0 && member < len
    ensures cursor <= q < cursor + len && q % len == member
  {
    var lap, at := cursor / len, cursor % len;
    if at <= member {
      q := len * lap + member;
      ModIs(q, len, lap, member);
    } else {
      q := len * (lap + 1) + member;
      ModIs(q, len, lap + 1, member);
    }
  }

  /* ---------- the pool ---------- */

  ghost function ShownOf(members: seq<Provider>): (shown: seq<bool>)
    reads members
    ensures |shown| == |members|
    ensures forall i :: 0 <= i < |members| ==> shown[i] == Eligible(members[i].State())
  {
    if members == [] then []
    else ShownOf(members[..|members| - 1]) + [Eligible(members[|members| - 1].State())]
  }

  /** How far others moved the cursor before and between the first `n` looks. */
  function Advanced(others: seq<nat>, n: nat): nat
    requires n <= |others|
  {
    if n == 0 then 0 else Advanced(others, n - 1) + others[n - 1]
  }

  /** The position of look number `t`. */
  function LookAt(cursor: nat, others: seq<nat>, t: nat): nat
    requires t < |others|
  {
    cursor + Advanced(others, t + 1) + t
  }

  /** Look number `t` is the first to meet an eligible member. */
  predicate LookFinds(shown: seq<bool>, cursor: nat, others: seq<nat>, t: nat)
    requires t < |others| == |shown|
  {
    shown[LookAt(cursor, others, t) % |shown|] && forall u: nat :: u < t ==> !shown[LookAt(cursor, others, u) % |shown|]
  }

  predicate IsFirst(shown: seq<bool>, i: nat)
    requires i < |shown|
  {
    shown[i] && forall j: nat :: j < i ==> !shown[j]
  }

  lemma LooksStart(others: seq<nat>)
    ensures Advanced(others, 0) == 0
  {
  }

  lemma LooksOn(cursor: nat, others: seq<nat>, t: nat)
    requires t < |others|
    ensures Advanced(others, t + 1) == Advanced(others, t) + others[t] && LookAt(cursor, others, t) == cursor + Advanced(others, t + 1) + t
  {
  }

  lemma FoundAt(shown: seq<bool>, cursor: nat, others: seq<nat>, t: nat)
    requires t < |others| == |shown| && shown[LookAt(cursor, others, t) % |shown|]
    requires forall u: nat :: u < t ==> !shown[LookAt(cursor, others, u) % |shown|]
    ensures forall s: nat :: s < |shown| && LookFinds(shown, cursor, others, s) ==> s == t
  {
    hide LookAt;
  }

  lemma NoneFinds(shown: seq<bool>, cursor: nat, others: seq<nat>)
    requires |others| == |shown| && forall u: nat :: u < |shown| ==> !shown[LookAt(cursor, others, u) % |shown|]
    ensures forall s: nat :: s < |shown| ==> !LookFinds(shown, cursor, others, s)
  {
    hide LookAt;
  }

  lemma OnlyFirst(shown: seq<bool>, i: nat)
    requires i < |shown| && shown[i] && forall j :: 0 <= j < i ==> !shown[j]
    ensures forall j: nat :: j < |shown| && IsFirst(shown, j) ==> j == i
  {
  }

  lemma NoFirst(shown: seq<bool>)
    requires forall j :: 0 <= j < |shown| ==> !shown[j]
    ensures forall j: nat :: j < |shown| ==> !IsFirst(shown, j)
  {
  }

  class Members {
    var members: seq<Provider>
    var cursor: nat

    constructor ()
      ensures members == [] && cursor == 0
    {
      members, cursor := [], 0;
    }

    /** The eligibility of each member, as a snapshot shows it. */
    ghost function Shown(): seq<bool>
      reads this`members, members
    {
      ShownOf(members)
    }

    method Add(provider: Provider)
      modifies this`members
      ensures members == old(members) + [provider]
    {
      members := members + [provider];
    }

    /** Takes out the first member with this id, and no other. */
    method Remove(id: Address) returns (removed: Option<Provider>)
      modifies this`members
      ensures removed.None? ==> members == old(members) && forall p :: p in members ==> p.id != id
      ensures removed.Some? ==>
                exists at :: 0 <= at < |old(members)| && old(members)[at] == removed.value && removed.value.id == id
                  && (forall i :: 0 <= i < at ==> old(members)[i].id != id)
                  && members == old(members)[..at] + old(members)[at + 1..]
    {
      removed := None;
      for i := 0 to |members|
        invariant members == old(members)
        invariant forall j :: 0 <= j < i ==> members[j].id != id
      {
        if members[i].id == id {
          removed := Some(members[i]);
          members := members[..i] + members[i + 1..];
          return;
        }
      }
    }

    /** One selection, with nobody else selecting: the next eligible member from the cursor, or one whole lap
        without finding any. */
    method NextEligible() returns (chosen: Option<Provider>)
      modifies this`cursor
      ensures members == [] ==> chosen == None && cursor == old(cursor)
      ensures members != [] && chosen.Some? ==>
                && cursor > 0 && Selects(Shown(), old(cursor), cursor - 1)
                && chosen.value == members[(cursor - 1) % |members|]
      ensures members != [] && chosen.None? ==>
                cursor == old(cursor) + |members| && forall i :: 0 <= i < |members| ==> !Shown()[i]
    {
      hide Eligible, ShownOf;
      if members == [] { return None; }
      var len := |members|;
      for tried := 0 to len
        invariant cursor == old(cursor) + tried
        invariant forall q :: old(cursor) <= q < cursor ==> !Shown()[q % len]
      {
        var at := cursor % len;
        cursor := cursor + 1;
        var eligible := members[at].IsEligible();
        if eligible {
          return Some(members[at]);
        }
      }
      forall i | 0 <= i < len ensures !Shown()[i] {
        var q := PositionOf(len, old(cursor), i);
      }
      chosen := None;
    }

    /** One selection while others move the cursor too, by `others[i]` before this one's i-th look: it takes the first
        eligible member it looks at, and, when a whole lap of looks found none, the first eligible one there is; so it
        finds a member exactly when there is one to find. */
    method NextEligibleAmong(others: seq<nat>) returns (chosen: Option<Provider>)
      requires |others| == |members|
      modifies this`cursor
      ensures chosen.Some? ==> exists i :: 0 <= i < |members| && members[i] == chosen.value && Shown()[i]
      ensures chosen.None? ==> forall i :: 0 <= i < |members| ==> !Shown()[i]
      ensures forall t: nat :: t < |members| && LookFinds(Shown(), old(cursor), others, t) ==>
                chosen == Some(members[LookAt(old(cursor), others, t) % |members|]) && cursor == LookAt(old(cursor), others, t) + 1
      ensures (forall t: nat :: t < |members| ==> !Shown()[LookAt(old(cursor), others, t) % |members|]) ==>
                && cursor == old(cursor) + Advanced(others, |members|) + |members|
                && forall i: nat :: i < |members| && IsFirst(Shown(), i) ==> chosen == Some(members[i])
    {
      hide Eligible, Advanced, LookAt, LookFinds, IsFirst, ShownOf;
      LooksStart(others);
      if members == [] { return None; }
      var len := |members|;
      ghost var shown, from := Shown(), cursor;
      for tried := 0 to len
        invariant cursor == from + Advanced(others, tried) + tried
        invariant forall t :: 0 <= t < tried ==> !shown[LookAt(from, others, t) % len]
      {
        LooksOn(from, others, tried);
        cursor := cursor + others[tried];
        var at := cursor % len;
        cursor := cursor + 1;
        var eligible := members[at].IsEligible();
        if eligible {
          chosen := Some(members[at]);
          assert Shown() == shown && members[at] == chosen.value && shown[at];
          FoundAt(shown, from, others, tried);
          return;
        }
      }
      assert Shown() == shown;
      NoneFinds(shown, from, others);
      for i := 0 to len
        invariant cursor == from + Advanced(others, len) + len
        invariant forall j :: 0 <= j < i ==> !shown[j]
      {
        var eligible := members[i].IsEligible();
        if eligible {
          chosen := Some(members[i]);
          assert members[i] == chosen.value && shown[i];
          OnlyFirst(shown, i);
          return;
        }
      }
      NoFirst(shown);
      chosen := None;
    }
  }
}

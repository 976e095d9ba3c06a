/** Integrity checks: comparing a provider's answers with the reference's, and the second look a divergence
    gets. */
module Integrity {
  import opened Basics
  import opened Sorting
  import opened Pool

  /** A name stands for its text: names are compared for equality and sorted by their order. */
  datatype Attribute = Attribute(name: nat, typeTag: nat, value: nat)

  datatype Entity = Entity(key: Key, creator: Address, createdAt: nat, expiresAt: nat, attributes: seq<Attribute>)

  datatype Block = Block(number: nat, hash: nat, parentHash: nat, stateRoot: nat, transactionsRoot: nat, receiptsRoot: nat,
                         transactions: seq<nat>)

  /* ---------- same entities ---------- */

  predicate ByName(left: Attribute, right: Attribute) {
    left.name <= right.name
  }

  function SortedRow(row: Entity): Entity {
    row.(attributes := Sort(row.attributes, ByName))
  }

  function SortedRows(rows: seq<Entity>): seq<Entity> {
    if rows == [] then [] else SortedRows(rows[..|rows| - 1]) + [SortedRow(rows[|rows| - 1])]
  }

  /** Whether two answers carry the same entities, whatever order each node rendered an entity's attributes in. */
  predicate SameEntities(rows: seq<Entity>, reference: seq<Entity>) {
    SortedRows(rows) == SortedRows(reference)
  }

  /** The attributes of one name, in the order rendered. */
  function Called(attributes: seq<Attribute>, name: nat): seq<Attribute> {
    if attributes == [] then []
    else (if attributes[0].name == name then [attributes[0]] else []) + Called(attributes[1..], name)
  }

  ghost predicate UniqueNames(attributes: seq<Attribute>) {
    forall i, j :: 0 <= i < j < |attributes| ==> attributes[i].name != attributes[j].name
  }

  /** Two rows agree: in everything but the order in which differently named attributes come. */
  ghost predicate RowsAgree(left: Entity, right: Entity) {
    && left.(attributes := []) == right.(attributes := [])
    && forall name :: Called(left.attributes, name) == Called(right.attributes, name)
  }

  ghost predicate Permuted(left: Entity, right: Entity) {
    left.(attributes := []) == right.(attributes := []) && multiset(left.attributes) == multiset(right.attributes)
  }

  lemma NameOrder()
    ensures TotalOrder(ByName)
  {
  }

  /** Sorting by name keeps the order of the attributes of one name. */
  lemma {:induction false} InsertKeeps(x: Attribute, s: seq<Attribute>, name: nat)
    ensures Called(Insert(x, s, ByName), name) == (if x.name == name then [x] else []) + Called(s, name)
  {
    if s == [] || ByName(x, s[0]) {
      CalledCons(x, s, name);
    } else {
      var rest := Insert(x, s[1..], ByName);
      InsertKeeps(x, s[1..], name);
      CalledCons(s[0], rest, name);
      CalledCons(s[0], s[1..], name);
      assert s == [s[0]] + s[1..];
      hide Called;
    }
  }

  lemma CalledCons(x: Attribute, s: seq<Attribute>, name: nat)
    ensures Called([x] + s, name) == (if x.name == name then [x] else []) + Called(s, name)
  {
    assert ([x] + s)[1..] == s;
  }

  lemma {:induction false} SortKeeps(s: seq<Attribute>, name: nat)
    ensures Called(Sort(s, ByName), name) == Called(s, name)
  {
    if s != [] {
      SortKeeps(s[1..], name);
      InsertKeeps(s[0], Sort(s[1..], ByName), name);
    }
  }

  lemma {:induction false} CalledMember(s: seq<Attribute>, x: Attribute)
    requires x in s
    ensures x in Called(s, x.name)
  {
    if s[0] != x { CalledMember(s[1..], x); }
  }

  lemma {:induction false} CalledFrom(s: seq<Attribute>, name: nat)
    ensures forall x :: x in Called(s, name) ==> x in s && x.name == name
  {
    if s != [] { CalledFrom(s[1..], name); }
  }

  /** Sorted by name, attributes are what they are name by name. */
  lemma {:induction false} SortedByNames(s: seq<Attribute>, t: seq<Attribute>)
    requires Sorted(s, ByName) && Sorted(t, ByName) && forall name :: Called(s, name) == Called(t, name)
    ensures s == t
  {
    if s == [] {
      NoneCalled(s, t);
    } else if t == [] {
      NoneCalled(t, s);
    } else {
      FirstName(s, t);
      FirstName(t, s);
      assert Called(s, s[0].name)[0] == s[0] && Called(t, t[0].name)[0] == t[0];
      forall name ensures Called(s[1..], name) == Called(t[1..], name) {
        assert Called(s, name) == Called(t, name);
        if s[0].name == name {
          assert Called(s, name)[1..] == Called(s[1..], name) && Called(t, name)[1..] == Called(t[1..], name);
        } else {
          assert Called(s, name) == Called(s[1..], name) && Called(t, name) == Called(t[1..], name);
        }
      }
      SortedByNames(s[1..], t[1..]);
      assert s == [s[0]] + s[1..] && t == [t[0]] + t[1..];
    }
  }

  lemma NoneCalled(s: seq<Attribute>, t: seq<Attribute>)
    requires s == [] && forall name :: Called(s, name) == Called(t, name)
    ensures t == []
  {
    if t != [] { CalledMember(t, t[0]); }
  }

  lemma FirstName(s: seq<Attribute>, t: seq<Attribute>)
    requires s != [] && t != [] && Sorted(s, ByName) && forall name :: Called(s, name) == Called(t, name)
    ensures s[0].name <= t[0].name
  {
    CalledMember(t, t[0]);
    CalledFrom(s, t[0].name);
    assert t[0] in Called(s, t[0].name);
    var i :| 0 <= i < |s| && s[i] == t[0];
  }

  /** Two rows look the same once sorted exactly when they agree name by name. */
  lemma SortedRowsAgree(left: Entity, right: Entity)
    ensures SortedRow(left) == SortedRow(right) <==> RowsAgree(left, right)
  {
    forall name ensures Called(Sort(left.attributes, ByName), name) == Called(left.attributes, name) {
      SortKeeps(left.attributes, name);
    }
    forall name ensures Called(Sort(right.attributes, ByName), name) == Called(right.attributes, name) {
      SortKeeps(right.attributes, name);
    }
    NameOrder();
    SortSorts(left.attributes, ByName);
    SortSorts(right.attributes, ByName);
    hide Sort, Called;
    if RowsAgree(left, right) {
      SortedByNames(Sort(left.attributes, ByName), Sort(right.attributes, ByName));
    }
  }

  lemma {:induction false} SortedRowsAt(rows: seq<Entity>)
    ensures |SortedRows(rows)| == |rows| && forall i :: 0 <= i < |rows| ==> SortedRows(rows)[i] == SortedRow(rows[i])
  {
    if rows != [] { SortedRowsAt(rows[..|rows| - 1]); }
  }

  /** Two answers carry the same entities exactly when they have the same rows in order, each pair agreeing name
      by name; which makes it an equivalence. */
  lemma SameMeans(rows: seq<Entity>, reference: seq<Entity>)
    ensures SameEntities(rows, reference) <==>
              |rows| == |reference| && forall i :: 0 <= i < |rows| ==> RowsAgree(rows[i], reference[i])
  {
    SortedRowsAt(rows);
    SortedRowsAt(reference);
    hide SortedRow, RowsAgree;
    if |rows| == |reference| {
      forall i | 0 <= i < |rows| ensures SortedRow(rows[i]) == SortedRow(reference[i]) <==> RowsAgree(rows[i], reference[i]) {
        SortedRowsAgree(rows[i], reference[i]);
      }
      assert SameEntities(rows, reference) <==> forall i :: 0 <= i < |rows| ==> SortedRow(rows[i]) == SortedRow(reference[i]);
    }
  }

  lemma {:induction false} UniqueCalled(s: seq<Attribute>, name: nat)
    requires UniqueNames(s)
    ensures |Called(s, name)| <= 1
  {
    if s != [] {
      UniqueCalled(s[1..], name);
      if s[0].name == name {
        forall i | 0 <= i < |s[1..]| ensures s[1..][i].name != name { assert s[1..][i] == s[i + 1]; }
        NoneOfName(s[1..], name);
      }
    }
  }

  lemma {:induction false} NoneOfName(s: seq<Attribute>, name: nat)
    requires forall i :: 0 <= i < |s| ==> s[i].name != name
    ensures Called(s, name) == []
  {
    if s != [] { NoneOfName(s[1..], name); }
  }

  lemma {:induction false} CalledCount(s: seq<Attribute>, x: Attribute)
    ensures multiset(Called(s, x.name))[x] == multiset(s)[x]
  {
    if s != [] {
      CalledCount(s[1..], x);
      assert s == [s[0]] + s[1..];
    }
  }

  lemma OneOrNone(left: seq<Attribute>, right: seq<Attribute>, name: nat)
    requires |left| <= 1 && |right| <= 1 && (forall x :: x in left ==> x.name == name) && forall x :: x in right ==> x.name == name
    requires forall x: Attribute :: x.name == name ==> multiset(left)[x] == multiset(right)[x]
    ensures left == right
  {
    if left != [] { assert multiset(left)[left[0]] == 1; }
    if right != [] { assert multiset(right)[right[0]] == 1; }
  }

  /** With names unique in each row, agreeing is being a permutation, attribute for attribute. */
  lemma AgreeIsPermuted(left: Entity, right: Entity)
    requires UniqueNames(left.attributes) && UniqueNames(right.attributes)
    ensures RowsAgree(left, right) <==> Permuted(left, right)
  {
    var l, r := left.attributes, right.attributes;
    forall x: Attribute ensures multiset(Called(l, x.name))[x] == multiset(l)[x] && multiset(Called(r, x.name))[x] == multiset(r)[x] {
      CalledCount(l, x);
      CalledCount(r, x);
    }
    if multiset(l) == multiset(r) {
      forall name ensures Called(l, name) == Called(r, name) {
        UniqueCalled(l, name);
        UniqueCalled(r, name);
        CalledFrom(l, name);
        CalledFrom(r, name);
        OneOrNone(Called(l, name), Called(r, name), name);
      }
    }
    if forall name :: Called(l, name) == Called(r, name) {
      forall x: Attribute ensures multiset(l)[x] == multiset(r)[x] { assert Called(l, x.name) == Called(r, x.name); }
    }
  }

  /** Names that repeat are compared in the order rendered: a permutation alone is then not enough. */
  lemma RepeatedNamesKeepOrder()
    ensures exists left: Entity, right: Entity :: Permuted(left, right) && !SameEntities([left], [right])
  {
    var x, y := Attribute(1, 0, 0), Attribute(1, 0, 1);
    var left, right := Entity(0, 0, 0, 0, [x, y]), Entity(0, 0, 0, 0, [y, x]);
    assert Called([x, y], 1)[0] == x && Called([y, x], 1)[0] == y;
    SameMeans([left], [right]);
    assert !RowsAgree([left][0], [right][0]);
    assert multiset([x, y]) == multiset([y, x]);
    assert Permuted(left, right);
  }

  /* ---------- one look ---------- */

  datatype ReadFailure = Error | TooLarge

  datatype ExpectedEntity = ExpectedEntity(key: Key, rows: Result<seq<Entity>, ()>)

  datatype Expected = Expected(finalized: Block, entity: Option<ExpectedEntity>)

  /** What a provider answered, and the head its probes last reported. */
  datatype Answers = Answers(block: Result<Option<Block>, ReadFailure>, rows: Option<Result<seq<Entity>, ReadFailure>>,
                             lastHeight: Option<nat>)

  datatype Evidence =
    | BlockEvidence(reference: Block, provider: Option<Block>)
    | EntityEvidence(key: Key, rows: seq<Entity>, served: seq<Entity>)
    | OverCap(read: string)

  datatype Look = Look(verdict: Verdict, evidence: Option<Evidence>)

  function JudgeRows(rows: seq<Entity>, expected: ExpectedEntity): Look {
    match expected.rows
    case Err(_) => Look(Unknown, None)
    case Ok(reference) =>
      if SameEntities(rows, reference) then Look(Match, None)
      else Look(Divergence, Some(EntityEvidence(expected.key, reference, rows)))
  }

  function JudgeEntity(answer: Answers, expected: Expected): Look {
    if expected.entity.None? || answer.rows.None? then Look(Match, None)
    else match answer.rows.value
      case Err(Error) => Look(Unknown, None)
      case Err(TooLarge) => Look(Divergence, Some(OverCap("entity")))
      case Ok(rows) => JudgeRows(rows, expected.entity.value)
  }

  /** One look's verdict, and the answers that differed when it is a divergence. */
  function Judge(answer: Answers, expected: Expected): Look {
    match answer.block
    case Err(Error) => Look(Unknown, None)
    case Err(TooLarge) => Look(Divergence, Some(OverCap("block")))
    case Ok(None) =>
      if answer.lastHeight.Some? && answer.lastHeight.value >= expected.finalized.number
      then Look(Divergence, Some(BlockEvidence(expected.finalized, None)))
      else Look(Stale, None)
    case Ok(Some(block)) =>
      if block != expected.finalized then Look(Divergence, Some(BlockEvidence(expected.finalized, Some(block))))
      else JudgeEntity(answer, expected)
  }

  /** What a provider can answer without being wrong: it fails, or lags, or says what the reference says. */
  ghost predicate Blameless(answer: Answers, expected: Expected) {
    && (match answer.block
        case Err(failure) => failure == Error
        case Ok(None) => answer.lastHeight.Some? ==> answer.lastHeight.value < expected.finalized.number
        case Ok(Some(block)) => block == expected.finalized)
    && (answer.block.Ok? && answer.block.value.Some? && answer.rows.Some? && expected.entity.Some? ==>
          match answer.rows.value
          case Err(failure) => failure == Error
          case Ok(rows) => expected.entity.value.rows.Ok? ==>
            |rows| == |expected.entity.value.rows.value|
            && forall i :: 0 <= i < |rows| ==> RowsAgree(rows[i], expected.entity.value.rows.value[i]))
  }

  /** A look is a divergence exactly when the provider is not blameless, and then it carries its evidence. */
  lemma DivergesOnlyIfWrong(answer: Answers, expected: Expected)
    ensures Judge(answer, expected).verdict == Divergence <==> !Blameless(answer, expected)
    ensures Judge(answer, expected).evidence.Some? <==> Judge(answer, expected).verdict == Divergence
  {
    hide SameEntities, RowsAgree;
    if answer.rows.Some? && answer.rows.value.Ok? && expected.entity.Some? && expected.entity.value.rows.Ok? {
      SameMeans(answer.rows.value.value, expected.entity.value.rows.value);
    }
  }

  /** Two answers that differ, or the read that was too large. */
  predicate Shows(evidence: Evidence, answer: Answers, expected: Expected) {
    match evidence
    case BlockEvidence(reference, provider) =>
      reference == expected.finalized && answer.block == Ok(provider) && provider != Some(reference)
    case EntityEvidence(key, rows, served) =>
      expected.entity == Some(ExpectedEntity(key, Ok(rows))) && answer.rows == Some(Ok(served)) && !SameEntities(served, rows)
    case OverCap(read) =>
      if read == "block" then answer.block == Err(TooLarge) else answer.rows == Some(Err(TooLarge))
  }

  lemma EvidenceShows(answer: Answers, expected: Expected)
    requires Judge(answer, expected).evidence.Some?
    ensures Shows(Judge(answer, expected).evidence.value, answer, expected)
  {
    hide SameEntities;
  }

  /** No such block yet, as far as the provider's probes told. */
  predicate Lags(answer: Answers, expected: Expected) {
    answer.block == Ok(None) && (answer.lastHeight.Some? ==> answer.lastHeight.value < expected.finalized.number)
  }

  lemma StaleMeans(answer: Answers, expected: Expected)
    ensures Judge(answer, expected).verdict == Stale <==> Lags(answer, expected)
  {
    hide SameEntities;
  }

  /** Both reads answered, as far as both were made, and say what the reference says. */
  predicate Agrees(answer: Answers, expected: Expected) {
    && answer.block == Ok(Some(expected.finalized))
    && (expected.entity.Some? && answer.rows.Some? ==>
          answer.rows.value.Ok? && expected.entity.value.rows.Ok?
          && SameEntities(answer.rows.value.value, expected.entity.value.rows.value))
  }

  lemma MatchMeans(answer: Answers, expected: Expected)
    ensures Judge(answer, expected).verdict == Match <==> Agrees(answer, expected)
  {
    hide SameEntities;
  }

  /* ---------- the second look ---------- */

  datatype Finding = Finding(provider: Address, look: Look)

  ghost predicate OneEach(findings: seq<Finding>) {
    forall i, j :: 0 <= i < j < |findings| ==> findings[i].provider != findings[j].provider
  }

  /** The providers a first look found diverging. */
  function Doubtful(findings: seq<Finding>): set<Address> {
    set i | 0 <= i < |findings| && findings[i].look.verdict == Divergence :: findings[i].provider
  }

  /** The second looks, as they came in: one for each doubtful provider, in any order. */
  ghost predicate SecondLooks(findings: seq<Finding>, seconds: seq<Finding>) {
    OneEach(seconds) && forall p :: p in Doubtful(findings) <==> exists i :: 0 <= i < |seconds| && seconds[i].provider == p
  }

  /** What the second looks say of a provider, and the first where there was no second. */
  function Final(finding: Finding, seconds: seq<Finding>): Finding {
    if seconds == [] then finding
    else if seconds[|seconds| - 1].provider == finding.provider then seconds[|seconds| - 1]
    else Final(finding, seconds[..|seconds| - 1])
  }

  method Find(findings: array<Finding>, provider: Address) returns (at: nat)
    requires exists i :: 0 <= i < findings.Length && findings[i].provider == provider
    ensures at < findings.Length && findings[at].provider == provider
  {
    at := 0;
    while findings[at].provider != provider
      invariant at < findings.Length && exists i :: at <= i < findings.Length && findings[i].provider == provider
      decreases findings.Length - at
    {
      at := at + 1;
    }
  }

  /** A divergence from one look is looked at again, and the second look is the finding, whatever it says. */
  method Confirm(findings: array<Finding>, seconds: seq<Finding>)
    requires OneEach(findings[..]) && SecondLooks(findings[..], seconds)
    modifies findings
    ensures forall i :: 0 <= i < findings.Length ==> findings[i] == Final(old(findings[i]), seconds)
    ensures forall i :: 0 <= i < findings.Length ==> findings[i].provider == old(findings[i].provider)
    ensures OneEach(findings[..])
    ensures forall i, n :: 0 <= i < findings.Length && 0 <= n < |seconds| && seconds[n].provider == old(findings[i]).provider ==>
              findings[i] == seconds[n]
    ensures forall i :: 0 <= i < findings.Length && findings[i].look.verdict == Divergence ==>
              old(findings[i]).look.verdict == Divergence && findings[i] in seconds
    ensures forall i :: 0 <= i < findings.Length && old(findings[i]).look.verdict != Divergence ==> findings[i] == old(findings[i])
  {
    ghost var first := findings[..];
    for n := 0 to |seconds|
      invariant forall i :: 0 <= i < findings.Length ==> findings[i] == Final(first[i], seconds[..n])
      invariant forall i :: 0 <= i < findings.Length ==> findings[i].provider == first[i].provider
    {
      assert seconds[..n + 1][..n] == seconds[..n];
      var second := seconds[n];
      assert second.provider in Doubtful(first);
      var at := Find(findings, second.provider);
      findings[at] := second;
    }
    assert seconds[..|seconds|] == seconds;
    FinalsAre(first, seconds);
    forall i | 0 <= i < findings.Length { FinalUnique(first[i], seconds); }
  }

  lemma FinalsAre(first: seq<Finding>, seconds: seq<Finding>)
    requires OneEach(first) && SecondLooks(first, seconds)
    ensures forall i :: 0 <= i < |first| && Final(first[i], seconds).look.verdict == Divergence ==>
              first[i].look.verdict == Divergence && Final(first[i], seconds) in seconds
    ensures forall i :: 0 <= i < |first| && first[i].look.verdict != Divergence ==> Final(first[i], seconds) == first[i]
  {
    forall i | 0 <= i < |first|
      ensures Final(first[i], seconds).look.verdict == Divergence ==>
                first[i].look.verdict == Divergence && Final(first[i], seconds) in seconds
      ensures first[i].look.verdict != Divergence ==> Final(first[i], seconds) == first[i]
    {
      FinalIs(first[i], seconds);
      if first[i].look.verdict != Divergence { NotDoubtful(first, i, seconds); }
      else { assert first[i].provider in Doubtful(first); }
    }
  }

  lemma {:induction false} FinalIs(finding: Finding, seconds: seq<Finding>)
    ensures (forall i :: 0 <= i < |seconds| ==> seconds[i].provider != finding.provider) ==> Final(finding, seconds) == finding
    ensures (exists i :: 0 <= i < |seconds| && seconds[i].provider == finding.provider) ==> Final(finding, seconds) in seconds
  {
    if seconds != [] {
      var before := seconds[..|seconds| - 1];
      FinalIs(finding, before);
      assert seconds == before + [seconds[|seconds| - 1]];
    }
  }

  lemma NotDoubtful(findings: seq<Finding>, i: nat, seconds: seq<Finding>)
    requires OneEach(findings) && SecondLooks(findings, seconds) && i < |findings| && findings[i].look.verdict != Divergence
    ensures forall n :: 0 <= n < |seconds| ==> seconds[n].provider != findings[i].provider
  {
    forall n | 0 <= n < |seconds| ensures seconds[n].provider != findings[i].provider {
      assert seconds[n].provider in Doubtful(findings);
    }
  }

  /** Whatever order the second looks come in, the findings are the same. */
  lemma AnyOrderSame(finding: Finding, left: seq<Finding>, right: seq<Finding>)
    requires OneEach(left) && OneEach(right) && multiset(left) == multiset(right)
    ensures Final(finding, left) == Final(finding, right)
  {
    FinalUnique(finding, left);
    FinalUnique(finding, right);
    forall i | 0 <= i < |left| ensures left[i] in right { assert left[i] in multiset(right); }
    forall j | 0 <= j < |right| ensures right[j] in left { assert right[j] in multiset(left); }
  }

  lemma {:induction false} FinalUnique(finding: Finding, seconds: seq<Finding>)
    requires OneEach(seconds)
    ensures forall i :: 0 <= i < |seconds| && seconds[i].provider == finding.provider ==> Final(finding, seconds) == seconds[i]
    ensures (forall i :: 0 <= i < |seconds| ==> seconds[i].provider != finding.provider) ==> Final(finding, seconds) == finding
  {
    if seconds != [] { FinalUnique(finding, seconds[..|seconds| - 1]); }
  }

  /* ---------- the differences that are logged ---------- */

  datatype Difference = Hash | ParentHash | StateRoot | TransactionsRoot | ReceiptsRoot | Transactions(first: nat)

  /** The lists are the same before this place, and at it they differ or one of them is over. */
  predicate DifferFrom(ours: seq<nat>, theirs: seq<nat>, first: nat) {
    && first <= |ours| && first <= |theirs| && ours[..first] == theirs[..first]
    && (first < |ours| && first < |theirs| ==> ours[first] != theirs[first])
  }

  /** Where two lists first differ, or where the shorter ends. */
  method FirstDifference(ours: seq<nat>, theirs: seq<nat>) returns (first: nat)
    ensures DifferFrom(ours, theirs, first)
    ensures ours != theirs ==> first < |ours| || first < |theirs|
  {
    first := 0;
    while first < |ours| && first < |theirs| && ours[first] == theirs[first]
      invariant first <= |ours| && first <= |theirs| && ours[..first] == theirs[..first]
    {
      first := first + 1;
    }
    if first == |ours| && first == |theirs| { assert ours[..first] == ours && theirs[..first] == theirs; }
  }

  /** The order the fields are named in. */
  function Place(difference: Difference): nat {
    match difference
    case Hash => 0 case ParentHash => 1 case StateRoot => 2 case TransactionsRoot => 3 case ReceiptsRoot => 4
    case Transactions(_) => 5
  }

  /** Whether this is a difference between the blocks. */
  predicate IsOne(reference: Block, provider: Block, difference: Difference) {
    match difference
    case Hash => reference.hash != provider.hash
    case ParentHash => reference.parentHash != provider.parentHash
    case StateRoot => reference.stateRoot != provider.stateRoot
    case TransactionsRoot => reference.transactionsRoot != provider.transactionsRoot
    case ReceiptsRoot => reference.receiptsRoot != provider.receiptsRoot
    case Transactions(first) =>
      reference.transactions != provider.transactions && DifferFrom(reference.transactions, provider.transactions, first)
  }

  ghost predicate NamesTransactions(differing: seq<Difference>) {
    exists first :: Transactions(first) in differing
  }

  /** All differences of the first `n` places are named, each once, in order, and nothing else is. */
  ghost predicate Names(reference: Block, provider: Block, differing: seq<Difference>, n: nat) {
    && (forall d :: d in differing ==> IsOne(reference, provider, d) && Place(d) < n)
    && (forall d: Difference :: !d.Transactions? && IsOne(reference, provider, d) && Place(d) < n ==> d in differing)
    && forall i, j :: 0 <= i < j < |differing| ==> Place(differing[i]) < Place(differing[j])
  }

  lemma NamesMore(reference: Block, provider: Block, differing: seq<Difference>, d: Difference, n: nat)
    requires Names(reference, provider, differing, n) && Place(d) == n
    ensures IsOne(reference, provider, d) ==> Names(reference, provider, differing + [d], n + 1)
    ensures !d.Transactions? && !IsOne(reference, provider, d) ==> Names(reference, provider, differing, n + 1)
  {
    hide IsOne;
    forall other: Difference | Place(other) == n ensures other == d || other.Transactions? {}
    forall i | 0 <= i < |differing| ensures differing[i] in differing {}
  }

  /** The fields of two blocks that differ, each once, in order, the transactions with the place they differ from. A
      block's number is not one of them. */
  method BlockDifferences(reference: Block, provider: Block) returns (differing: seq<Difference>)
    ensures differing == [] <==> reference == provider.(number := reference.number)
    ensures Names(reference, provider, differing, 6)
    ensures NamesTransactions(differing) <==> reference.transactions != provider.transactions
  {
    hide Names, DifferFrom, Place, NamesTransactions, IsOne;
    NoneNamed(reference, provider);
    differing := Field([], Hash, 0, reference.hash != provider.hash, reference, provider);
    differing := Field(differing, ParentHash, 1, reference.parentHash != provider.parentHash, reference, provider);
    differing := Field(differing, StateRoot, 2, reference.stateRoot != provider.stateRoot, reference, provider);
    differing := Field(differing, TransactionsRoot, 3, reference.transactionsRoot != provider.transactionsRoot, reference, provider);
    differing := Field(differing, ReceiptsRoot, 4, reference.receiptsRoot != provider.receiptsRoot, reference, provider);
    ghost var header := differing;
    if reference.transactions != provider.transactions {
      var first := FirstDifference(reference.transactions, provider.transactions);
      NamesMore(reference, provider, differing, Transactions(first), 5);
      differing := differing + [Transactions(first)];
      Named(header, first);
    }
    AllNamed(reference, provider, header, differing);
  }

  lemma Named(header: seq<Difference>, first: nat)
    ensures NamesTransactions(header + [Transactions(first)])
  {
    assert Transactions(first) in header + [Transactions(first)];
  }

  /** One field, named when it differs. */
  method Field(differing: seq<Difference>, d: Difference, ghost n: nat, differs: bool, ghost reference: Block, ghost provider: Block)
    returns (after: seq<Difference>)
    requires Names(reference, provider, differing, n) && Place(d) == n && !d.Transactions?
    requires differs <==> IsOne(reference, provider, d)
    ensures Names(reference, provider, after, n + 1)
    ensures after == if differs then differing + [d] else differing
  {
    NamesMore(reference, provider, differing, d, n);
    after := differing;
    if differs { after := after + [d]; }
  }

  lemma NoneNamed(reference: Block, provider: Block)
    ensures Names(reference, provider, [], 0)
    ensures Place(Hash) == 0 && Place(ParentHash) == 1 && Place(StateRoot) == 2 && Place(TransactionsRoot) == 3
    ensures Place(ReceiptsRoot) == 4 && forall first :: Place(Transactions(first)) == 5
    ensures IsOne(reference, provider, Hash) <==> reference.hash != provider.hash
    ensures IsOne(reference, provider, ParentHash) <==> reference.parentHash != provider.parentHash
    ensures IsOne(reference, provider, StateRoot) <==> reference.stateRoot != provider.stateRoot
    ensures IsOne(reference, provider, TransactionsRoot) <==> reference.transactionsRoot != provider.transactionsRoot
    ensures IsOne(reference, provider, ReceiptsRoot) <==> reference.receiptsRoot != provider.receiptsRoot
    ensures forall first :: IsOne(reference, provider, Transactions(first)) <==>
              reference.transactions != provider.transactions && DifferFrom(reference.transactions, provider.transactions, first)
  {
  }

  lemma AllNamed(reference: Block, provider: Block, header: seq<Difference>, differing: seq<Difference>)
    requires Names(reference, provider, header, 5)
    requires if reference.transactions == provider.transactions then differing == header
             else Names(reference, provider, differing, 6) && NamesTransactions(differing)
    ensures differing == [] <==> reference == provider.(number := reference.number)
    ensures Names(reference, provider, differing, 6)
    ensures NamesTransactions(differing) <==> reference.transactions != provider.transactions
  {
    if differing == [] {
      assert !IsOne(reference, provider, Hash) && !IsOne(reference, provider, ParentHash) && !IsOne(reference, provider, StateRoot);
      assert !IsOne(reference, provider, TransactionsRoot) && !IsOne(reference, provider, ReceiptsRoot);
    } else {
      assert differing[0] in differing;
    }
  }

  /** A divergence can be logged with nothing that differs: exactly when the blocks differ in their number
      alone. */
  lemma SilentDivergence(reference: Block, provider: Block)
    ensures Judge(Answers(Ok(Some(provider)), None, None), Expected(reference, None)).verdict == Divergence
            && reference == provider.(number := reference.number)
       <==> reference.number != provider.number && reference == provider.(number := reference.number)
  {
  }

  /* ---------- the sampled key ---------- */

  datatype SampleKey = SampleKey(key: Key, createdAt: nat, expiresAt: nat)

  /** A read pinned at `height` finds the entity. */
  predicate ExistsAt(key: SampleKey, height: nat) {
    key.createdAt <= height < key.expiresAt
  }

  /** Places in order, all of them below `n`. */
  ghost predicate RiseBelow(places: seq<nat>, n: nat) {
    (forall x, y :: 0 <= x < y < |places| ==> places[x] < places[y]) && forall x :: 0 <= x < |places| ==> places[x] < n
  }

  /** The places, among the first `n`, are those of the keys that exist at the height. */
  ghost predicate AreAlive(keys: seq<SampleKey>, n: nat, height: nat, places: seq<nat>)
    requires n <= |keys|
  {
    forall i: nat {:trigger i in places} :: i in places <==> i < n && keys[i].createdAt <= height < keys[i].expiresAt
  }

  /** One key to read this round: of those that exist at the height, the one `draw` falls on. */
  method PickKey(keys: seq<SampleKey>, height: nat, draw: nat) returns (picked: Option<Key>, ghost places: seq<nat>)
    ensures RiseBelow(places, |keys|) && AreAlive(keys, |keys|, height, places)
    ensures picked == if places == [] then None else Some(keys[places[draw % |places|]].key)
    ensures picked.None? <==> forall key :: key in keys ==> !(key.createdAt <= height < key.expiresAt)
  {
    var alive: seq<SampleKey> := [];
    places := [];
    hide RiseBelow, AreAlive, ExistsAt;
    NoPlaces(keys, height);
    for i := 0 to |keys|
      invariant KeysAt(keys, places, alive) && RiseBelow(places, i) && AreAlive(keys, i, height, places)
    {
      MorePlaces(keys, i, height, places);
      if ExistsAt(keys[i], height) { alive, places := alive + [keys[i]], places + [i]; }
    }
    NoKeyExists(keys, height, places);
    if |alive| == 0 { return None, places; }
    picked := Some(alive[draw % |alive|].key);
  }

  ghost predicate KeysAt(keys: seq<SampleKey>, places: seq<nat>, alive: seq<SampleKey>) {
    |alive| == |places| && forall x :: 0 <= x < |places| ==> places[x] < |keys| && alive[x] == keys[places[x]]
  }

  lemma NoPlaces(keys: seq<SampleKey>, height: nat)
    ensures RiseBelow([], 0) && AreAlive(keys, 0, height, [])
  {
  }

  lemma MorePlaces(keys: seq<SampleKey>, i: nat, height: nat, places: seq<nat>)
    requires i < |keys| && RiseBelow(places, i) && AreAlive(keys, i, height, places)
    ensures var after := if ExistsAt(keys[i], height) then places + [i] else places;
            RiseBelow(after, i + 1) && AreAlive(keys, i + 1, height, after)
  {
    RisesOn(places, i);
    hide RiseBelow;
    forall j: nat ensures j in places + [i] <==> j in places || j == i {}
  }

  lemma RisesOn(places: seq<nat>, i: nat)
    requires RiseBelow(places, i)
    ensures RiseBelow(places, i + 1) && RiseBelow(places + [i], i + 1)
  {
  }

  lemma NoKeyExists(keys: seq<SampleKey>, height: nat, places: seq<nat>)
    requires AreAlive(keys, |keys|, height, places)
    ensures places == [] <==> forall key :: key in keys ==> !(key.createdAt <= height < key.expiresAt)
  {
    if places != [] {
      assert places[0] in places;
      assert keys[places[0]] in keys;
    }
    if key :| key in keys && key.createdAt <= height < key.expiresAt {
      var i: nat :| i < |keys| && keys[i] == key;
      assert i in places;
    }
  }
}

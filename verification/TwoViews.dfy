/** One agent, seen twice: what it holds for counting and what it holds for slots are the same agreements, and
    adopting them is the counter protocol's own step. */
module TwoViews {
  import opened Basics
  import opened CounterRecords
  import opened CounterProtocol
  import opened CounterInvariant
  import opened CounterTheorems
  import Counting = CounterAgent
  import Slots

  /* ---------- what adopting comes to ---------- */

  ghost predicate OneRowAKey(rows: seq<Counting.AgreementRow>) {
    forall i, j :: 0 <= i < j < |rows| ==> rows[i].key != rows[j].key
  }

  predicate HasProvider(memory: Memory, provider: Address) {
    exists a :: a in memory.Keys && memory[a].terms.provider == provider
  }

  predicate SoleProvider(rows: seq<Counting.AgreementRow>, i: nat)
    requires i < |rows|
  {
    forall j :: 0 <= j < i ==> rows[j].terms.provider != rows[i].terms.provider
  }

  /** The rows of agreements in memory show the terms memory has of them. */
  ghost predicate TermsStand(memory: Memory, rows: seq<Counting.AgreementRow>) {
    forall i :: 0 <= i < |rows| && rows[i].key in memory ==> memory[rows[i].key].terms == rows[i].terms
  }

  /** What joins: an agreement new to memory, whose provider has no agreement there and no older row. */
  predicate Joins(memory: Memory, rows: seq<Counting.AgreementRow>, i: nat)
    requires i < |rows|
  {
    rows[i].key !in memory && !HasProvider(memory, rows[i].terms.provider) && SoleProvider(rows, i)
  }

  /** `after` is what memory had and, of the first `n` rows, exactly the ones that join, each with an empty entry. */
  ghost predicate AdoptedFrom(memory: Memory, rows: seq<Counting.AgreementRow>, n: nat, after: Memory)
    requires n <= |rows|
  {
    && (forall a :: a in memory ==> a in after && after[a] == memory[a])
    && (forall i :: 0 <= i < n && Joins(memory, rows, i) ==>
          rows[i].key in after && after[rows[i].key] == Live(rows[i].terms, 0, None))
    && (forall a :: a in after && a !in memory ==> exists i :: 0 <= i < n && Joins(memory, rows, i) && rows[i].key == a)
  }

  /** Adopting keeps what memory had, and adds exactly the rows that join. */
  lemma AdoptedExactly(memory: Memory, rows: seq<Counting.AgreementRow>)
    requires OneRowAKey(rows) && TermsStand(memory, rows)
    ensures AdoptedFrom(memory, rows, |rows|, Counting.AdoptedAll(memory, rows))
  {
    assert rows[..|rows|] == rows;
    AdoptedSome(memory, rows, |rows|);
  }

  lemma {:induction false} AdoptedSome(memory: Memory, rows: seq<Counting.AgreementRow>, n: nat)
    requires OneRowAKey(rows) && TermsStand(memory, rows) && n <= |rows|
    ensures AdoptedFrom(memory, rows, n, Counting.AdoptedAll(memory, rows[..n]))
  {
    if n > 0 {
      assert rows[..n][..n - 1] == rows[..n - 1];
      AdoptedSome(memory, rows, n - 1);
      AdoptedNext(memory, rows, n - 1, Counting.AdoptedAll(memory, rows[..n - 1]));
    }
  }

  lemma AdoptedNext(memory: Memory, rows: seq<Counting.AgreementRow>, n: nat, had: Memory)
    requires OneRowAKey(rows) && TermsStand(memory, rows) && n < |rows| && AdoptedFrom(memory, rows, n, had)
    ensures AdoptedFrom(memory, rows, n + 1,
                        if Counting.Adoptable(had, rows[n]) then had[rows[n].key := Live(rows[n].terms, 0, None)] else had)
  {
    if rows[n].key !in memory {
      assert forall i :: 0 <= i < n && Joins(memory, rows, i) ==> rows[i].key != rows[n].key;
      AdoptableIs(memory, rows, n, had);
    }
    hide Joins;
    assert rows[n].key in memory ==> !Joins(memory, rows, n) by { JoinsNew(memory, rows, n); }
  }

  lemma JoinsNew(memory: Memory, rows: seq<Counting.AgreementRow>, i: nat)
    requires i < |rows|
    ensures Joins(memory, rows, i) ==> rows[i].key !in memory
  {
  }

  lemma AdoptableIs(memory: Memory, rows: seq<Counting.AgreementRow>, n: nat, had: Memory)
    requires OneRowAKey(rows) && TermsStand(memory, rows) && n < |rows| && AdoptedFrom(memory, rows, n, had)
    requires rows[n].key !in memory && rows[n].key !in had
    ensures Counting.Adoptable(had, rows[n]) <==> Joins(memory, rows, n)
  {
    var provider := rows[n].terms.provider;
    if Joins(memory, rows, n) {
      forall a | a in had ensures had[a].terms.provider != provider {
        if a !in memory {
          var i :| 0 <= i < n && Joins(memory, rows, i) && rows[i].key == a;
        }
      }
    } else if HasProvider(memory, provider) {
      var a :| a in memory.Keys && memory[a].terms.provider == provider;
      assert a in had.Keys;
    } else {
      var j := FirstOf(rows, n, provider);
      assert rows[j].key in memory.Keys ==> HasProvider(memory, provider);
      assert Joins(memory, rows, j);
      assert rows[j].key in had.Keys;
    }
  }

  /** The oldest row of a provider. */
  lemma {:induction false} FirstOf(rows: seq<Counting.AgreementRow>, last: nat, provider: Address) returns (j: nat)
    requires last < |rows| && rows[last].terms.provider == provider
    ensures j <= last && rows[j].terms.provider == provider && SoleProvider(rows, j)
    ensures !SoleProvider(rows, last) ==> j < last
  {
    if SoleProvider(rows, last) {
      j := last;
    } else {
      var earlier :| 0 <= earlier < last && rows[earlier].terms.provider == provider;
      j := FirstOf(rows, earlier, provider);
    }
  }

  /* ---------- adopting is the protocol's step ---------- */

  /** The same world, but for what adopting changes. */
  ghost predicate OnlyAdopted(w: World, after: World, memory: Memory) {
    && after.memory == memory
    && after == w.(memory := after.memory, terms := after.terms, issued := after.issued)
  }

  ghost predicate NewTerms(w: World, rows: seq<Counting.AgreementRow>, after: World) {
    forall a :: a in after.terms ==> (a in w.terms && after.terms[a] == w.terms[a]) || exists i :: 0 <= i < |rows| && rows[i].key == a
  }

  /** One row more. */
  lemma AdoptsOne(w: World, had: World, rows: seq<Counting.AgreementRow>) returns (after: World)
    requires w.phase == Idle || w.phase == Ending
    requires rows != [] && OneRowAKey(rows) && Leads(w, had) && NewTerms(w, rows[..|rows| - 1], had)
    requires OnlyAdopted(w, had, Counting.AdoptedAll(w.memory, rows[..|rows| - 1]))
    requires var row := rows[|rows| - 1]; row.key !in w.ending && (row.key in w.terms ==> w.terms[row.key] == row.terms)
    ensures Leads(w, after) && OnlyAdopted(w, after, Counting.AdoptedAll(w.memory, rows)) && NewTerms(w, rows, after)
  {
    hide Leads;
    var row := rows[|rows| - 1];
    after := had;
    TermsKnown(w, had, rows);
    if Counting.Adoptable(had.memory, row) {
      Adopting(w, had, row.key, row.terms);
      after := Adopted(had, row.key, row.terms);
    }
  }

  lemma TermsKnown(w: World, had: World, rows: seq<Counting.AgreementRow>)
    requires rows != [] && OneRowAKey(rows) && NewTerms(w, rows[..|rows| - 1], had)
    ensures NewTerms(w, rows, had)
    ensures var row := rows[|rows| - 1]; NewTerms(w, rows, had.(terms := had.terms[row.key := row.terms]))
    ensures var row := rows[|rows| - 1];
            (row.key in w.terms ==> w.terms[row.key] == row.terms) && row.key in had.terms ==> had.terms[row.key] == row.terms
  {
    var before := rows[..|rows| - 1];
    assert forall i :: 0 <= i < |before| ==> rows[i] == before[i];
  }

  lemma Adopting(start: World, w: World, a: Key, terms: Terms)
    requires Leads(start, w) && (w.phase == Idle || w.phase == Ending) && a !in w.memory && a !in w.ending
    requires a in w.terms ==> w.terms[a] == terms
    ensures Leads(start, Adopted(w, a, terms))
  {
    Onward(start, w, Adopt(a, terms));
  }

  /** What the agent's loop does to memory, one adoption after another in the protocol does. */
  lemma {:induction false} AdoptsAre(w: World, rows: seq<Counting.AgreementRow>) returns (after: World)
    requires w.phase == Idle || w.phase == Ending
    requires OneRowAKey(rows)
    requires forall row :: row in rows ==> row.key !in w.ending && (row.key in w.terms ==> w.terms[row.key] == row.terms)
    ensures Leads(w, after) && OnlyAdopted(w, after, Counting.AdoptedAll(w.memory, rows)) && NewTerms(w, rows, after)
  {
    hide Leads;
    if rows == [] {
      Still(w);
      after := w;
    } else {
      assert rows[|rows| - 1] in rows;
      var had := AdoptsAre(w, rows[..|rows| - 1]);
      hide OnlyAdopted, NewTerms;
      after := AdoptsOne(w, had, rows);
    }
  }

  /* ---------- one memory, two views ---------- */

  /** Both views hold the same agreements, each with the same provider. */
  ghost predicate Same(memory: Memory, known: Slots.Agreements) {
    memory.Keys == known.Keys && forall a :: a in memory ==> memory[a].terms.provider == known[a].provider
  }

  ghost predicate SameRows(rows: seq<Counting.AgreementRow>, records: seq<Slots.AgreementRow>) {
    |rows| == |records|
    && forall i :: 0 <= i < |rows| ==> rows[i].key == records[i].key && rows[i].terms.provider == records[i].agreement.provider
  }

  lemma SameProviders(memory: Memory, known: Slots.Agreements, provider: Address)
    requires Same(memory, known)
    ensures provider in Slots.ProvidersOf(known) <==> exists a :: a in memory.Keys && memory[a].terms.provider == provider
  {
    if a :| a in known && known[a].provider == provider { assert a in memory.Keys; }
  }

  /** Adopting the rows of one page leaves both views the same. */
  lemma {:induction false} AdoptSame(memory: Memory, known: Slots.Agreements, rows: seq<Counting.AgreementRow>,
                                     records: seq<Slots.AgreementRow>)
    requires Same(memory, known) && SameRows(rows, records)
    ensures Same(Counting.AdoptedAll(memory, rows), Slots.Adopted(known, records))
  {
    if rows != [] {
      var last := |rows| - 1;
      AdoptSame(memory, known, rows[..last], records[..last]);
      var had, held := Counting.AdoptedAll(memory, rows[..last]), Slots.Adopted(known, records[..last]);
      SameProviders(had, held, rows[last].terms.provider);
    }
  }

  /** So does a whole reconcile: the agreements gone from the page end, and the rest are adopted. */
  lemma ReconcileSame(memory: Memory, known: Slots.Agreements, live: set<Key>, rows: seq<Counting.AgreementRow>,
                      records: seq<Slots.AgreementRow>)
    requires Same(memory, known) && SameRows(rows, records)
    ensures Same(Counting.AdoptedAll(memory - (memory.Keys - live), rows),
                 Slots.Adopted(map a | a in known && a in live :: known[a], records))
  {
    AdoptSame(memory - (memory.Keys - live), map a | a in known && a in live :: known[a], rows, records);
  }

  predicate MovesAgreements(step: Step) {
    step.Accept? || step.Adopt? || step.EndAgreements? || step.Crash?
  }

  /** Everything else the counter protocol does leaves the agreements and their providers as they are, and an
      acceptance adds to both views. */
  lemma StepSame(w: World, step: Step, known: Slots.Agreements)
    requires Enabled(w, step) && Same(w.memory, known)
    ensures !MovesAgreements(step) ==> Same(Apply(w, step).memory, known)
    ensures forall agreement: Slots.Agreement ::
              step.Accept? && agreement.provider == step.terms.provider ==> Same(Apply(w, step).memory, known[step.a := agreement])
  {
    hide Acknowledged, Hidden, LostWith, DoubledWith, CountOrders, ClosingsOf, Successors, LeftToBill;
    match step
    case Reconcile(open) => MatchedTerms(w.chain, open, w.memory);
    case EndPeriods => AcknowledgedTerms(w);
    case _ =>
  }

  lemma MatchedTerms(chain: Chain, open: map<Key, Key>, memory: Memory)
    ensures Reconciled(chain, open, memory).Keys == memory.Keys
    ensures forall a :: a in memory ==> Reconciled(chain, open, memory)[a].terms == memory[a].terms
  {
  }

  lemma AcknowledgedTerms(w: World)
    ensures PeriodsEnded(w).memory.Keys == w.memory.Keys
    ensures forall a :: a in w.memory ==> PeriodsEnded(w).memory[a].terms == w.memory[a].terms
  {
    hide Successors;
  }
}

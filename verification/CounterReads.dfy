/** Reading the open counter records: a page of them, split into the one each agreement counts into and
    the younger duplicates. */
module CounterReads {
  import opened CounterRecords
  import opened CounterProtocol
  import opened Basics
  import opened Sorting

  /** A record read from the chain, with its key. */
  datatype Row = Row(key: Key, stored: Stored)

  /** The page shows every open record of the chain once, and nothing else. */
  ghost predicate PageOf(chain: Chain, page: seq<Row>) {
    && (forall row :: row in page ==>
         row.key in chain && chain[row.key] == row.stored && row.stored.record.state == Open)
    && (forall k :: k in chain && chain[k].record.state == Open ==> Row(k, chain[k]) in page)
    && NoRepeats(page)
  }

  predicate Created(left: Row, right: Row) {
    left.stored.createdAt < right.stored.createdAt
    || (left.stored.createdAt == right.stored.createdAt && left.key <= right.key)
  }

  lemma CreatedIsOrder()
    ensures TotalOrder(Created)
  {
  }

  /** Each agreement's first record, in the order given. */
  function Firsts(rows: seq<Row>): map<Key, Row> {
    if rows == [] then map[]
    else
      var before, row := Firsts(rows[..|rows| - 1]), rows[|rows| - 1];
      if row.stored.record.agreement in before then before else before[row.stored.record.agreement := row]
  }

  /** The keys of the records that are nobody's first. */
  function Rest(rows: seq<Row>): seq<Key> {
    if rows == [] then []
    else
      var row := rows[|rows| - 1];
      Rest(rows[..|rows| - 1])
      + (if row.stored.record.agreement in Firsts(rows[..|rows| - 1]) then [row.key] else [])
  }

  ghost predicate KeysApart(rows: seq<Row>) {
    forall i, j :: 0 <= i < j < |rows| ==> rows[i].key != rows[j].key
  }

  lemma {:induction false} FirstsAre(rows: seq<Row>)
    ensures forall a :: a in Firsts(rows) ==> Firsts(rows)[a] in rows && Firsts(rows)[a].stored.record.agreement == a
    ensures forall row :: row in rows ==> row.stored.record.agreement in Firsts(rows)
  {
    if rows != [] {
      FirstsAre(rows[..|rows| - 1]);
      assert rows == rows[..|rows| - 1] + [rows[|rows| - 1]];
    }
  }

  lemma {:induction false} FirstsLead(rows: seq<Row>, le: (Row, Row) -> bool)
    requires Sorting.Sorted(rows, le) && (forall row :: le(row, row))
    ensures forall row :: row in rows ==>
              row.stored.record.agreement in Firsts(rows) && le(Firsts(rows)[row.stored.record.agreement], row)
  {
    FirstsAre(rows);
    if rows != [] {
      var before, last := rows[..|rows| - 1], rows[|rows| - 1];
      FirstsLead(before, le);
      FirstsAre(before);
      assert rows == before + [last];
    }
  }

  lemma {:induction false} RestFrom(rows: seq<Row>)
    ensures forall k :: k in Rest(rows) ==> exists row :: row in rows && row.key == k
  {
    if rows != [] {
      RestFrom(rows[..|rows| - 1]);
      assert rows == rows[..|rows| - 1] + [rows[|rows| - 1]];
    }
  }

  lemma LastKeyApart(rows: seq<Row>)
    requires KeysApart(rows) && rows != []
    ensures KeysApart(rows[..|rows| - 1]) && rows[|rows| - 1].key !in Rest(rows[..|rows| - 1])
    ensures forall row :: row in rows[..|rows| - 1] ==> row.key != rows[|rows| - 1].key
  {
    var before, last := rows[..|rows| - 1], rows[|rows| - 1];
    forall row | row in before ensures row.key != last.key {
      var i :| 0 <= i < |before| && before[i] == row;
      assert rows[i] == row;
    }
    RestFrom(before);
  }

  lemma {:induction false} RestApart(rows: seq<Row>)
    requires KeysApart(rows)
    ensures NoRepeats(Rest(rows))
  {
    if rows != [] {
      LastKeyApart(rows);
      RestApart(rows[..|rows| - 1]);
    }
  }

  /** One more record leaves every earlier one where it was. */
  lemma FirstsUnfold(before: seq<Row>, last: Row)
    ensures var after := Firsts(before + [last]);
            && (forall a :: a in Firsts(before) ==> a in after && after[a] == Firsts(before)[a])
            && (last.stored.record.agreement !in Firsts(before) ==>
                  last.stored.record.agreement in after && after[last.stored.record.agreement] == last)
  {
    assert (before + [last])[..|before|] == before;
  }

  lemma RestUnfold(before: seq<Row>, last: Row)
    ensures Rest(before + [last])
         == Rest(before) + (if last.stored.record.agreement in Firsts(before) then [last.key] else [])
  {
    assert (before + [last])[..|before|] == before;
  }

  lemma RestTellsLast(before: seq<Row>, last: Row)
    requires KeysApart(before + [last])
    ensures last.stored.record.agreement in Firsts(before + [last])
    ensures last.key in Rest(before + [last])
         <==> Firsts(before + [last])[last.stored.record.agreement].key != last.key
  {
    assert (before + [last])[..|before|] == before;
    LastKeyApart(before + [last]);
    FirstsAre(before);
    FirstsUnfold(before, last);
    RestUnfold(before, last);
  }

  /** Whether a record's key is among the rest: exactly when it is not its agreement's first. */
  lemma {:induction false} RestTells(rows: seq<Row>, row: Row)
    requires KeysApart(rows) && row in rows
    ensures row.stored.record.agreement in Firsts(rows)
    ensures row.key in Rest(rows) <==> Firsts(rows)[row.stored.record.agreement].key != row.key
  {
    var before, last := rows[..|rows| - 1], rows[|rows| - 1];
    assert rows == before + [last];
    if row in before {
      LastKeyApart(rows);
      RestTells(before, row);
      FirstsUnfold(before, last);
      RestUnfold(before, last);
    } else {
      RestTellsLast(before, last);
    }
  }

  lemma PageKeysApart(chain: Chain, records: seq<Row>, sorted: seq<Row>)
    requires PageOf(chain, records) && NoRepeats(sorted) && forall row :: row in sorted <==> row in records
    ensures KeysApart(sorted)
  {
    forall i, j | 0 <= i < j < |sorted| ensures sorted[i].key != sorted[j].key {
      assert sorted[i] in records && sorted[j] in records;
    }
  }

  /** What the split gives, on the chain: each agreement's oldest open record, and every other one's key. */
  ghost predicate SplitOf(chain: Chain, oldest: map<Key, Row>, duplicates: seq<Key>) {
    && (forall a :: a in oldest ==>
         oldest[a].key in chain && chain[oldest[a].key] == oldest[a].stored && IsOldest(chain, a, oldest[a].key))
    && (forall k :: k in chain && chain[k].record.state == Open ==> chain[k].record.agreement in oldest)
    && (forall k :: k in duplicates <==>
         k in chain && chain[k].record.state == Open
         && chain[k].record.agreement in oldest && k != oldest[chain[k].record.agreement].key)
    && NoRepeats(duplicates)
  }

  /** Splits open counter records into the one each agreement counts into and the keys of the rest. */
  method OldestPerAgreement(chain: Chain, records: seq<Row>) returns (oldest: map<Key, Row>, duplicates: seq<Key>)
    requires PageOf(chain, records)
    ensures SplitOf(chain, oldest, duplicates)
    ensures forall row :: row in records ==>
              row.stored.record.agreement in oldest && NoYounger(oldest[row.stored.record.agreement], row)
    ensures forall a :: a in oldest ==> oldest[a] in records && oldest[a].stored.record.agreement == a
    ensures forall k :: k in duplicates <==>
              exists row :: row in records && row.key == k && oldest[row.stored.record.agreement].key != k
  {
    var sorted := Sort(records, Created);
    oldest, duplicates := map[], [];
    for i := 0 to |sorted|
      invariant oldest == Firsts(sorted[..i]) && duplicates == Rest(sorted[..i])
    {
      var row := sorted[i];
      assert sorted[..i + 1][..i] == sorted[..i];
      if row.stored.record.agreement in oldest {
        duplicates := duplicates + [row.key];
      } else {
        oldest := oldest[row.stored.record.agreement := row];
      }
    }
    assert sorted[..|sorted|] == sorted;
    SplitIs(chain, records);
    SplitOfPage(chain, records, oldest, duplicates);
  }

  /** The first record was created in an earlier block, or in the same one with no greater key. */
  predicate NoYounger(first: Row, row: Row) {
    first.stored.createdAt < row.stored.createdAt || (first.stored.createdAt == row.stored.createdAt && first.key <= row.key)
  }

  lemma SplitOfPage(chain: Chain, records: seq<Row>, oldest: map<Key, Row>, duplicates: seq<Key>)
    requires PageOf(chain, records) && SplitOf(chain, oldest, duplicates)
    ensures forall row :: row in records ==>
              row.stored.record.agreement in oldest && NoYounger(oldest[row.stored.record.agreement], row)
    ensures forall a :: a in oldest ==> oldest[a] in records && oldest[a].stored.record.agreement == a
    ensures forall k :: k in duplicates <==>
              exists row :: row in records && row.key == k && oldest[row.stored.record.agreement].key != k
  {
    forall a | a in oldest ensures oldest[a] in records && oldest[a].stored.record.agreement == a {
      assert IsOldest(chain, a, oldest[a].key);
      assert oldest[a] == Row(oldest[a].key, chain[oldest[a].key]);
    }
    forall row | row in records
      ensures row.stored.record.agreement in oldest && NoYounger(oldest[row.stored.record.agreement], row)
    {
      var a := row.stored.record.agreement;
      assert IsOldest(chain, a, oldest[a].key) && OpenFor(chain, a, row.key);
    }
    forall k | k in duplicates
      ensures exists row :: row in records && row.key == k && oldest[row.stored.record.agreement].key != k
    {
      assert Row(k, chain[k]) in records;
    }
  }

  lemma SplitIs(chain: Chain, records: seq<Row>)
    requires PageOf(chain, records)
    ensures SplitOf(chain, Firsts(Sort(records, Created)), Rest(Sort(records, Created)))
  {
    var sorted := Sort(records, Created);
    CreatedIsOrder();
    SortPermutes(records, Created);
    SortMembers(records, Created);
    SortSorts(records, Created);
    NoRepeatsStays(records, sorted);
    PageKeysApart(chain, records, sorted);
    FirstsAre(sorted);
    FirstsLead(sorted, Created);
    OldestOnChain(chain, records, sorted, Firsts(sorted));
    forall row | row in sorted
      ensures row.stored.record.agreement in Firsts(sorted)
      ensures row.key in Rest(sorted) <==> Firsts(sorted)[row.stored.record.agreement].key != row.key
    {
      RestTells(sorted, row);
    }
    RestFrom(sorted);
    RestApart(sorted);
    RestOnChain(chain, records, sorted);
  }

  lemma RestOnChain(chain: Chain, records: seq<Row>, sorted: seq<Row>)
    requires PageOf(chain, records) && forall row :: row in sorted <==> row in records
    requires forall row :: row in sorted ==>
               row.stored.record.agreement in Firsts(sorted)
               && (row.key in Rest(sorted) <==> Firsts(sorted)[row.stored.record.agreement].key != row.key)
    requires forall k :: k in Rest(sorted) ==> exists row :: row in sorted && row.key == k
    ensures forall k :: k in Rest(sorted) <==>
              k in chain && chain[k].record.state == Open
              && chain[k].record.agreement in Firsts(sorted) && k != Firsts(sorted)[chain[k].record.agreement].key
  {
    forall k | k in chain && chain[k].record.state == Open ensures Row(k, chain[k]) in sorted {}
  }

  /** The first record of an agreement, by creation, is its oldest open one on the chain. */
  lemma OldestOnChain(chain: Chain, records: seq<Row>, sorted: seq<Row>, oldest: map<Key, Row>)
    requires PageOf(chain, records) && forall row :: row in sorted <==> row in records
    requires forall a :: a in oldest ==> oldest[a] in sorted && oldest[a].stored.record.agreement == a
    requires forall row :: row in sorted ==>
               row.stored.record.agreement in oldest && Created(oldest[row.stored.record.agreement], row)
    ensures forall a :: a in oldest ==> IsOldest(chain, a, oldest[a].key)
    ensures forall k :: k in chain && chain[k].record.state == Open ==> chain[k].record.agreement in oldest
  {
    forall a | a in oldest ensures IsOldest(chain, a, oldest[a].key) {
      forall other | OpenFor(chain, a, other) ensures other == oldest[a].key || Before(chain, oldest[a].key, other) {
        assert Row(other, chain[other]) in sorted;
      }
    }
    forall k | k in chain && chain[k].record.state == Open ensures chain[k].record.agreement in oldest {
      assert Row(k, chain[k]) in sorted;
    }
  }
}

/** Reading every page of a query, in key order, while the set behind it changes. */
module Pages {
  import opened Basics

  const KEYS: nat := TWO_TO_256

  /** A key is 32 bytes. */
  type PageKey = k: nat | k < KEYS witness 0

  datatype PageRow<V> = PageRow(key: PageKey, value: V)

  datatype PageFault = Unread | OutOfOrder

  /** What the node answers to read number `n`, for the rows after a key; `None` when the read fails. */
  type PageNode<!V> = (nat, Option<PageKey>) -> Option<seq<PageRow<V>>>

  predicate After(k: nat, bound: Option<PageKey>) {
    bound.Some? ==> k > bound.value
  }

  ghost predicate Ascending<V>(rows: seq<PageRow<V>>) {
    forall i, j :: 0 <= i < j < |rows| ==> rows[i].key < rows[j].key
  }

  ghost predicate Above<V>(rows: seq<PageRow<V>>, bound: Option<PageKey>) {
    forall row :: row in rows ==> After(row.key, bound)
  }

  ghost predicate UpTo<V>(rows: seq<PageRow<V>>, bound: Option<PageKey>) {
    forall row :: row in rows ==> bound.Some? && row.key <= bound.value
  }

  ghost predicate HasKey<V>(rows: seq<PageRow<V>>, k: PageKey) {
    exists row :: row in rows && row.key == k
  }

  /** Whether each key of a page is above the one before it, the first above the bound. */
  method InOrder<V>(page: seq<PageRow<V>>, bound: Option<PageKey>) returns (ok: bool)
    ensures ok <==> Ascending(page) && Above(page, bound)
  {
    var previous := bound;
    for i := 0 to |page|
      invariant previous == if i == 0 then bound else Some(page[i - 1].key)
      invariant Ascending(page[..i]) && Above(page[..i], bound)
    {
      assert page[..i + 1] == page[..i] + [page[i]];
      if previous.Some? && page[i].key <= previous.value {
        NotInOrder(page, bound, i);
        return false;
      }
      StillInOrder(page[..i], bound, page[i]);
      previous := Some(page[i].key);
    }
    assert page[..|page|] == page;
    ok := true;
  }

  lemma NotInOrder<V>(page: seq<PageRow<V>>, bound: Option<PageKey>, i: nat)
    requires i < |page|
    requires if i == 0 then !After(page[0].key, bound) else page[i].key <= page[i - 1].key
    ensures !(Ascending(page) && Above(page, bound))
  {
    if i == 0 { assert page[0] in page; }
  }

  lemma StillInOrder<V>(before: seq<PageRow<V>>, bound: Option<PageKey>, row: PageRow<V>)
    requires Ascending(before) && Above(before, bound)
    requires if before == [] then After(row.key, bound) else before[|before| - 1].key < row.key
    ensures Ascending(before + [row]) && Above(before + [row], bound)
  {
    if before != [] { assert before[|before| - 1] in before; }
  }

  /* ---------- a node in order over a changing set ---------- */

  /** The page is the start of the rows alive after the bound, and empty only when there are none. */
  ghost predicate Prefix<V>(alive: map<PageKey, V>, bound: Option<PageKey>, page: seq<PageRow<V>>) {
    && Ascending(page) && Above(page, bound)
    && (forall row :: row in page ==> row.key in alive && alive[row.key] == row.value)
    && (page == [] ==> forall k :: k in alive ==> !After(k, bound))
    && (page != [] ==> forall k :: k in alive && After(k, bound) && k <= page[|page| - 1].key ==> HasKey(page, k))
  }

  /** The node answers every read, each time about the rows alive at that read. */
  ghost predicate Honest<V(!new)>(node: PageNode<V>, alive: nat -> map<PageKey, V>) {
    forall n, bound :: node(n, bound).Some? && Prefix(alive(n), bound, node(n, bound).value)
  }

  /** A row alive at each of the first reads. */
  ghost predicate Steady<V>(alive: nat -> map<PageKey, V>, times: nat, k: PageKey) {
    forall n: nat :: n < times ==> k in alive(n)
  }

  ghost predicate SeenAlive<V>(alive: nat -> map<PageKey, V>, times: nat, row: PageRow<V>) {
    exists n: nat :: n < times && row.key in alive(n) && alive(n)[row.key] == row.value
  }

  /** Every steady row up to the bound is read, and every row read was alive when it was. */
  ghost predicate Read<V(!new)>(alive: nat -> map<PageKey, V>, times: nat, bound: Option<PageKey>, rows: seq<PageRow<V>>) {
    && (forall k: PageKey :: Steady(alive, times, k) && !After(k, bound) ==> HasKey(rows, k))
    && forall row :: row in rows ==> SeenAlive(alive, times, row)
  }

  lemma ReadMore<V(!new)>(alive: nat -> map<PageKey, V>, times: nat, bound: Option<PageKey>, rows: seq<PageRow<V>>,
                          page: seq<PageRow<V>>)
    requires Read(alive, times, bound, rows) && Prefix(alive(times), bound, page) && page != []
    ensures Read(alive, times + 1, Some(page[|page| - 1].key), rows + page)
  {
    var next := page[|page| - 1].key;
    forall k: PageKey | Steady(alive, times + 1, k) && k <= next ensures HasKey(rows + page, k) {
      assert k in alive(times);
      if After(k, bound) {
        var row :| row in page && row.key == k;
        assert row in rows + page;
      } else {
        assert Steady(alive, times, k);
        var row :| row in rows && row.key == k;
        assert row in rows + page;
      }
    }
    forall row | row in rows + page ensures SeenAlive(alive, times + 1, row) {
      if row in rows {
        var n: nat :| n < times && row.key in alive(n) && alive(n)[row.key] == row.value;
      }
    }
  }

  lemma ReadAll<V(!new)>(alive: nat -> map<PageKey, V>, times: nat, bound: Option<PageKey>, rows: seq<PageRow<V>>)
    requires Read(alive, times, bound, rows) && Prefix(alive(times), bound, [])
    ensures forall k: PageKey :: Steady(alive, times + 1, k) ==> HasKey(rows, k)
    ensures forall row :: row in rows ==> SeenAlive(alive, times + 1, row)
  {
    forall k: PageKey | Steady(alive, times + 1, k) ensures HasKey(rows, k) {
      assert k in alive(times) && Steady(alive, times, k);
    }
    forall row | row in rows ensures SeenAlive(alive, times + 1, row) {
      var n: nat :| n < times && row.key in alive(n) && alive(n)[row.key] == row.value;
    }
  }

  lemma AscendingMore<V>(rows: seq<PageRow<V>>, bound: Option<PageKey>, page: seq<PageRow<V>>)
    requires Ascending(rows) && UpTo(rows, bound) && Ascending(page) && Above(page, bound) && page != []
    ensures Ascending(rows + page) && UpTo(rows + page, Some(page[|page| - 1].key))
  {
    var all := rows + page;
    forall i, j | 0 <= i < j < |all| ensures all[i].key < all[j].key {
      if i < |rows| && j >= |rows| { assert rows[i] in rows && page[j - |rows|] in page; }
    }
    assert page[|page| - 1] in page;
    forall row | row in all ensures row.key <= page[|page| - 1].key {
      if row in page {
        var i :| 0 <= i < |page| && page[i] == row;
      }
    }
  }

  /* ---------- what was read ---------- */

  /** The key read number `i` goes on from: the last one of the page before it. */
  ghost predicate From<V>(pages: seq<seq<PageRow<V>>>, i: nat, bound: Option<PageKey>)
    requires i <= |pages|
  {
    if i == 0 then bound == None
    else pages[i - 1] != [] && bound == Some(pages[i - 1][|pages[i - 1]| - 1].key)
  }

  /** These pages are what the node answered, each asked for after the last key of the one before. */
  ghost predicate Answered<V(!new)>(node: PageNode<V>, pages: seq<seq<PageRow<V>>>) {
    forall i :: 0 <= i < |pages| ==> AnsweredAt(node, pages, i)
  }

  ghost predicate AnsweredAt<V(!new)>(node: PageNode<V>, pages: seq<seq<PageRow<V>>>, i: nat)
    requires i < |pages|
  {
    exists bound :: From(pages, i, bound) && node(i, bound) == Some(pages[i])
  }

  /** None of the first `n` is empty, and each rises from above the key it was asked for after. */
  ghost predicate Rising<V>(pages: seq<seq<PageRow<V>>>, n: nat)
    requires n <= |pages|
  {
    forall i :: 0 <= i < n ==> pages[i] != [] && RisesAt(pages, i)
  }

  ghost predicate RisesAt<V>(pages: seq<seq<PageRow<V>>>, i: nat)
    requires i < |pages|
  {
    exists bound :: From(pages, i, bound) && Ascending(pages[i]) && Above(pages[i], bound)
  }

  /** The next read fails. */
  ghost predicate FailsNext<V(!new)>(node: PageNode<V>, pages: seq<seq<PageRow<V>>>) {
    exists bound :: From(pages, |pages|, bound) && node(|pages|, bound) == None
  }

  ghost predicate InSome<V>(pages: seq<seq<PageRow<V>>>, row: PageRow<V>) {
    exists i :: 0 <= i < |pages| && row in pages[i]
  }

  ghost predicate Joins<V(!new)>(pages: seq<seq<PageRow<V>>>, rows: seq<PageRow<V>>) {
    forall row :: row in rows <==> InSome(pages, row)
  }

  lemma FromStays<V>(pages: seq<seq<PageRow<V>>>, page: seq<PageRow<V>>)
    ensures forall i: nat, bound :: i <= |pages| ==> (From(pages + [page], i, bound) <==> From(pages, i, bound))
    ensures page != [] ==> From(pages + [page], |pages| + 1, Some(page[|page| - 1].key))
  {
    forall i: nat, bound | i <= |pages| ensures From(pages + [page], i, bound) <==> From(pages, i, bound) {
      if i > 0 { assert (pages + [page])[i - 1] == pages[i - 1]; }
    }
  }

  lemma OnlyOneBound<V>(pages: seq<seq<PageRow<V>>>, i: nat, left: Option<PageKey>, right: Option<PageKey>)
    requires i <= |pages| && From(pages, i, left) && From(pages, i, right)
    ensures left == right
  {
  }

  lemma AnsweredMore<V(!new)>(node: PageNode<V>, pages: seq<seq<PageRow<V>>>, bound: Option<PageKey>, page: seq<PageRow<V>>)
    requires Answered(node, pages) && From(pages, |pages|, bound) && node(|pages|, bound) == Some(page)
    ensures Answered(node, pages + [page])
  {
    var all := pages + [page];
    FromStays(pages, page);
    hide From;
    forall i | 0 <= i < |all| ensures AnsweredAt(node, all, i) {
      if i < |pages| {
        assert AnsweredAt(node, pages, i);
        var b :| From(pages, i, b) && node(i, b) == Some(pages[i]);
        assert From(all, i, b) && all[i] == pages[i];
      } else {
        assert From(all, i, bound);
      }
    }
  }

  lemma RisingStays<V>(pages: seq<seq<PageRow<V>>>, bound: Option<PageKey>, page: seq<PageRow<V>>)
    requires Rising(pages, |pages|) && From(pages, |pages|, bound)
    ensures Rising(pages + [page], |pages|)
    ensures Ascending(page) && Above(page, bound) <==> RisesAt(pages + [page], |pages|)
  {
    var all := pages + [page];
    FromStays(pages, page);
    hide Ascending, Above;
    forall i | 0 <= i < |pages| ensures all[i] != [] && RisesAt(all, i) {
      assert RisesAt(pages, i);
      var b :| From(pages, i, b) && Ascending(pages[i]) && Above(pages[i], b);
      assert From(all, i, b);
    }
    assert From(all, |pages|, bound) && all[|pages|] == page;
    if RisesAt(all, |pages|) {
      var b :| From(all, |pages|, b) && Ascending(all[|pages|]) && Above(all[|pages|], b);
      OnlyOneBound(all, |pages|, b, bound);
    }
    if Ascending(page) && Above(page, bound) {
      assert From(all, |pages|, bound) && Ascending(all[|pages|]) && Above(all[|pages|], bound);
    }
  }

  lemma OnePageMore<V(!new)>(node: PageNode<V>, pages: seq<seq<PageRow<V>>>, bound: Option<PageKey>, rows: seq<PageRow<V>>,
                             page: seq<PageRow<V>>)
    requires Answered(node, pages) && Rising(pages, |pages|) && From(pages, |pages|, bound) && Joins(pages, rows)
    requires node(|pages|, bound) == Some(page)
    ensures Answered(node, pages + [page]) && Rising(pages + [page], |pages|) && Joins(pages + [page], rows + page)
    ensures Ascending(page) && Above(page, bound) <==> RisesAt(pages + [page], |pages|)
    ensures page != [] ==> From(pages + [page], |pages| + 1, Some(page[|page| - 1].key))
  {
    hide *;
    FromStays(pages, page);
    AnsweredMore(node, pages, bound, page);
    RisingStays(pages, bound, page);
    PageJoins(pages, rows, page);
  }

  lemma PageJoins<V(!new)>(pages: seq<seq<PageRow<V>>>, rows: seq<PageRow<V>>, page: seq<PageRow<V>>)
    requires Joins(pages, rows)
    ensures Joins(pages + [page], rows + page)
  {
    var all := pages + [page];
    forall row ensures row in rows + page <==> InSome(all, row) {
      if row in rows {
        var i :| 0 <= i < |pages| && row in pages[i];
        assert row in all[i];
      }
      if row in page { assert row in all[|pages|]; }
      if i :| 0 <= i < |all| && row in all[i] { if i < |pages| { assert row in pages[i]; } }
    }
  }

  /** Every page of a query, each page the rows after the last key read, until one comes back empty. Against any
      node it ends, with an error or with keys in strict order; against one that answers in order it misses no
      row that lives through the walk, whatever else comes and goes. */
  method EveryPage<V(!new)>(node: PageNode<V>, ghost alive: nat -> map<PageKey, V>)
    returns (answer: Result<seq<PageRow<V>>, PageFault>, ghost times: nat, ghost pages: seq<seq<PageRow<V>>>)
    ensures 1 <= times <= KEYS + 1
    ensures answer.Ok? ==> Ascending(answer.value)
    ensures Answered(node, pages) && |pages| <= times <= |pages| + 1
    ensures answer.Ok? <==> times == |pages| && pages[times - 1] == [] && Rising(pages, times - 1)
    ensures answer.Ok? ==> Joins(pages, answer.value)
    ensures answer == Err(Unread) <==> times == |pages| + 1 && Rising(pages, |pages|) && FailsNext(node, pages)
    ensures answer == Err(OutOfOrder) <==>
              times == |pages| && pages[times - 1] != [] && Rising(pages, times - 1) && !RisesAt(pages, times - 1)
    ensures Honest(node, alive) ==> answer.Ok?
    ensures Honest(node, alive) ==> forall k: PageKey :: Steady(alive, times, k) ==> HasKey(answer.value, k)
    ensures Honest(node, alive) ==> forall row :: row in answer.value ==> SeenAlive(alive, times, row)
  {
    hide Honest, Prefix, Read, Ascending, Above, UpTo, HasKey, Steady, SeenAlive, Answered, Rising, RisesAt, Joins, From;
    var rows: seq<PageRow<V>> := [];
    pages := [];
    var bound: Option<PageKey> := None;
    var n := 0;
    NothingRead(alive);
    NoPages(node);
    while true
      invariant Ascending(rows) && UpTo(rows, bound)
      invariant |pages| == n && Answered(node, pages) && Rising(pages, n) && From(pages, n, bound) && Joins(pages, rows)
      invariant Honest(node, alive) ==> Read(alive, n, bound, rows)
      invariant n <= if bound.None? then 0 else bound.value + 1
      decreases if bound.None? then KEYS else KEYS - 1 - bound.value
    {
      var page := node(n, bound);
      if Honest(node, alive) { HonestAt(node, alive, n, bound); }
      if page.None? { return Err(Unread), n + 1, pages; }
      OnePageMore(node, pages, bound, rows, page.value);
      if page.value == [] {
        if Honest(node, alive) { ReadAll(alive, n, bound, rows); }
        assert rows + [] == rows;
        return Ok(rows), n + 1, pages + [page.value];
      }
      if Honest(node, alive) { PrefixInOrder(alive(n), bound, page.value); }
      var ok := InOrder(page.value, bound);
      if !ok { return Err(OutOfOrder), n + 1, pages + [page.value]; }
      RisingMore(pages, page.value);
      if Honest(node, alive) { ReadMore(alive, n, bound, rows, page.value); }
      AscendingMore(rows, bound, page.value);
      LastAbove(page.value, bound);
      rows, bound, n := rows + page.value, Some(page.value[|page.value| - 1].key), n + 1;
      pages := pages + [page.value];
    }
  }

  lemma NothingRead<V(!new)>(alive: nat -> map<PageKey, V>)
    ensures Read(alive, 0, None, []) && Ascending<V>([]) && UpTo<V>([], None)
  {
  }

  lemma NoPages<V(!new)>(node: PageNode<V>)
    ensures Answered(node, []) && Rising<V>([], 0) && From<V>([], 0, None) && Joins<V>([], [])
  {
  }

  lemma RisingMore<V>(pages: seq<seq<PageRow<V>>>, page: seq<PageRow<V>>)
    requires page != [] && Rising(pages + [page], |pages|) && RisesAt(pages + [page], |pages|)
    ensures Rising(pages + [page], |pages| + 1)
  {
  }

  lemma HonestAt<V(!new)>(node: PageNode<V>, alive: nat -> map<PageKey, V>, n: nat, bound: Option<PageKey>)
    requires Honest(node, alive)
    ensures node(n, bound).Some? && Prefix(alive(n), bound, node(n, bound).value)
  {
  }

  lemma PrefixInOrder<V>(alive: map<PageKey, V>, bound: Option<PageKey>, page: seq<PageRow<V>>)
    requires Prefix(alive, bound, page)
    ensures Ascending(page) && Above(page, bound)
  {
  }

  lemma LastAbove<V>(page: seq<PageRow<V>>, bound: Option<PageKey>)
    requires Above(page, bound) && page != []
    ensures After(page[|page| - 1].key, bound)
  {
    assert page[|page| - 1] in page;
  }

  /** When nothing changes, what every page gives is the whole set, in key order. */
  lemma UnchangedIsWhole<V(!new)>(alive: nat -> map<PageKey, V>, times: nat, rows: seq<PageRow<V>>)
    requires (forall n: nat :: alive(n) == alive(0)) && times >= 1
    requires forall k: PageKey :: Steady(alive, times, k) ==> HasKey(rows, k)
    requires forall row :: row in rows ==> SeenAlive(alive, times, row)
    ensures forall row :: row in rows <==> row.key in alive(0) && alive(0)[row.key] == row.value
  {
    forall row | row in rows ensures row.key in alive(0) && alive(0)[row.key] == row.value {
      var n: nat :| n < times && row.key in alive(n) && alive(n)[row.key] == row.value;
    }
    forall k: PageKey | k in alive(0) ensures PageRow(k, alive(0)[k]) in rows {
      assert Steady(alive, times, k);
      var row :| row in rows && row.key == k;
      assert SeenAlive(alive, times, row);
    }
  }
}

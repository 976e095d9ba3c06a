/** Sending a batch: one transaction, halved as often as the node refuses it for its size. */
module Writer {

  /** What one call to the node came to. Only a refusal for size leads to a split. */
  datatype Outcome = Done | TooLarge | Refused | Unresolved

  /** A part as sent, with what came back. */
  datatype Sent<T> = Sent(batch: seq<T>, result: Outcome)

  /** The node's answer to call number `n`; it may answer the same batch differently each time. */
  type Node<!T> = (nat, seq<T>) -> Outcome

  /** What the whole exchange came to: the parts, and the calls made so far. */
  datatype Exchange<T> = Exchange(sent: seq<Sent<T>>, calls: nat)

  /** The meaning of a send, by halving: the first half to the end, then the second. */
  function Halved<T>(batch: seq<T>, node: Node<T>, calls: nat): Exchange<T>
    decreases |batch|
  {
    var result := node(calls, batch);
    if result == TooLarge && |batch| >= 2 then
      var half := |batch| / 2;
      var first := Halved(batch[..half], node, calls + 1);
      var second := Halved(batch[half..], node, first.calls);
      Exchange(first.sent + second.sent, second.calls)
    else Exchange([Sent(batch, result)], calls + 1)
  }

  /** The parts of a queue, each halved in turn. */
  function Drained<T>(queue: seq<seq<T>>, node: Node<T>, calls: nat): Exchange<T> {
    if queue == [] then Exchange([], calls)
    else
      var first := Halved(queue[0], node, calls);
      var rest := Drained(queue[1..], node, first.calls);
      Exchange(first.sent + rest.sent, rest.calls)
  }

  /** The operations a queue holds. */
  function Total<T>(queue: seq<seq<T>>): nat {
    if queue == [] then 0 else |queue[0]| + Total(queue[1..])
  }

  function Concat<T>(sent: seq<Sent<T>>): seq<T> {
    if sent == [] then [] else sent[0].batch + Concat(sent[1..])
  }

  /** Splits into two halves, in order; nothing when there is only one operation. */
  method Halves<T>(batch: seq<T>) returns (split: bool, first: seq<T>, second: seq<T>)
    ensures split <==> |batch| >= 2
    ensures split ==> first == batch[..|batch| / 2] && second == batch[|batch| / 2..] && first + second == batch
  {
    if |batch| < 2 { return false, [], []; }
    return true, batch[..|batch| / 2], batch[|batch| / 2..];
  }

  method Send<T>(batch: seq<T>, node: Node<T>) returns (sent: seq<Sent<T>>, calls: nat)
    ensures batch == [] ==> sent == [] && calls == 0
    ensures batch != [] ==> Exchange(sent, calls) == Halved(batch, node, 0)
    ensures batch != [] && node(0, batch) != TooLarge ==> sent == [Sent(batch, node(0, batch))] && calls == 1
  {
    hide Halved, Drained, Total;
    WholeWhenTaken(batch, node, 0);
    if batch == [] { return [], 0; }
    var queue := [batch];
    ghost var whole := Halved(batch, node, 0);
    DrainedOne(batch, node);
    sent := [];
    var n := 0;
    while queue != []
      invariant NoneEmpty(queue)
      invariant sent + Drained(queue, node, n).sent == whole.sent && Drained(queue, node, n).calls == whole.calls
      decreases Total(queue), Total(queue) - |queue|
    {
      var chunk, rest := queue[0], queue[1..];
      assert queue == [chunk] + rest;
      var result := node(n, chunk);
      TotalOne(chunk, rest);
      var split, first, second := Halves(chunk);
      if result == TooLarge && split {
        DrainedSplit(chunk, rest, node, n);
        TotalSplit(first, second, rest);
        queue, n := [first, second] + rest, n + 1;
        EachOne(queue);
      } else {
        DrainedKept(chunk, rest, node, n);
        assert sent + ([Sent(chunk, result)] + Drained(rest, node, n + 1).sent)
            == sent + [Sent(chunk, result)] + Drained(rest, node, n + 1).sent;
        sent, queue, n := sent + [Sent(chunk, result)], rest, n + 1;
      }
    }
    calls := n;
    DrainedNone(node, n);
    assert sent + [] == sent;
  }

  lemma WholeWhenTaken<T>(batch: seq<T>, node: Node<T>, calls: nat)
    ensures node(calls, batch) != TooLarge ==> Halved(batch, node, calls) == Exchange([Sent(batch, node(calls, batch))], calls + 1)
  {
  }

  ghost predicate NoneEmpty<T>(queue: seq<seq<T>>) {
    forall part :: part in queue ==> |part| > 0
  }

  lemma DrainedNone<T>(node: Node<T>, n: nat)
    ensures Drained<T>([], node, n) == Exchange([], n)
  {
  }

  lemma DrainedKept<T>(chunk: seq<T>, rest: seq<seq<T>>, node: Node<T>, n: nat)
    requires node(n, chunk) != TooLarge || |chunk| < 2
    ensures Drained([chunk] + rest, node, n)
         == Exchange([Sent(chunk, node(n, chunk))] + Drained(rest, node, n + 1).sent, Drained(rest, node, n + 1).calls)
  {
    assert ([chunk] + rest)[1..] == rest;
  }

  lemma TotalOne<T>(chunk: seq<T>, rest: seq<seq<T>>)
    ensures Total([chunk] + rest) == |chunk| + Total(rest)
  {
    assert ([chunk] + rest)[1..] == rest;
  }

  lemma DrainedOne<T>(batch: seq<T>, node: Node<T>)
    ensures Drained([batch], node, 0) == Halved(batch, node, 0)
  {
    var first := Halved(batch, node, 0);
    assert [batch][1..] == [];
    assert first.sent + [] == first.sent;
  }

  lemma TotalSplit<T>(first: seq<T>, second: seq<T>, queue: seq<seq<T>>)
    ensures Total([first, second] + queue) == |first| + |second| + Total(queue)
  {
    var all := [first, second] + queue;
    assert all[1..] == [second] + queue && all[1..][1..] == queue;
  }

  /** No part is empty, so there are at most as many parts as operations. */
  lemma {:induction false} EachOne<T>(queue: seq<seq<T>>)
    requires NoneEmpty(queue)
    ensures |queue| <= Total(queue)
  {
    if queue != [] {
      assert queue[0] in queue;
      EachOne(queue[1..]);
    }
  }

  lemma DrainedSplit<T>(chunk: seq<T>, queue: seq<seq<T>>, node: Node<T>, n: nat)
    requires node(n, chunk) == TooLarge && |chunk| >= 2
    ensures Drained([chunk[..|chunk| / 2], chunk[|chunk| / 2..]] + queue, node, n + 1) == Drained([chunk] + queue, node, n)
  {
    var one, two := chunk[..|chunk| / 2], chunk[|chunk| / 2..];
    var all := [one, two] + queue;
    assert all[1..] == [two] + queue && all[1..][1..] == queue && ([chunk] + queue)[1..] == queue;
    var first := Halved(one, node, n + 1);
    var second := Halved(two, node, first.calls);
    var rest := Drained(queue, node, second.calls);
    assert first.sent + (second.sent + rest.sent) == (first.sent + second.sent) + rest.sent;
  }

  /* ---------- what a send guarantees ---------- */

  lemma {:induction false} ConcatBoth<T>(left: seq<Sent<T>>, right: seq<Sent<T>>)
    ensures Concat(left + right) == Concat(left) + Concat(right)
  {
    if left == [] {
      assert left + right == right;
    } else {
      hide Concat;
      var first, rest := left[0], left[1..];
      ConcatBoth(rest, right);
      ConcatCons(first, rest);
      ConcatCons(first, rest + right);
      assert left == [first] + rest;
      assert left + right == [first] + (rest + right);
      Regroup(first.batch, Concat(rest), Concat(right));
    }
  }

  lemma Regroup<T>(one: seq<T>, two: seq<T>, three: seq<T>)
    ensures one + (two + three) == one + two + three
  {
  }

  lemma ConcatCons<T>(first: Sent<T>, rest: seq<Sent<T>>)
    ensures Concat([first] + rest) == first.batch + Concat(rest)
  {
    assert ([first] + rest)[1..] == rest;
  }

  lemma {:induction false} PartsJoin<T>(batch: seq<T>, node: Node<T>, calls: nat)
    ensures Concat(Halved(batch, node, calls).sent) == batch
    decreases |batch|
  {
    if node(calls, batch) == TooLarge && |batch| >= 2 {
      var half := |batch| / 2;
      var first := Halved(batch[..half], node, calls + 1);
      PartsJoin(batch[..half], node, calls + 1);
      PartsJoin(batch[half..], node, first.calls);
      ConcatBoth(first.sent, Halved(batch[half..], node, first.calls).sent);
      assert batch[..half] + batch[half..] == batch;
    } else {
      assert Concat([Sent(batch, node(calls, batch))]) == batch;
    }
  }

  lemma {:induction false} NoPartEmpty<T>(batch: seq<T>, node: Node<T>, calls: nat)
    requires batch != []
    ensures forall part :: part in Halved(batch, node, calls).sent ==>
              part.batch != [] && (part.result == TooLarge ==> |part.batch| == 1)
    decreases |batch|
  {
    if node(calls, batch) == TooLarge && |batch| >= 2 {
      var half := |batch| / 2;
      NoPartEmpty(batch[..half], node, calls + 1);
      NoPartEmpty(batch[half..], node, Halved(batch[..half], node, calls + 1).calls);
    }
  }

  /** The parts, in order, are the batch, none of them empty; only a single operation is ever reported too
      large; and there are at most two calls for an operation, less one. */
  lemma {:induction false} NothingLost<T>(batch: seq<T>, node: Node<T>, calls: nat)
    requires batch != []
    ensures var exchange := Halved(batch, node, calls);
            && Concat(exchange.sent) == batch
            && (forall part :: part in exchange.sent ==> part.batch != [] && (part.result == TooLarge ==> |part.batch| == 1))
            && exchange.calls - calls == 2 * |exchange.sent| - 1 && 1 <= |exchange.sent| <= |batch|
    decreases |batch|
  {
    PartsJoin(batch, node, calls);
    NoPartEmpty(batch, node, calls);
    hide Concat;
    if node(calls, batch) == TooLarge && |batch| >= 2 {
      var half := |batch| / 2;
      NothingLost(batch[..half], node, calls + 1);
      NothingLost(batch[half..], node, Halved(batch[..half], node, calls + 1).calls);
    }
  }

  /** Against a node that takes any batch up to a size and refuses all others for theirs: what fits is sent whole, and of
      what does not every part fits and is at least half of what would have. */
  lemma {:induction false} PartsFit<T(!new)>(batch: seq<T>, node: Node<T>, limit: nat, calls: nat)
    requires limit >= 1 && batch != [] && forall n: nat, part: seq<T> :: node(n, part) == TooLarge <==> |part| > limit
    ensures |batch| <= limit ==> Halved(batch, node, calls).sent == [Sent(batch, node(calls, batch))]
    ensures forall part :: part in Halved(batch, node, calls).sent ==>
              && part.result != TooLarge && |part.batch| <= limit
              && (|batch| > limit ==> 2 * |part.batch| >= limit)
    decreases |batch|
  {
    if |batch| > limit {
      var half := |batch| / 2;
      PartsFit(batch[..half], node, limit, calls + 1);
      PartsFit(batch[half..], node, limit, Halved(batch[..half], node, calls + 1).calls);
    }
  }

  /** Every result reported is what the node answered to that very part. */
  lemma {:induction false} ResultsAreAnswers<T>(batch: seq<T>, node: Node<T>, calls: nat, part: Sent<T>)
    requires part in Halved(batch, node, calls).sent
    ensures exists n: nat :: calls <= n < Halved(batch, node, calls).calls && node(n, part.batch) == part.result
    decreases |batch|
  {
    if node(calls, batch) == TooLarge && |batch| >= 2 {
      var half := |batch| / 2;
      var first := Halved(batch[..half], node, calls + 1);
      CallsGrow(batch[..half], node, calls + 1);
      CallsGrow(batch[half..], node, first.calls);
      if part in first.sent {
        ResultsAreAnswers(batch[..half], node, calls + 1, part);
      } else {
        ResultsAreAnswers(batch[half..], node, first.calls, part);
      }
    } else {
      assert node(calls, part.batch) == part.result;
    }
  }

  lemma {:induction false} CallsGrow<T>(batch: seq<T>, node: Node<T>, calls: nat)
    ensures Halved(batch, node, calls).calls > calls
    decreases |batch|
  {
    if node(calls, batch) == TooLarge && |batch| >= 2 {
      CallsGrow(batch[..|batch| / 2], node, calls + 1);
      CallsGrow(batch[|batch| / 2..], node, Halved(batch[..|batch| / 2], node, calls + 1).calls);
    }
  }

  ghost predicate SameSizes<T(!new)>(left: Node<T>, right: Node<T>) {
    forall n, batch :: left(n, batch) == TooLarge <==> right(n, batch) == TooLarge
  }

  ghost predicate SameParts<T>(left: seq<Sent<T>>, right: seq<Sent<T>>) {
    |left| == |right| && forall i :: 0 <= i < |left| ==> left[i].batch == right[i].batch
  }

  /** A part that fails, for anything but its size, changes nothing about the parts sent after it. */
  lemma {:induction false} FailuresStopNothing<T(!new)>(batch: seq<T>, left: Node<T>, right: Node<T>, calls: nat)
    requires SameSizes(left, right)
    ensures SameParts(Halved(batch, left, calls).sent, Halved(batch, right, calls).sent)
    ensures Halved(batch, left, calls).calls == Halved(batch, right, calls).calls
    decreases |batch|
  {
    if left(calls, batch) == TooLarge && |batch| >= 2 {
      var half := |batch| / 2;
      FailuresStopNothing(batch[..half], left, right, calls + 1);
      FailuresStopNothing(batch[half..], left, right, Halved(batch[..half], left, calls + 1).calls);
    }
  }
}

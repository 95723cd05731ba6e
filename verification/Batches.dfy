/** `buildTranslationBatches`: greedy packing of pending keys under an item cap and a character budget. */
module Batches {

  datatype Item = Item(cacheKey: string, key: string, text: string, textHash: string)

  type Batch = seq<Item>

  const MAX_BATCH_ITEMS := 20

  /** `estimateBatchChars`. */
  function EstimateBatchChars(items: Batch): nat {
    if items == [] then 2
    else EstimateBatchChars(items[..|items| - 1]) + |items[|items| - 1].key| + |items[|items| - 1].text| + 8
  }

  /** What the running counter charges: the estimate of the batch and two more for every item in it. */
  function Charge(batch: Batch): nat {
    EstimateBatchChars(batch) + 2 * |batch|
  }

  /** A batch the builder may emit; a single item is never too big. */
  predicate Fits(batch: Batch, budget: real) {
    && 1 <= |batch| <= MAX_BATCH_ITEMS
    && (|batch| > 1 ==> Charge(batch) as real <= budget)
  }

  function Flatten<T>(parts: seq<seq<T>>): seq<T> {
    if parts == [] then [] else parts[0] + Flatten(parts[1..])
  }

  ghost predicate Partition(parts: seq<Batch>, items: Batch, budget: real) {
    && Flatten(parts) == items
    && forall i :: 0 <= i < |parts| ==> Fits(parts[i], budget)
  }

  /** The first item of the next batch would break a limit of this one. */
  predicate Full(batch: Batch, next: Batch, budget: real) {
    next != [] && !Fits(batch + [next[0]], budget)
  }

  ghost predicate Greedy(parts: seq<Batch>, budget: real) {
    forall i, j :: 0 <= i && j == i + 1 < |parts| ==> Full(parts[i], parts[j], budget)
  }

  /** Adds one item to the last batch, or opens a new one when it would not fit. */
  function Place(parts: seq<Batch>, item: Item, budget: real): seq<Batch> {
    var n := |parts| - 1;
    if parts != [] && Fits(parts[n] + [item], budget) then parts[..n] + [parts[n] + [item]]
    else parts + [[item]]
  }

  function Pack(items: Batch, budget: real): seq<Batch> {
    if items == [] then [] else Place(Pack(items[..|items| - 1], budget), items[|items| - 1], budget)
  }

  method BuildTranslationBatches(items: Batch, budget: real) returns (batches: seq<Batch>)
    ensures batches == Pack(items, budget)
  {
    batches := [];
    var current: Batch := [];
    var currentChars: nat := 2;
    for i := 0 to |items|
      invariant Pack(items[..i], budget) == if i == 0 then [] else batches + [current]
      invariant i == 0 ==> batches == [] && current == []
      invariant i > 0 ==> 1 <= |current| <= MAX_BATCH_ITEMS
      invariant currentChars == Charge(current)
    {
      var item := items[i];
      var itemChars := EstimateBatchChars([item]);
      ChargeAdd(current, item);
      ChargeAdd([], item);
      assert items[..i + 1][..i] == items[..i];
      var wouldOverflow := |current| > 0 && (currentChars + itemChars) as real > budget;
      var reachedMaxItems := |current| >= MAX_BATCH_ITEMS;
      if wouldOverflow || reachedMaxItems {
        assert !Fits(current + [item], budget);
        batches := batches + [current];
        current := [];
        currentChars := 2;
      }
      current := current + [item];
      currentChars := currentChars + itemChars;
    }
    assert items[..|items|] == items;
    if |current| > 0 {
      batches := batches + [current];
    }
  }

  lemma ChargeAdd(batch: Batch, item: Item)
    ensures Charge(batch + [item]) == Charge(batch) + EstimateBatchChars([item])
    ensures EstimateBatchChars([item]) == 2 + |item.key| + |item.text| + 8
  {
  }

  lemma {:induction false} ChargeSplit(a: Batch, b: Batch)
    ensures Charge(a + b) == Charge(a) + Charge(b) - 2
    decreases |b|
  {
    if b == [] {
      assert a + b == a;
    } else {
      var n := |b| - 1;
      assert a + b == (a + b[..n]) + [b[n]];
      assert b == b[..n] + [b[n]];
      ChargeSplit(a, b[..n]);
      ChargeAdd(a + b[..n], b[n]);
      ChargeAdd(b[..n], b[n]);
    }
  }

  lemma {:induction false} FlattenSnoc<T>(parts: seq<seq<T>>, last: seq<T>)
    ensures Flatten(parts + [last]) == Flatten(parts) + last
  {
    if parts != [] {
      assert (parts + [last])[1..] == parts[1..] + [last];
      FlattenSnoc(parts[1..], last);
    }
  }

  /** The batches concatenate to the input in order, each keeps the limits, and all but the last are full. */
  lemma {:induction false} PackIsGreedyPartition(items: Batch, budget: real)
    ensures Partition(Pack(items, budget), items, budget)
    ensures Greedy(Pack(items, budget), budget)
    decreases |items|
  {
    if items != [] {
      var m := |items| - 1;
      var parts := Pack(items[..m], budget);
      PackIsGreedyPartition(items[..m], budget);
      PlaceKeeps(parts, items[..m], items[m], budget);
      assert items[..m] + [items[m]] == items;
    }
  }

  lemma PlaceKeeps(parts: seq<Batch>, items: Batch, item: Item, budget: real)
    requires Partition(parts, items, budget) && Greedy(parts, budget)
    ensures Partition(Place(parts, item, budget), items + [item], budget)
    ensures Greedy(Place(parts, item, budget), budget)
  {
    var n := |parts| - 1;
    if parts != [] && Fits(parts[n] + [item], budget) {
      assert parts == parts[..n] + [parts[n]];
      FlattenSnoc(parts[..n], parts[n]);
      FlattenSnoc(parts[..n], parts[n] + [item]);
    } else {
      FlattenSnoc(parts, [item]);
    }
  }

  /** Any non-empty stretch of a batch that fits also fits. */
  lemma FitsStretch(a: Batch, b: Batch, c: Batch, budget: real)
    requires Fits(a + b + c, budget) && b != []
    ensures Fits(b, budget)
  {
    ChargeSplit(a + b, c);
    ChargeSplit(a, b);
  }

  /** The first greedy batch reaches at least as far as a batch that started no later. */
  lemma GreedyReaches(g: Batch, next: Batch, more: Batch, skip: Batch, first: Batch, budget: real)
    requires Full(g, next, budget) && Fits(first, budget)
    requires |skip| < |first| && first <= skip + (g + (next + more))
    ensures |skip| + |g| >= |first|
  {
    if |skip| + |g| < |first| {
      var k := |skip| + |g| + 1;
      assert first == (skip + (g + (next + more)))[..|first|];
      assert first[..k] == skip + (g + [next[0]]);
      assert first == skip + (g + [next[0]]) + first[k..];
      FitsStretch(skip, g + [next[0]], first[k..], budget);
    }
  }

  /** Dropping a common prefix of two readings of the same sequence. */
  lemma DropPrefix<T>(a: seq<T>, b: seq<T>, c: seq<T>, d: seq<T>)
    requires a + b == c + d && |a| <= |c|
    ensures a <= c && b == c[|a|..] + d
  {
    assert a == (a + b)[..|a|] == (c + d)[..|a|] == c[..|a|];
    assert b == (a + b)[|a|..] == (c + d)[|a|..] == c[|a|..] + d;
  }

  /**
   Greedy stays ahead: a greedy partition of a tail of the items is no longer than any partition of
   all of them.  `skip` is what the other partition still covers before the tail starts.
   */
  lemma {:induction false} GreedyStaysAhead(greedy: seq<Batch>, other: seq<Batch>, skip: Batch, budget: real)
    requires Greedy(greedy, budget) && (forall i :: 0 <= i < |greedy| ==> Fits(greedy[i], budget))
    requires Partition(other, skip + Flatten(greedy), budget)
    ensures |greedy| <= |other|
    decreases |other|
  {
    if greedy != [] {
      var g, later := greedy[0], greedy[1..];
      assert |skip + Flatten(greedy)| > 0;
      var first, rest := other[0], other[1..];
      assert forall i :: 0 <= i < |rest| ==> Fits(rest[i], budget);
      if |first| <= |skip| {
        DropPrefix(first, Flatten(rest), skip, Flatten(greedy));
        GreedyStaysAhead(greedy, rest, skip[|first|..], budget);
      } else if later != [] {
        assert Full(greedy[0], greedy[1], budget);
        assert Flatten(greedy) == g + (later[0] + Flatten(later[1..]));
        GreedyReaches(g, later[0], Flatten(later[1..]), skip, first, budget);
        assert first + Flatten(rest) == (skip + g) + Flatten(later);
        DropPrefix(first, Flatten(rest), skip + g, Flatten(later));
        GreedyStaysAhead(later, rest, (skip + g)[|first|..], budget);
      }
    }
  }

  /** No contiguous partition within the same limits uses fewer batches than the builder. */
  lemma PackIsOptimal(items: Batch, other: seq<Batch>, budget: real)
    requires Partition(other, items, budget)
    ensures |Pack(items, budget)| <= |other|
  {
    PackIsGreedyPartition(items, budget);
    assert [] + items == items;
    GreedyStaysAhead(Pack(items, budget), other, [], budget);
  }

  /** The characters of a batch: keys and texts. */
  function Characters(batch: Batch): nat {
    if batch == [] then 0 else |batch[0].key| + |batch[0].text| + Characters(batch[1..])
  }

  lemma {:induction false} EstimateIs(batch: Batch)
    ensures EstimateBatchChars(batch) == 2 + Characters(batch) + 8 * |batch|
    decreases |batch|
  {
    if batch != [] {
      var n := |batch| - 1;
      EstimateIs(batch[..n]);
      CharactersLast(batch);
    }
  }

  lemma {:induction false} CharactersLast(batch: Batch)
    requires batch != []
    ensures Characters(batch) == Characters(batch[..|batch| - 1]) + |batch[|batch| - 1].key| + |batch[|batch| - 1].text|
    decreases |batch|
  {
    if |batch| > 1 {
      CharactersLast(batch[1..]);
      assert batch[1..][..|batch| - 2] == batch[..|batch| - 1][1..];
    }
  }

  /** In figures: 1 to 20 items, and with more than one at most the budget for 2 and, for each item, its characters and 10. */
  lemma LimitsInFigures(batch: Batch, budget: real)
    ensures Fits(batch, budget) <==>
      1 <= |batch| <= 20 && (|batch| > 1 ==> (2 + Characters(batch) + 10 * |batch|) as real <= budget)
  {
    EstimateIs(batch);
  }
}

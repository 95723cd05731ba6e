/**
 The label audit: a generator that pages through open items and yields them in work batches, and the
 loop that processes the items not yet in the saved state.
 */
module LabelBatches {
  import opened Text

  const WORK_BATCH_SIZE: nat := 500

  datatype Item = Item(number: nat, title: string)

  datatype Page = Page(nodes: seq<Item>, hasNextPage: bool)

  datatype Batch = Batch(batchIndex: nat, items: seq<Item>, fetchedCount: nat)

  /** `--limit` is any positive number, and unlimited when absent. */
  datatype Limit = Unlimited | AtMost(count: real)

  predicate Below(n: nat, limit: Limit) {
    limit.Unlimited? || n as real < limit.count
  }

  /** The limit rounded up. */
  function Ceiling(x: real): nat {
    if x <= 0.0 then 0 else if x.Floor as real == x then x.Floor else x.Floor + 1
  }

  function Cut(items: seq<Item>, limit: Limit): seq<Item> {
    if limit.Unlimited? || Ceiling(limit.count) >= |items| then items else items[..Ceiling(limit.count)]
  }

  /** The items of all pages up to the first one without a successor. */
  function AllItems(pages: seq<Page>): seq<Item> {
    if pages == [] then []
    else pages[0].nodes + (if pages[0].hasNextPage then AllItems(pages[1..]) else [])
  }

  function Concat(batches: seq<Batch>): seq<Item> {
    if batches == [] then [] else Concat(batches[..|batches| - 1]) + batches[|batches| - 1].items
  }

  /** Batches in order, full but for the last, non-empty, each with its number and the running count. */
  ghost predicate WorkBatches(batches: seq<Batch>, items: seq<Item>) {
    && Concat(batches) == items
    && (forall i :: 0 <= i < |batches| ==> 1 <= |batches[i].items| <= WORK_BATCH_SIZE && batches[i].batchIndex == i + 1)
    && (forall i :: 0 <= i < |batches| - 1 ==> |batches[i].items| == WORK_BATCH_SIZE)
    && (forall i :: 0 <= i < |batches| ==> batches[i].fetchedCount == |Concat(batches[..i + 1])|)
  }

  /** What the generator has yielded, with every batch full. */
  ghost predicate FullBatches(batches: seq<Batch>) {
    WorkBatches(batches, Concat(batches)) && forall i :: 0 <= i < |batches| ==> |batches[i].items| == WORK_BATCH_SIZE
  }

  lemma ConcatOne(batches: seq<Batch>, b: Batch)
    ensures Concat(batches + [b]) == Concat(batches) + b.items
  {
  }

  lemma CountsKept(batches: seq<Batch>, b: Batch)
    requires forall i :: 0 <= i < |batches| ==> batches[i].fetchedCount == |Concat(batches[..i + 1])|
    requires b.fetchedCount == |Concat(batches + [b])|
    ensures var more := batches + [b];
      forall i :: 0 <= i < |more| ==> more[i].fetchedCount == |Concat(more[..i + 1])|
  {
    hide Concat;
    var more := batches + [b];
    forall i | 0 <= i < |more| ensures more[i].fetchedCount == |Concat(more[..i + 1])| {
      if i < |batches| {
        assert more[..i + 1] == batches[..i + 1];
      } else {
        assert more[..i + 1] == more;
      }
    }
  }

  lemma YieldKeeps(batches: seq<Batch>, b: Batch)
    requires FullBatches(batches) && 1 <= |b.items| <= WORK_BATCH_SIZE
    requires b.batchIndex == |batches| + 1 && b.fetchedCount == |Concat(batches)| + |b.items|
    ensures WorkBatches(batches + [b], Concat(batches) + b.items)
    ensures |b.items| == WORK_BATCH_SIZE ==> FullBatches(batches + [b])
  {
    hide Concat;
    ConcatOne(batches, b);
    CountsKept(batches, b);
  }

  /** The generator between two items: full batches yielded, fewer than a batch collected, all within the limit. */
  ghost predicate Open(batches: seq<Batch>, results: seq<Item>, taken: seq<Item>, fetchedCount: nat, batchIndex: nat, limit: Limit) {
    && FullBatches(batches) && |results| < WORK_BATCH_SIZE
    && taken == Concat(batches) + results && fetchedCount == |taken| && batchIndex == |batches| + 1
    && Cut(taken, limit) == taken
  }

  lemma OpenAtStart(limit: Limit)
    ensures Open([], [], [], 0, 1, limit)
  {
    hide Cut;
    CutNothing(limit);
  }

  lemma CutNothing(limit: Limit)
    ensures Cut([], limit) == []
  {
  }

  lemma CollectMore(batches: seq<Batch>, results: seq<Item>, taken: seq<Item>, fetchedCount: nat, batchIndex: nat,
                    limit: Limit, item: Item)
    requires Open(batches, results, taken, fetchedCount, batchIndex, limit) && Below(fetchedCount, limit)
    requires |results| + 1 < WORK_BATCH_SIZE
    ensures Open(batches, results + [item], taken + [item], fetchedCount + 1, batchIndex, limit)
  {
  }

  lemma CollectLast(batches: seq<Batch>, results: seq<Item>, taken: seq<Item>, fetchedCount: nat, batchIndex: nat,
                    limit: Limit, item: Item)
    requires Open(batches, results, taken, fetchedCount, batchIndex, limit) && Below(fetchedCount, limit)
    requires |results| + 1 == WORK_BATCH_SIZE
    ensures Open(batches + [Batch(batchIndex, results + [item], fetchedCount + 1)], [], taken + [item],
                 fetchedCount + 1, batchIndex + 1, limit)
  {
    var b := Batch(batchIndex, results + [item], fetchedCount + 1);
    assert taken + [item] == Concat(batches) + (results + [item]);
    YieldKeeps(batches, b);
    ConcatOne(batches, b);
    assert Concat(batches + [b]) + [] == taken + [item];
  }

  lemma EndKeeps(batches: seq<Batch>, results: seq<Item>, taken: seq<Item>, fetchedCount: nat, batchIndex: nat, limit: Limit,
                 rest: seq<Item>)
    requires Open(batches, results, taken, fetchedCount, batchIndex, limit) && (Below(fetchedCount, limit) ==> rest == [])
    ensures var all := if |results| > 0 then batches + [Batch(batchIndex, results, fetchedCount)] else batches;
      Concat(all) == Cut(taken + rest, limit) && WorkBatches(all, Cut(taken + rest, limit))
  {
    if |results| > 0 {
      YieldKeeps(batches, Batch(batchIndex, results, fetchedCount));
    } else {
      assert Concat(batches) + [] == Concat(batches);
    }
  }

  /** The loop over the nodes of one page. */
  method CollectPage(nodes: seq<Item>, limit: Limit, batches0: seq<Batch>, results0: seq<Item>, fetchedCount0: nat,
                     batchIndex0: nat, ghost taken0: seq<Item>)
    returns (batches: seq<Batch>, results: seq<Item>, fetchedCount: nat, batchIndex: nat, ghost taken: seq<Item>, ghost used: nat)
    requires Open(batches0, results0, taken0, fetchedCount0, batchIndex0, limit)
    ensures Open(batches, results, taken, fetchedCount, batchIndex, limit)
    ensures used <= |nodes| && taken == taken0 + nodes[..used] && fetchedCount == fetchedCount0 + used
    ensures Below(fetchedCount, limit) ==> used == |nodes|
  {
    hide FullBatches, Cut;
    batches, results, fetchedCount, batchIndex, taken := batches0, results0, fetchedCount0, batchIndex0, taken0;
    used := 0;
    assert nodes[..0] == [] && taken0 + [] == taken0;
    for n := 0 to |nodes|
      invariant Open(batches, results, taken, fetchedCount, batchIndex, limit)
      invariant used == n && taken == taken0 + nodes[..n] && fetchedCount == fetchedCount0 + n
    {
      if !Below(fetchedCount, limit) {
        break;
      }
      if |results| + 1 < WORK_BATCH_SIZE {
        CollectMore(batches, results, taken, fetchedCount, batchIndex, limit, nodes[n]);
      } else {
        CollectLast(batches, results, taken, fetchedCount, batchIndex, limit, nodes[n]);
      }
      assert taken0 + nodes[..n + 1] == taken + [nodes[n]];
      taken := taken + [nodes[n]];
      used := n + 1;
      results := results + [nodes[n]];
      fetchedCount := fetchedCount + 1;
      if |results| >= WORK_BATCH_SIZE {
        batches := batches + [Batch(batchIndex, results, fetchedCount)];
        results := [];
        batchIndex := batchIndex + 1;
      }
    }
  }

  /** The pages reach as far as the generator asks: to a last page, or to one that fills the limit. */
  predicate Suffices(pages: seq<Page>, fetchedCount: nat, limit: Limit) {
    !Below(fetchedCount, limit) ||
    (pages != [] && (!pages[0].hasNextPage || Suffices(pages[1..], fetchedCount + |pages[0].nodes|, limit)))
  }

  /** Between two pages: what is taken and the rest are all items, and the rest is that of the pages to come. */
  ghost predicate Upcoming(pages: seq<Page>, page: nat, more: bool, fetchedCount: nat, taken: seq<Item>, rest: seq<Item>, limit: Limit) {
    && page <= |pages| && AllItems(pages) == taken + rest
    && (Below(fetchedCount, limit) ==> rest == if more then AllItems(pages[page..]) else [])
    && (more ==> Suffices(pages[page..], fetchedCount, limit))
  }

  lemma UpcomingAtStart(pages: seq<Page>, limit: Limit)
    requires Suffices(pages, 0, limit)
    ensures Upcoming(pages, 0, true, 0, [], AllItems(pages), limit)
  {
    assert pages[0..] == pages && [] + AllItems(pages) == AllItems(pages);
  }

  /** The part of a page beyond the limit, and the pages after it. */
  ghost function RestAfter(pages: seq<Page>, page: nat, used: nat): seq<Item>
    requires page < |pages| && used <= |pages[page].nodes|
  {
    pages[page].nodes[used..] + if pages[page].hasNextPage then AllItems(pages[page + 1..]) else []
  }

  lemma PageTaken(pages: seq<Page>, page: nat, used: nat, fetchedCount: nat, taken: seq<Item>, rest: seq<Item>, limit: Limit)
    requires Upcoming(pages, page, true, fetchedCount, taken, rest, limit) && Below(fetchedCount, limit)
    requires page < |pages| && used <= |pages[page].nodes|
    requires Below(fetchedCount + used, limit) ==> used == |pages[page].nodes|
    ensures Upcoming(pages, page + 1, pages[page].hasNextPage, fetchedCount + used, taken + pages[page].nodes[..used],
                     RestAfter(pages, page, used), limit)
  {
    hide AllItems, Suffices;
    PagesStep(pages, page, fetchedCount, limit);
    var nodes := pages[page].nodes;
    var later := if pages[page].hasNextPage then AllItems(pages[page + 1..]) else [];
    if !Below(fetchedCount + used, limit) { LimitReached(pages[page + 1..], fetchedCount + used, limit); }
  }

  lemma PagesStep(pages: seq<Page>, page: nat, fetchedCount: nat, limit: Limit)
    requires page < |pages|
    ensures AllItems(pages[page..]) == pages[page].nodes + (if pages[page].hasNextPage then AllItems(pages[page + 1..]) else [])
    ensures Suffices(pages[page..], fetchedCount, limit) && Below(fetchedCount, limit) && pages[page].hasNextPage ==>
      Suffices(pages[page + 1..], fetchedCount + |pages[page].nodes|, limit)
  {
    assert pages[page..][1..] == pages[page + 1..];
  }

  lemma LimitReached(pages: seq<Page>, fetchedCount: nat, limit: Limit)
    requires !Below(fetchedCount, limit)
    ensures Suffices(pages, fetchedCount, limit)
  {
  }

  lemma PageThere(pages: seq<Page>, page: nat, fetchedCount: nat, taken: seq<Item>, rest: seq<Item>, limit: Limit)
    requires Upcoming(pages, page, true, fetchedCount, taken, rest, limit) && Below(fetchedCount, limit)
    ensures page < |pages|
  {
  }

  method FetchOpenLabelItemBatches(pages: seq<Page>, limit: Limit) returns (batches: seq<Batch>)
    requires Suffices(pages, 0, limit)
    ensures Concat(batches) == Cut(AllItems(pages), limit)
    ensures WorkBatches(batches, Cut(AllItems(pages), limit))
  {
    hide Open, WorkBatches, Cut, Upcoming, AllItems, Suffices;
    batches := [];
    var results: seq<Item> := [];
    var fetchedCount: nat := 0;
    var batchIndex: nat := 1;
    var page := 0;
    var more := true;
    ghost var taken: seq<Item>, used := [], 0;
    ghost var rest := AllItems(pages);
    OpenAtStart(limit);
    UpcomingAtStart(pages, limit);
    while more && Below(fetchedCount, limit)
      invariant Open(batches, results, taken, fetchedCount, batchIndex, limit)
      invariant page <= |pages| && Upcoming(pages, page, more, fetchedCount, taken, rest, limit)
      decreases |pages| - page
    {
      PageThere(pages, page, fetchedCount, taken, rest, limit);
      var pageData := pages[page];
      ghost var before, count := taken, fetchedCount;
      batches, results, fetchedCount, batchIndex, taken, used :=
        CollectPage(pageData.nodes, limit, batches, results, fetchedCount, batchIndex, taken);
      PageTaken(pages, page, used, count, before, rest, limit);
      rest := RestAfter(pages, page, used);
      more := pageData.hasNextPage;
      page := page + 1;
    }
    UpcomingAtEnd(pages, page, more, fetchedCount, taken, rest, limit);
    EndKeeps(batches, results, taken, fetchedCount, batchIndex, limit, rest);
    if |results| > 0 {
      batches := batches + [Batch(batchIndex, results, fetchedCount)];
    }
  }

  lemma UpcomingAtEnd(pages: seq<Page>, page: nat, more: bool, fetchedCount: nat, taken: seq<Item>, rest: seq<Item>, limit: Limit)
    requires Upcoming(pages, page, more, fetchedCount, taken, rest, limit) && !(more && Below(fetchedCount, limit))
    ensures AllItems(pages) == taken + rest && (Below(fetchedCount, limit) ==> rest == [])
  {
  }

  // ---- processing ----

  datatype Tally = Tally(state: set<nat>, scanned: nat, processed: nat, skipped: nat, saved: Option<set<nat>>)

  function Numbers(items: seq<Item>): set<nat> {
    set i | 0 <= i < |items| :: items[i].number
  }

  function PendingItems(items: seq<Item>, state: set<nat>): (pending: seq<Item>)
    ensures |pending| <= |items|
  {
    if items == [] then []
    else
      var rest := PendingItems(items[..|items| - 1], state);
      var last := items[|items| - 1];
      if last.number in state then rest else rest + [last]
  }

  function ProcessBatch(t: Tally, items: seq<Item>, dryRun: bool): Tally {
    var pending := PendingItems(items, t.state);
    var state := t.state + Numbers(pending);
    Tally(state, t.scanned + |items|, t.processed + |pending|, t.skipped + (|items| - |pending|),
          if !dryRun && |pending| > 0 then Some(state) else t.saved)
  }

  function ProcessAll(t: Tally, batches: seq<Batch>, dryRun: bool): Tally {
    if batches == [] then t
    else ProcessBatch(ProcessAll(t, batches[..|batches| - 1], dryRun), batches[|batches| - 1].items, dryRun)
  }

  /** The loop over the pending items of a batch. */
  method ProcessPending(pending: seq<Item>, known: set<nat>) returns (state: set<nat>, processed: nat)
    ensures state == known + Numbers(pending) && processed == |pending|
  {
    state, processed := known, 0;
    for i := 0 to |pending|
      invariant state == known + Numbers(pending[..i]) && processed == i
    {
      NumbersAppend(pending[..i], pending[i]);
      assert pending[..i + 1] == pending[..i] + [pending[i]];
      state := state + {pending[i].number};
      processed := processed + 1;
    }
    assert pending[..|pending|] == pending;
  }

  method ProcessItems(batches: seq<Batch>, initial: set<nat>, dryRun: bool) returns (t: Tally)
    ensures t == ProcessAll(Tally(initial, 0, 0, 0, None), batches, dryRun)
  {
    t := Tally(initial, 0, 0, 0, None);
    for b := 0 to |batches|
      invariant t == ProcessAll(Tally(initial, 0, 0, 0, None), batches[..b], dryRun)
    {
      assert batches[..b + 1][..b] == batches[..b];
      var items := batches[b].items;
      var pending := PendingItems(items, t.state);
      var state, processed := ProcessPending(pending, t.state);
      var saved := if !dryRun && |pending| > 0 then Some(state) else t.saved;
      t := Tally(state, t.scanned + |items|, t.processed + processed, t.skipped + (|items| - |pending|), saved);
    }
    assert batches[..|batches|] == batches;
  }

  lemma NumbersAppend(items: seq<Item>, item: Item)
    ensures Numbers(items + [item]) == Numbers(items) + {item.number}
  {
    var more := items + [item];
    assert more[|items|] == item;
    forall k | k in Numbers(items) ensures k in Numbers(more) {
      var i :| 0 <= i < |items| && items[i].number == k;
      assert more[i].number == k;
    }
  }

  lemma {:induction false} NumbersConcat(a: seq<Item>, b: seq<Item>)
    ensures Numbers(a + b) == Numbers(a) + Numbers(b)
    decreases |b|
  {
    if b == [] {
      assert a + b == a;
    } else {
      var n := |b| - 1;
      assert a + b == (a + b[..n]) + [b[n]];
      assert b == b[..n] + [b[n]];
      NumbersConcat(a, b[..n]);
      NumbersAppend(a + b[..n], b[n]);
      NumbersAppend(b[..n], b[n]);
    }
  }

  /** The pending items are those whose number is not in the state. */
  lemma {:induction false} PendingFacts(items: seq<Item>, state: set<nat>)
    ensures Numbers(PendingItems(items, state)) == Numbers(items) - state
    ensures |PendingItems(items, state)| <= |items|
    ensures Numbers(items) <= state <==> PendingItems(items, state) == []
    decreases |items|
  {
    if items != [] {
      var n := |items| - 1;
      PendingFacts(items[..n], state);
      NumbersAppend(items[..n], items[n]);
      assert items == items[..n] + [items[n]];
      if items[n].number !in state {
        NumbersAppend(PendingItems(items[..n], state), items[n]);
      }
    }
  }

  /**
   Over a full run every scanned item is either processed or skipped, the final state is the initial one
   plus all scanned numbers, and whatever was saved last is that final state.
   */
  lemma {:induction false} RunAccounts(initial: set<nat>, batches: seq<Batch>, dryRun: bool)
    ensures var t := ProcessAll(Tally(initial, 0, 0, 0, None), batches, dryRun);
      && t.scanned == t.processed + t.skipped == |Concat(batches)|
      && t.state == initial + Numbers(Concat(batches))
      && (t.saved.Some? <==> !dryRun && t.processed > 0)
      && (t.saved.Some? ==> t.saved.value == t.state)
    decreases |batches|
  {
    if batches != [] {
      var n := |batches| - 1;
      RunAccounts(initial, batches[..n], dryRun);
      var t := ProcessAll(Tally(initial, 0, 0, 0, None), batches[..n], dryRun);
      PendingFacts(batches[n].items, t.state);
      NumbersConcat(Concat(batches[..n]), batches[n].items);
    }
  }

  lemma {:induction false} KnownAreSkipped(state: set<nat>, batches: seq<Batch>, dryRun: bool)
    requires Numbers(Concat(batches)) <= state
    ensures ProcessAll(Tally(state, 0, 0, 0, None), batches, dryRun) == Tally(state, |Concat(batches)|, 0, |Concat(batches)|, None)
    decreases |batches|
  {
    if batches != [] {
      var n := |batches| - 1;
      NumbersConcat(Concat(batches[..n]), batches[n].items);
      KnownAreSkipped(state, batches[..n], dryRun);
      PendingFacts(batches[n].items, state);
      assert state + Numbers([]) == state;
    }
  }

  /** Resuming from the state saved by a run over the same items classifies nothing again. */
  lemma ResumeProcessesNothing(initial: set<nat>, batches: seq<Batch>, again: seq<Batch>)
    requires Concat(again) == Concat(batches)
    requires ProcessAll(Tally(initial, 0, 0, 0, None), batches, false).saved.Some?
    ensures var saved := ProcessAll(Tally(initial, 0, 0, 0, None), batches, false).saved.value;
      ProcessAll(Tally(saved, 0, 0, 0, None), again, false).processed == 0
      && ProcessAll(Tally(saved, 0, 0, 0, None), again, false).state == saved
  {
    RunAccounts(initial, batches, false);
    KnownAreSkipped(ProcessAll(Tally(initial, 0, 0, 0, None), batches, false).saved.value, again, false);
  }

  // ---- limits and pending items ----

  /** The limit rounded up is the number of items below the limit. */
  lemma CeilingExactly(n: nat, x: real)
    ensures n < Ceiling(x) <==> n as real < x
  {
  }

  /** The pending items are the items whose number is not in the state, in their order. */
  lemma {:induction false} PendingIsFilter(items: seq<Item>, state: set<nat>)
    ensures items == [] ==> PendingItems(items, state) == []
    ensures items != [] ==> PendingItems(items, state) == (if items[0].number in state then [] else [items[0]]) + PendingItems(items[1..], state)
    decreases |items|
  {
    if |items| > 1 {
      var n := |items| - 1;
      assert items[..n][1..] == items[1..][..n - 1] && items[..n][0] == items[0];
      PendingIsFilter(items[..n], state);
    }
  }

  /** In figures: all batches but the last hold 500 items, the last one to 500. */
  lemma BatchesInFigures(batches: seq<Batch>, items: seq<Item>, i: nat)
    requires WorkBatches(batches, items) && i < |batches|
    ensures if i + 1 < |batches| then |batches[i].items| == 500 else 1 <= |batches[i].items| <= 500
  {
  }

  /** A limit cuts the items off where the number of those before reaches it. */
  lemma CutExactly(items: seq<Item>, limit: Limit, i: nat)
    ensures Cut(items, limit) <= items
    ensures i < |Cut(items, limit)| <==> i < |items| && (limit.Unlimited? || i as real < limit.count)
  {
  }

  /** The items are those of all pages up to the first one without a successor. */
  lemma {:induction false} LastPageEnds(pages: seq<Page>, last: Page, rest: seq<Page>)
    requires (forall i :: 0 <= i < |pages| ==> pages[i].hasNextPage) && !last.hasNextPage
    ensures AllItems(pages + [last] + rest) == AllItems(pages) + last.nodes
    ensures pages != [] ==> AllItems(pages) == pages[0].nodes + AllItems(pages[1..])
    decreases |pages|
  {
    if pages == [] {
      assert pages + [last] + rest == [last] + rest;
    } else {
      LastPageEnds(pages[1..], last, rest);
      assert (pages + [last] + rest)[1..] == pages[1..] + [last] + rest;
    }
  }
}

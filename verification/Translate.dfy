/**
 `translateBatch`: two attempts per batch, a client reset after every failure, and a recursive binary
 split when a batch times out.  What the prompts answer is an arbitrary function `o` of their number.
 */
module Translate {
  import opened Text
  import opened Batches

  const MAX_ATTEMPTS: nat := 2

  datatype JsonValue = JsonString(text: string) | OtherJson

  /** What awaiting one prompt and parsing its text gives: an error message or the fields of an object. */
  datatype Outcome = Failed(message: string) | Reply(fields: map<string, JsonValue>)

  datatype Result = Done(translated: map<string, string>) | Fail(message: string)

  /** `isPromptTimeoutError`: any error whose message mentions a time-out. */
  predicate IsTimeout(message: string) {
    Contains(LowerAll(message), "timed out")
  }

  predicate Translated(fields: map<string, JsonValue>, key: string) {
    key in fields && fields[key].JsonString? && !Blank(fields[key].text)
  }

  /** The check of a parsed reply: the first key without a non-blank string is an error. */
  function Collect(items: Batch, fields: map<string, JsonValue>): Result {
    if items == [] then Done(map[])
    else if !Translated(fields, items[0].key) then Fail("missing translation for " + items[0].key)
    else
      match Collect(items[1..], fields)
      case Fail(message) => Fail(message)
      case Done(rest) => Done(map[items[0].key := fields[items[0].key].text] + rest)
  }

  function Attempt(items: Batch, outcome: Outcome): Result {
    match outcome
    case Failed(message) => Fail(message)
    case Reply(fields) => Collect(items, fields)
  }

  /** What the batch does to its client: prompt number `at`, or a reset. */
  datatype Op = Sent(at: nat, items: Batch, ok: bool) | Reset

  /** `next` is the number of the first prompt not used. */
  datatype Translation = Translation(result: Result, next: nat, depth: nat, trace: seq<Op>)

  function AfterFailure(at: nat, items: Batch, t: Translation): Translation {
    t.(trace := [Sent(at, items, false), Reset] + t.trace)
  }

  function Midpoint(items: Batch): nat {
    (|items| + 1) / 2
  }

  function Max(a: nat, b: nat): nat {
    if a < b then b else a
  }

  function Both(left: Translation, right: Translation): Translation
    requires left.result.Done?
  {
    Translation(
      if right.result.Fail? then right.result else Done(left.result.translated + right.result.translated),
      right.next, 1 + Max(left.depth, right.depth), left.trace + right.trace)
  }

  function TranslateFrom(o: nat -> Outcome, at: nat, items: Batch, attempt: nat): Translation
    requires attempt < MAX_ATTEMPTS
    decreases |items|, MAX_ATTEMPTS - attempt
  {
    match Attempt(items, o(at))
    case Done(translated) => Translation(Done(translated), at + 1, 0, [Sent(at, items, true)])
    case Fail(message) =>
      AfterFailure(at, items,
        if IsTimeout(message) && |items| > 1 then
          var left := TranslateFrom(o, at + 1, items[..Midpoint(items)], 0);
          if left.result.Fail? then left.(depth := left.depth + 1)
          else Both(left, TranslateFrom(o, left.next, items[Midpoint(items)..], 0))
        else if IsTimeout(message) || attempt + 1 == MAX_ATTEMPTS then
          Translation(Fail(message), at + 1, 0, [])
        else TranslateFrom(o, at + 1, items, attempt + 1))
  }

  function Translate(o: nat -> Outcome, at: nat, items: Batch): Translation {
    TranslateFrom(o, at, items, 0)
  }

  // ---- the program ----

  class ClientAccess {
    const outcomes: nat -> Outcome
    var position: nat
    var client: Option<nat>     // the process in use
    var created: nat
    var log: seq<Op>

    constructor (outcomes: nat -> Outcome)
      ensures this.outcomes == outcomes && position == 0 && client == None && log == []
    {
      this.outcomes := outcomes;
      position, client, created, log := 0, None, 0, [];
    }

    method GetClient() returns (process: nat)
      modifies `client, `created
      ensures client == Some(process)
      ensures old(client.Some?) ==> client == old(client) && created == old(created)
      ensures old(client.None?) ==> process == old(created) && created == process + 1
    {
      if client == None {
        client := Some(created);
        created := created + 1;
      }
      process := client.value;
    }

    method Prompt(items: Batch) returns (r: Result)
      requires client.Some?
      modifies `position, `log
      ensures r == Attempt(items, outcomes(old(position))) && position == old(position) + 1
      ensures log == old(log) + [Sent(old(position), items, r.Done?)]
    {
      r := Attempt(items, outcomes(position));
      log := log + [Sent(position, items, r.Done?)];
      position := position + 1;
    }

    method ResetClient()
      modifies `client, `log
      ensures client == None
      ensures log == if old(client.Some?) then old(log) + [Reset] else old(log)
    {
      if client == None {
        return;
      }
      client := None;
      log := log + [Reset];
    }
  }

  method TranslateBatch(access: ClientAccess, items: Batch) returns (r: Result)
    modifies access
    ensures var t := Translate(access.outcomes, old(access.position), items);
      r == t.result && access.position == t.next && access.log == old(access.log) + t.trace
    ensures r.Fail? ==> access.client == None
    decreases |items|
  {
    hide TranslateFrom, Attempt, IsTimeout;
    ghost var o := access.outcomes;
    ghost var whole := Translate(o, access.position, items);
    ghost var log := access.log;
    var attempt: nat := 0;
    while true
      invariant attempt < MAX_ATTEMPTS
      invariant LeftToDo(whole, log, access.log, TranslateFrom(o, access.position, items, attempt))
      decreases MAX_ATTEMPTS - attempt
    {
      ghost var at, before := access.position, access.log;
      var _ := access.GetClient();
      r := access.Prompt(items);
      if r.Done? {
        UnfoldDone(o, at, items, attempt);
        return;
      }
      access.ResetClient();
      assert access.log == before + [Sent(at, items, false), Reset];
      Unfold(o, at, items, attempt);
      if IsTimeout(r.message) && |items| > 1 {
        ghost var tail := access.log;
        var left := TranslateBatch(access, items[..Midpoint(items)]);
        if left.Fail? {
          r := left;
          return;
        }
        ghost var middle := access.log;
        var right := TranslateBatch(access, items[Midpoint(items)..]);
        HalvesDone(whole, log, tail, middle, access.log, Translate(o, at + 1, items[..Midpoint(items)]),
          Translate(o, Translate(o, at + 1, items[..Midpoint(items)]).next, items[Midpoint(items)..]));
        r := if right.Fail? then right else Done(left.translated + right.translated);
        return;
      }
      if IsTimeout(r.message) || attempt + 1 == MAX_ATTEMPTS {
        assert access.log + [] == access.log;
        return;
      }
      attempt := attempt + 1;
    }
  }

  /** With `log` logged so far, doing what `t` describes completes what `whole` describes. */
  ghost predicate LeftToDo(whole: Translation, log0: seq<Op>, log: seq<Op>, t: Translation) {
    t.result == whole.result && t.next == whole.next && log + t.trace == log0 + whole.trace
  }

  ghost function AfterFirst(o: nat -> Outcome, at: nat, items: Batch, attempt: nat): Translation
    requires attempt < MAX_ATTEMPTS && Attempt(items, o(at)).Fail?
  {
    var message := Attempt(items, o(at)).message;
    if IsTimeout(message) && |items| > 1 then
      var left := Translate(o, at + 1, items[..Midpoint(items)]);
      if left.result.Fail? then left.(depth := left.depth + 1)
      else Both(left, Translate(o, left.next, items[Midpoint(items)..]))
    else if IsTimeout(message) || attempt + 1 == MAX_ATTEMPTS then Translation(Fail(message), at + 1, 0, [])
    else TranslateFrom(o, at + 1, items, attempt + 1)
  }

  lemma UnfoldDone(o: nat -> Outcome, at: nat, items: Batch, attempt: nat)
    requires attempt < MAX_ATTEMPTS && Attempt(items, o(at)).Done?
    ensures TranslateFrom(o, at, items, attempt) == Translation(Attempt(items, o(at)), at + 1, 0, [Sent(at, items, true)])
  {
  }

  lemma Unfold(o: nat -> Outcome, at: nat, items: Batch, attempt: nat)
    requires attempt < MAX_ATTEMPTS && Attempt(items, o(at)).Fail?
    ensures TranslateFrom(o, at, items, attempt) == AfterFailure(at, items, AfterFirst(o, at, items, attempt))
  {
  }

  lemma HalvesDone(whole: Translation, log0: seq<Op>, log: seq<Op>, log': seq<Op>, log'': seq<Op>,
                   left: Translation, right: Translation)
    requires left.result.Done? && LeftToDo(whole, log0, log, Both(left, right))
    requires log' == log + left.trace && log'' == log' + right.trace
    ensures log'' == log0 + whole.trace
  {
  }

  // ---- counting prompts and splits ----

  /** With n >= 1 items at most 4n - 2 prompts are used, whatever fails and however. */
  lemma {:induction false} PromptBound(o: nat -> Outcome, at: nat, items: Batch, attempt: nat)
    requires attempt < MAX_ATTEMPTS
    ensures at < TranslateFrom(o, at, items, attempt).next
    ensures TranslateFrom(o, at, items, attempt).next - at <= (if items == [] then 2 else 4 * |items| - 2) - attempt
    decreases |items|, MAX_ATTEMPTS - attempt
  {
    hide Attempt, IsTimeout;
    var r := Attempt(items, o(at));
    if r.Fail? {
      if IsTimeout(r.message) && |items| > 1 {
        var mid := Midpoint(items);
        PromptBound(o, at + 1, items[..mid], 0);
        PromptBound(o, Translate(o, at + 1, items[..mid]).next, items[mid..], 0);
      } else if !IsTimeout(r.message) && attempt + 1 < MAX_ATTEMPTS {
        PromptBound(o, at + 1, items, attempt + 1);
      }
    }
  }

  function Pow2(k: nat): nat {
    if k == 0 then 1 else 2 * Pow2(k - 1)
  }

  /** A batch of at most 2^k items is never split more than k levels deep. */
  lemma {:induction false} DepthBound(o: nat -> Outcome, at: nat, items: Batch, attempt: nat, k: nat)
    requires attempt < MAX_ATTEMPTS && |items| <= Pow2(k)
    ensures TranslateFrom(o, at, items, attempt).depth <= k
    decreases |items|, MAX_ATTEMPTS - attempt
  {
    var r := Attempt(items, o(at));
    if r.Fail? {
      if IsTimeout(r.message) && |items| > 1 {
        var mid := Midpoint(items);
        DepthBound(o, at + 1, items[..mid], 0, k - 1);
        DepthBound(o, Translate(o, at + 1, items[..mid]).next, items[mid..], 0, k - 1);
      } else if !IsTimeout(r.message) && attempt + 1 < MAX_ATTEMPTS {
        DepthBound(o, at + 1, items, attempt + 1, k);
      }
    }
  }

  // ---- the bound is reached ----

  /** Every first attempt errs; every second one times out, or answers once a single item is left. */
  function WorstScript(items: Batch, fields: map<string, JsonValue>): seq<Outcome>
    decreases |items|
  {
    [Failed("pi error")] +
    (if |items| <= 1 then [Reply(fields)]
     else [Failed("timed out")] + WorstScript(items[..Midpoint(items)], fields) + WorstScript(items[Midpoint(items)..], fields))
  }

  ghost predicate Follows(o: nat -> Outcome, at: nat, script: seq<Outcome>) {
    forall i :: 0 <= i < |script| ==> o(at + i) == script[i]
  }

  lemma FollowsParts(o: nat -> Outcome, at: nat, a: seq<Outcome>, b: seq<Outcome>)
    requires Follows(o, at, a + b)
    ensures Follows(o, at, a) && Follows(o, at + |a|, b)
  {
    forall i | 0 <= i < |a| ensures o(at + i) == a[i] { assert (a + b)[i] == a[i]; }
    forall i | 0 <= i < |b| ensures o(at + |a| + i) == b[i] { assert o(at + (|a| + i)) == (a + b)[|a| + i]; }
  }

  ghost predicate AllTranslated(items: Batch, fields: map<string, JsonValue>) {
    forall i :: 0 <= i < |items| ==> Translated(fields, items[i].key)
  }

  lemma {:induction false} WorstLength(items: Batch, fields: map<string, JsonValue>)
    requires |items| >= 1
    ensures |WorstScript(items, fields)| == 4 * |items| - 2
    decreases |items|
  {
    if |items| > 1 {
      WorstLength(items[..Midpoint(items)], fields);
      WorstLength(items[Midpoint(items)..], fields);
    }
  }

  lemma WorstParts(items: Batch, fields: map<string, JsonValue>)
    requires |items| > 1
    ensures WorstScript(items, fields) == [Failed("pi error"), Failed("timed out")]
      + (WorstScript(items[..Midpoint(items)], fields) + WorstScript(items[Midpoint(items)..], fields))
  {
  }

  lemma WorstSplit(o: nat -> Outcome, at: nat, items: Batch, fields: map<string, JsonValue>)
    requires |items| > 1 && Follows(o, at, WorstScript(items, fields))
    ensures o(at) == Failed("pi error") && o(at + 1) == Failed("timed out")
    ensures Follows(o, at + 2, WorstScript(items[..Midpoint(items)], fields))
    ensures Follows(o, at + 2 + |WorstScript(items[..Midpoint(items)], fields)|, WorstScript(items[Midpoint(items)..], fields))
  {
    hide WorstScript;
    var a, b := WorstScript(items[..Midpoint(items)], fields), WorstScript(items[Midpoint(items)..], fields);
    var head := [Failed("pi error"), Failed("timed out")];
    WorstParts(items, fields);
    FollowsParts(o, at, head, a + b);
    FollowsParts(o, at + 2, a, b);
    assert o(at + 0) == head[0] && o(at + 1) == head[1];
  }

  ghost predicate Completes(o: nat -> Outcome, at: nat, items: Batch, end: nat) {
    Translate(o, at, items).result.Done? && Translate(o, at, items).next == end
  }

  lemma WorstLeaf(o: nat -> Outcome, at: nat, items: Batch, fields: map<string, JsonValue>)
    requires |items| == 1 && AllTranslated(items, fields)
    requires Follows(o, at, WorstScript(items, fields))
    ensures Completes(o, at, items, at + 2)
  {
    var script := WorstScript(items, fields);
    assert o(at + 0) == script[0] && o(at + 1) == script[1];
    CollectDone(items, fields);
    Unfold(o, at, items, 0);
  }

  lemma WorstInner(o: nat -> Outcome, at: nat, items: Batch, middle: nat, end: nat)
    requires |items| > 1 && o(at) == Failed("pi error") && o(at + 1) == Failed("timed out")
    requires Completes(o, at + 2, items[..Midpoint(items)], middle)
    requires Completes(o, middle, items[Midpoint(items)..], end)
    ensures Completes(o, at, items, end)
  {
    Unfold(o, at, items, 0);
    Unfold(o, at + 1, items, 1);
  }

  lemma {:induction false} WorstCase(o: nat -> Outcome, at: nat, items: Batch, fields: map<string, JsonValue>)
    requires |items| >= 1 && AllTranslated(items, fields)
    requires Follows(o, at, WorstScript(items, fields))
    ensures Completes(o, at, items, at + 4 * |items| - 2)
    decreases |items|
  {
    hide Completes, Follows, Translated;
    if |items| == 1 {
      WorstLeaf(o, at, items, fields);
    } else {
      var m := Midpoint(items);
      var middle := at + 4 * m;
      WorstSplit(o, at, items, fields);
      WorstLength(items[..m], fields);
      assert AllTranslated(items[..m], fields) && AllTranslated(items[m..], fields);
      assert Completes(o, at + 2, items[..m], middle) by {
        WorstCase(o, at + 2, items[..m], fields);
      }
      assert Completes(o, middle, items[m..], at + 4 * |items| - 2) by {
        WorstCase(o, middle, items[m..], fields);
      }
      WorstInner(o, at, items, middle, at + 4 * |items| - 2);
    }
  }

  /** The bound 4n - 2 is attained by a batch that is translated completely in the end. */
  lemma PromptBoundIsTight(items: Batch)
    requires |items| >= 1
    ensures exists o :: Translate(o, 0, items).result.Done? && Translate(o, 0, items).next == 4 * |items| - 2
  {
    var fields := map k | k in KeysOf(items) :: JsonString("x");
    forall i | 0 <= i < |items| ensures Translated(fields, items[i].key) {
      assert items[i].key in KeysOf(items);
      assert !IsSpace("x"[0]);
    }
    var script := WorstScript(items, fields);
    var o := (i: nat) => if i < |script| then script[i] else Failed("pi error");
    assert Follows(o, 0, script);
    WorstCase(o, 0, items, fields);
  }

  // ---- what a normal return holds ----

  function KeysOf(items: Batch): set<string> {
    set i | 0 <= i < |items| :: items[i].key
  }

  lemma {:induction false} CollectDone(items: Batch, fields: map<string, JsonValue>)
    ensures Collect(items, fields).Done? <==> AllTranslated(items, fields)
    ensures Collect(items, fields).Done? ==>
      var m := Collect(items, fields).translated;
      m.Keys == KeysOf(items) && forall k :: k in m ==> Translated(fields, k) && m[k] == fields[k].text
  {
    if items != [] {
      CollectDone(items[1..], fields);
      assert KeysOf(items) == {items[0].key} + KeysOf(items[1..]) by {
        forall k | k in KeysOf(items) ensures k in {items[0].key} + KeysOf(items[1..]) {
          var i :| 0 <= i < |items| && items[i].key == k;
          if i > 0 { assert items[1..][i - 1].key == k; }
        }
        forall k | k in KeysOf(items[1..]) ensures k in KeysOf(items) {
          var i :| 0 <= i < |items| - 1 && items[1..][i].key == k;
          assert items[i + 1].key == k;
        }
      }
      assert AllTranslated(items, fields) <==> Translated(fields, items[0].key) && AllTranslated(items[1..], fields) by {
        if Translated(fields, items[0].key) && AllTranslated(items[1..], fields) {
          forall i | 0 <= i < |items| ensures Translated(fields, items[i].key) {
            if i > 0 { assert items[i] == items[1..][i - 1]; }
          }
        }
      }
    }
  }

  lemma KeysOfParts(a: Batch, b: Batch)
    ensures KeysOf(a + b) == KeysOf(a) + KeysOf(b)
  {
    forall k | k in KeysOf(a + b) ensures k in KeysOf(a) + KeysOf(b) {
      var i :| 0 <= i < |a + b| && (a + b)[i].key == k;
      if i < |a| { assert a[i].key == k; } else { assert b[i - |a|].key == k; }
    }
    forall k | k in KeysOf(a) + KeysOf(b) ensures k in KeysOf(a + b) {
      if k in KeysOf(a) {
        var i :| 0 <= i < |a| && a[i].key == k;
        assert (a + b)[i].key == k;
      } else {
        var i :| 0 <= i < |b| && b[i].key == k;
        assert (a + b)[|a| + i].key == k;
      }
    }
  }

  /** The items of all prompts that were answered, in order. */
  function AnsweredItems(trace: seq<Op>): Batch {
    if trace == [] then []
    else AnsweredItem(trace[0]) + AnsweredItems(trace[1..])
  }

  function AnsweredItem(op: Op): Batch {
    if op.Sent? && op.ok then op.items else []
  }

  lemma {:induction false} AnsweredAppend(a: seq<Op>, b: seq<Op>)
    ensures AnsweredItems(a + b) == AnsweredItems(a) + AnsweredItems(b)
    decreases |a|
  {
    hide AnsweredItem;
    if a == [] {
      assert a + b == b;
    } else {
      assert (a + b)[1..] == a[1..] + b;
      AnsweredAppend(a[1..], b);
      assert AnsweredItem(a[0]) + (AnsweredItems(a[1..]) + AnsweredItems(b)) == AnsweredItems(a) + AnsweredItems(b);
    }
  }

  /** The value of a key is what an answered prompt of the run said for it, in a slice holding the key. */
  ghost predicate Answers(o: nat -> Outcome, trace: seq<Op>, key: string, value: string) {
    exists i :: 0 <= i < |trace| && AnsweredBy(o, trace[i], key, value)
  }

  ghost predicate AnsweredBy(o: nat -> Outcome, op: Op, key: string, value: string) {
    op.Sent? && op.ok && key in KeysOf(op.items)
    && o(op.at).Reply? && key in o(op.at).fields && o(op.at).fields[key] == JsonString(value)
  }

  lemma AnswersIn(o: nat -> Outcome, a: seq<Op>, b: seq<Op>, key: string, value: string)
    ensures Answers(o, a, key, value) || Answers(o, b, key, value) ==> Answers(o, a + b, key, value)
  {
    hide AnsweredBy;
    if Answers(o, a, key, value) {
      var i :| 0 <= i < |a| && AnsweredBy(o, a[i], key, value);
      assert (a + b)[i] == a[i];
    }
    if Answers(o, b, key, value) {
      var i :| 0 <= i < |b| && AnsweredBy(o, b[i], key, value);
      assert (a + b)[|a| + i] == b[i];
    }
  }

  ghost predicate GoodReturn(o: nat -> Outcome, items: Batch, t: Translation) {
    t.result.Done? ==>
      && AnsweredItems(t.trace) == items
      && t.result.translated.Keys == KeysOf(items)
      && forall k :: k in t.result.translated ==>
           !Blank(t.result.translated[k]) && Answers(o, t.trace, k, t.result.translated[k])
  }

  lemma AfterFailureGood(o: nat -> Outcome, at: nat, items: Batch, t: Translation)
    requires GoodReturn(o, items, t)
    ensures GoodReturn(o, items, AfterFailure(at, items, t))
  {
    hide Answers, AnsweredItems, KeysOf, Blank;
    if t.result.Done? {
      var failed := [Sent(at, items, false), Reset];
      AnsweredAppend(failed, t.trace);
      FailureAnswersNothing(at, items);
      forall k | k in t.result.translated ensures Answers(o, failed + t.trace, k, t.result.translated[k]) {
        AnswersIn(o, failed, t.trace, k, t.result.translated[k]);
      }
      assert [] + AnsweredItems(t.trace) == AnsweredItems(t.trace);
    }
  }

  lemma FailureAnswersNothing(at: nat, items: Batch)
    ensures AnsweredItems([Sent(at, items, false), Reset]) == []
  {
    assert [Sent(at, items, false), Reset][1..] == [Reset] && [Reset][1..] == [];
  }

  lemma BothGood(o: nat -> Outcome, a: Batch, b: Batch, left: Translation, right: Translation)
    requires left.result.Done? && GoodReturn(o, a, left) && GoodReturn(o, b, right)
    ensures GoodReturn(o, a + b, Both(left, right))
  {
    hide Answers, AnsweredItems, KeysOf, Blank;
    if right.result.Done? {
      var m := left.result.translated + right.result.translated;
      KeysOfParts(a, b);
      AnsweredAppend(left.trace, right.trace);
      forall k | k in m ensures !Blank(m[k]) && Answers(o, left.trace + right.trace, k, m[k]) {
        AnswersIn(o, left.trace, right.trace, k, m[k]);
      }
    }
  }

  /** A normal return maps exactly the item keys to non-blank strings, and the items of the answered prompts are the items. */
  lemma {:induction false} ReturnIsComplete(o: nat -> Outcome, at: nat, items: Batch, attempt: nat)
    requires attempt < MAX_ATTEMPTS
    ensures GoodReturn(o, items, TranslateFrom(o, at, items, attempt))
    decreases |items|, MAX_ATTEMPTS - attempt
  {
    var r := Attempt(items, o(at));
    if r.Done? {
      UnfoldDone(o, at, items, attempt);
      AnsweredGood(o, at, items);
    } else if IsTimeout(r.message) && |items| > 1 {
      var a, b := items[..Midpoint(items)], items[Midpoint(items)..];
      var left := Translate(o, at + 1, a);
      ReturnIsComplete(o, at + 1, a, 0);
      if left.result.Done? {
        ReturnIsComplete(o, left.next, b, 0);
        assert a + b == items;
        BothGood(o, a, b, left, Translate(o, left.next, b));
        AfterFailureGood(o, at, items, Both(left, Translate(o, left.next, b)));
      }
    } else if !IsTimeout(r.message) && attempt + 1 < MAX_ATTEMPTS {
      ReturnIsComplete(o, at + 1, items, attempt + 1);
      AfterFailureGood(o, at, items, TranslateFrom(o, at + 1, items, attempt + 1));
    }
  }

  lemma AnsweredGood(o: nat -> Outcome, at: nat, items: Batch)
    requires Attempt(items, o(at)).Done?
    ensures GoodReturn(o, items, Translation(Attempt(items, o(at)), at + 1, 0, [Sent(at, items, true)]))
  {
    var r := Attempt(items, o(at));
    var t := Translation(r, at + 1, 0, [Sent(at, items, true)]);
    CollectDone(items, o(at).fields);
    assert t.trace[1..] == [] && AnsweredItems(t.trace) == items;
    forall k | k in r.translated ensures Answers(o, t.trace, k, r.translated[k]) {
      assert AnsweredBy(o, t.trace[0], k, r.translated[k]);
    }
  }

  lemma ValueAnswered(o: nat -> Outcome, at: nat, items: Batch, key: string)
    requires Translate(o, at, items).result.Done? && key in KeysOf(items)
    ensures var t := Translate(o, at, items);
      && key in t.result.translated && !Blank(t.result.translated[key])
      && Answers(o, t.trace, key, t.result.translated[key])
  {
    ReturnIsComplete(o, at, items, 0);
  }

  // ---- what counts as a time-out, and what follows ----

  /** At i the message reads "timed out", in small or capital letters. */
  predicate WordsAt(message: string, i: int) {
    0 <= i && i + 9 <= |message| && forall j :: 0 <= j < 9 ==> message[i + j] == "timed out"[j] || message[i + j] == "TIMED OUT"[j]
  }

  /** A message is a time-out exactly when it reads so somewhere. */
  lemma TimeoutExactly(message: string)
    ensures IsTimeout(message) <==> exists i :: WordsAt(message, i)
  {
    var lower := LowerAll(message);
    if IsTimeout(message) {
      var i := IndexOf(lower, "timed out", 0);
      forall j | 0 <= j < 9 ensures message[i + j] == "timed out"[j] || message[i + j] == "TIMED OUT"[j] {
        assert lower[i..i + 9][j] == lower[i + j] == Lower(message[i + j]);
        LowerWords(message[i + j], j);
      }
      assert WordsAt(message, i);
    }
    if exists i :: WordsAt(message, i) {
      var i :| WordsAt(message, i);
      forall j | 0 <= j < 9 ensures lower[i..i + 9][j] == "timed out"[j] {
        LowerWords(message[i + j], j);
      }
      assert lower[i..i + 9] == "timed out";
      assert OccursAt(lower, "timed out", i);
    }
  }

  lemma WordsStart(message: string, i: int)
    requires WordsAt(message, i)
    ensures message[i] == 't' || message[i] == 'T'
  {
    assert message[i + 0] == "timed out"[0] || message[i + 0] == "TIMED OUT"[0];
  }

  lemma LowerWords(c: char, j: nat)
    requires j < 9
    ensures Lower(c) == "timed out"[j] <==> c == "timed out"[j] || c == "TIMED OUT"[j]
  {
  }

  /** The words may stand anywhere in a message. */
  lemma TimeoutAnywhere(a: string, words: string, b: string)
    requires IsTimeout(words)
    ensures IsTimeout(a + words + b)
  {
    TimeoutExactly(words);
    TimeoutExactly(a + words + b);
    var i :| WordsAt(words, i);
    assert WordsAt(a + words + b, |a| + i) by {
      assert forall j: nat :: j < |words| ==> (a + words + b)[|a| + j] == words[j];
    }
  }

  /** After a first prompt that failed: a time-out is followed by the first half, anything else by the same items. */
  lemma AfterFirstPrompt(o: nat -> Outcome, at: nat, items: Batch)
    requires Attempt(items, o(at)).Fail?
    ensures var trace := Translate(o, at, items).trace;
      var timeout := IsTimeout(Attempt(items, o(at)).message);
      && |trace| >= 2 && trace[0] == Sent(at, items, false) && trace[1] == Reset
      && (timeout && |items| <= 1 ==> |trace| == 2)
      && (timeout && |items| > 1 ==>
            |trace| > 2 && trace[2].Sent? && trace[2].at == at + 1 && trace[2].items == items[..(|items| + 1) / 2])
      && (!timeout ==> |trace| > 2 && trace[2] == Sent(at + 1, items, Attempt(items, o(at + 1)).Done?))
  {
    Unfold(o, at, items, 0);
    var message := Attempt(items, o(at)).message;
    if IsTimeout(message) && |items| > 1 {
      FirstOp(o, at + 1, items[..Midpoint(items)], 0);
    } else if !IsTimeout(message) {
      FirstOp(o, at + 1, items, 1);
    }
  }

  lemma FirstOp(o: nat -> Outcome, at: nat, items: Batch, attempt: nat)
    requires attempt < MAX_ATTEMPTS
    ensures var trace := TranslateFrom(o, at, items, attempt).trace;
      |trace| > 0 && trace[0] == Sent(at, items, Attempt(items, o(at)).Done?)
  {
    if Attempt(items, o(at)).Done? { UnfoldDone(o, at, items, attempt); } else { Unfold(o, at, items, attempt); }
  }

  /** A batch fails with the error of its last prompt, after which only the client was reset. */
  lemma {:induction false} FailureIsLast(o: nat -> Outcome, at: nat, items: Batch, attempt: nat)
    requires attempt < MAX_ATTEMPTS
    ensures var t := TranslateFrom(o, at, items, attempt);
      t.result.Fail? ==> |t.trace| >= 2 && t.trace[|t.trace| - 1] == Reset && FailedWith(o, t.trace[|t.trace| - 2], t.next, t.result.message)
    decreases |items|, MAX_ATTEMPTS - attempt
  {
    var r := Attempt(items, o(at));
    if r.Fail? {
      Unfold(o, at, items, attempt);
      if IsTimeout(r.message) && |items| > 1 {
        var mid := Midpoint(items);
        var left := Translate(o, at + 1, items[..mid]);
        FailureIsLast(o, at + 1, items[..mid], 0);
        if left.result.Done? { FailureIsLast(o, left.next, items[mid..], 0); }
      } else if !IsTimeout(r.message) && attempt + 1 < MAX_ATTEMPTS {
        FailureIsLast(o, at + 1, items, attempt + 1);
      }
    }
  }

  /** The operation is the prompt before number `next`, and it failed with the message. */
  ghost predicate FailedWith(o: nat -> Outcome, op: Op, next: nat, message: string) {
    op.Sent? && op.at + 1 == next && !op.ok && Attempt(op.items, o(op.at)) == Fail(message)
  }

  /** The reply of a failed check: the first key without a non-blank string is named. */
  lemma MissingIsNamed(items: Batch, fields: map<string, JsonValue>, i: nat)
    requires i < |items| && forall j :: 0 <= j < i ==> Translated(fields, items[j].key)
    requires !(items[i].key in fields && fields[items[i].key].JsonString? && !Blank(fields[items[i].key].text))
    ensures Collect(items, fields) == Fail("missing translation for " + items[i].key)
    decreases i
  {
    if i > 0 {
      assert items[1..][i - 1] == items[i];
      forall j | 0 <= j < i - 1 ensures Translated(fields, items[1..][j].key) { assert items[1..][j] == items[j + 1]; }
      MissingIsNamed(items[1..], fields, i - 1);
    }
  }

  // ---- the protocol a batch keeps towards its client ----

  datatype Phase = Ready | MustReset | Broken

  /** After a failed prompt only a reset may follow. */
  function Next(phase: Phase, op: Op): Phase {
    match (phase, op)
    case (Ready, Sent(_, _, ok)) => if ok then Ready else MustReset
    case (Ready, Reset) => Ready
    case (MustReset, Reset) => Ready
    case _ => Broken
  }

  function Follow(phase: Phase, trace: seq<Op>): Phase
    decreases |trace|
  {
    if trace == [] then phase else Follow(Next(phase, trace[0]), trace[1..])
  }

  lemma {:induction false} FollowAppend(phase: Phase, a: seq<Op>, b: seq<Op>)
    ensures Follow(phase, a + b) == Follow(Follow(phase, a), b)
    decreases |a|
  {
    if a == [] {
      assert a + b == b;
    } else {
      assert (a + b)[1..] == a[1..] + b;
      FollowAppend(Next(phase, a[0]), a[1..], b);
    }
  }

  lemma AfterFailureReady(at: nat, items: Batch, t: Translation)
    requires Follow(Ready, t.trace) == Ready
    ensures Follow(Ready, AfterFailure(at, items, t).trace) == Ready
  {
  }

  /** Every batch, whatever its prompts answer, keeps the protocol and hands the client over ready. */
  lemma {:induction false} BatchKeepsProtocol(o: nat -> Outcome, at: nat, items: Batch, attempt: nat)
    requires attempt < MAX_ATTEMPTS
    ensures Follow(Ready, TranslateFrom(o, at, items, attempt).trace) == Ready
    decreases |items|, MAX_ATTEMPTS - attempt
  {
    var r := Attempt(items, o(at));
    if r.Done? {
      assert [Sent(at, items, true)][1..] == [];
    } else if IsTimeout(r.message) && |items| > 1 {
      var a, b := items[..Midpoint(items)], items[Midpoint(items)..];
      var left := Translate(o, at + 1, a);
      BatchKeepsProtocol(o, at + 1, a, 0);
      if left.result.Fail? {
        AfterFailureReady(at, items, left.(depth := left.depth + 1));
      } else {
        var right := Translate(o, left.next, b);
        BatchKeepsProtocol(o, left.next, b, 0);
        FollowAppend(Ready, left.trace, right.trace);
        AfterFailureReady(at, items, Both(left, right));
      }
    } else if IsTimeout(r.message) || attempt + 1 == MAX_ATTEMPTS {
      AfterFailureReady(at, items, Translation(r, at + 1, 0, []));
    } else {
      BatchKeepsProtocol(o, at + 1, items, attempt + 1);
      AfterFailureReady(at, items, TranslateFrom(o, at + 1, items, attempt + 1));
    }
  }
}

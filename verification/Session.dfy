/**
 Batches and whole syncs on the composed system: a batch can always be brought to its end, and what a sync
 writes anew are the texts that its own requests were answered with.
 */
module Session {
  import opened Text
  import opened OrderedMap
  import opened SyncLocale
  import L = LocaleTree
  import F = SyncFixpoint
  import C = Composition
  import R = RpcClient
  import T = Translate
  import B = Batches

  // ---- a batch can be brought to its end ----

  lemma {:induction false} RunAppend(parse: C.Parser, w: C.World, a: seq<C.Event>, b: seq<C.Event>)
    ensures C.Run(parse, w, a + b) == C.Run(parse, C.Run(parse, w, a), b)
    ensures C.PossibleRun(parse, w, a) && C.PossibleRun(parse, C.Run(parse, w, a), b) ==> C.PossibleRun(parse, w, a + b)
    decreases |a|
  {
    if a == [] {
      assert a + b == b;
    } else {
      assert (a + b)[1..] == a[1..] + b;
      RunAppend(parse, C.Step(parse, w, a[0]), a[1..], b);
    }
  }

  /** What was heard, as the function that the translator's specification reads. */
  function Oracle(w: C.World): nat -> T.Outcome {
    (i: nat) => if i < |w.heard| then w.heard[i].outcome else T.Failed("")
  }

  /** One prompt of a batch: sent, awaited, observed, and the client reset if it failed. */
  function AttemptOps(at: nat, items: B.Batch, outcome: T.Outcome): seq<T.Op> {
    if T.Attempt(items, outcome).Done? then [T.Sent(at, items, true)] else [T.Sent(at, items, false), T.Reset]
  }

  /** The prompt sent and settled. */
  lemma SendAndWait(parse: C.Parser, w: C.World, items: B.Batch) returns (events: seq<C.Event>)
    requires C.Resting(parse, w)
    ensures |events| <= 3 && C.PossibleRun(parse, w, events)
    ensures var w' := C.Run(parse, w, events);
      && C.Inv(w') && C.CanObserve(w') && w'.heard == w.heard && w'.ops == w.ops
      && C.Last(w').asked[w'.waiting.value] == items
  {
    var w1 := C.Step(parse, w, C.Send(items));
    C.SendKeeps(parse, w, items);
    C.OutcomeComes(parse, w1);
    var wait := C.Waiting(w1);
    var w2 := C.Run(parse, w1, wait);
    C.RunKeeps(parse, w1, wait);
    C.RunOne(parse, w, C.Send(items));
    RunAppend(parse, w, [C.Send(items)], wait);
    events := [C.Send(items)] + wait;
    SentItems(parse, w, items);
  }

  lemma SentItems(parse: C.Parser, w: C.World, items: B.Batch)
    requires C.Resting(parse, w)
    ensures var w' := C.Step(parse, w, C.Send(items));
      && w'.nodes != [] && w'.waiting.Some? && w'.waiting.value < |C.Last(w').asked| && C.Last(w').asked[w'.waiting.value] == items
      && w'.heard == w.heard && w'.ops == w.ops
  {
  }

  lemma OneAttempt(parse: C.Parser, w: C.World, items: B.Batch) returns (events: seq<C.Event>)
    requires C.Resting(parse, w)
    ensures |events| <= 5 && C.PossibleRun(parse, w, events)
    ensures var w' := C.Run(parse, w, events);
      && C.Resting(parse, w') && |w'.heard| == |w.heard| + 1 && w.heard <= w'.heard
      && w'.ops == w.ops + AttemptOps(|w.heard|, items, w'.heard[|w.heard|].outcome)
  {
    hide C.Step, C.Inv, C.Records, C.Run, C.PossibleRun, T.Attempt;
    events := SendAndWait(parse, w, items);
    var w1 := C.Run(parse, w, events);
    Observed(parse, w1, items);
    var w2 := C.Step(parse, w1, C.Observe);
    C.RunOne(parse, w1, C.Observe);
    RunAppend(parse, w, events, [C.Observe]);
    events := events + [C.Observe];
    if C.Phase(w2) == T.MustReset {
      C.ResetKeeps(parse, w2);
      AfterReset(parse, w2);
      C.PhaseNext(w2.ops, T.Reset);
      C.RunOne(parse, w2, C.Reset);
      RunAppend(parse, w, events, [C.Reset]);
      events := events + [C.Reset];
    }
    C.RecordsKept(parse, w, events);
  }

  /** What observing logs. */
  lemma Observed(parse: C.Parser, w: C.World, items: B.Batch)
    requires C.Inv(w) && C.CanObserve(w) && C.Last(w).asked[w.waiting.value] == items && C.Phase(w) == T.Ready
    ensures var outcome := C.OutcomeOf(parse, C.Last(w).client.settled[w.waiting.value]);
      var w' := C.Step(parse, w, C.Observe);
      && C.Inv(w') && w'.waiting.None? && |w'.heard| == |w.heard| + 1 && w.heard <= w'.heard && w'.heard[|w.heard|].outcome == outcome
      && w'.ops == w.ops + [T.Sent(|w.heard|, items, T.Attempt(items, outcome).Done?)]
      && C.Phase(w') == if T.Attempt(items, outcome).Done? then T.Ready else T.MustReset
  {
    C.ObserveKeeps(parse, w);
    C.PhaseNext(w.ops, C.Logged(parse, w));
  }


  /** A translation depends on the outcomes of its own prompts only. */
  lemma {:induction false} SameOutcomes(o: nat -> T.Outcome, o': nat -> T.Outcome, at: nat, items: B.Batch, attempt: nat)
    requires attempt < T.MAX_ATTEMPTS
    requires forall i :: at <= i < T.TranslateFrom(o, at, items, attempt).next ==> o(i) == o'(i)
    ensures T.TranslateFrom(o', at, items, attempt) == T.TranslateFrom(o, at, items, attempt)
    decreases |items|, T.MAX_ATTEMPTS - attempt
  {
    hide T.TranslateFrom, T.Attempt, T.IsTimeout;
    var r := T.Attempt(items, o(at));
    T.PromptBound(o, at, items, attempt);
    if r.Done? {
      T.UnfoldDone(o, at, items, attempt);
      T.UnfoldDone(o', at, items, attempt);
    } else {
      T.Unfold(o, at, items, attempt);
      T.Unfold(o', at, items, attempt);
      if T.IsTimeout(r.message) && |items| > 1 {
        var a, b := items[..T.Midpoint(items)], items[T.Midpoint(items)..];
        var left := T.Translate(o, at + 1, a);
        if left.result.Done? {
          T.PromptBound(o, left.next, b, 0);
          T.PromptBound(o, at + 1, a, 0);
          SameOutcomes(o, o', at + 1, a, 0);
          SameOutcomes(o, o', left.next, b, 0);
        } else {
          SameOutcomes(o, o', at + 1, a, 0);
        }
      } else if !T.IsTimeout(r.message) && attempt + 1 < T.MAX_ATTEMPTS {
        SameOutcomes(o, o', at + 1, items, attempt + 1);
      }
    }
  }

  /** From w to w' the translator has done just what its specification says about the outcomes heard. */
  ghost predicate Did(parse: C.Parser, w: C.World, w': C.World, items: B.Batch, attempt: nat)
    requires attempt < T.MAX_ATTEMPTS
  {
    var t := T.TranslateFrom(Oracle(w'), |w.heard|, items, attempt);
    C.Resting(parse, w') && w.heard <= w'.heard && |w'.heard| == t.next && w'.ops == w.ops + t.trace
  }

  /** What was done stays done when more is heard. */
  lemma DidBefore(parse: C.Parser, w: C.World, w1: C.World, w2: C.World, items: B.Batch, attempt: nat)
    requires attempt < T.MAX_ATTEMPTS && Did(parse, w, w1, items, attempt) && w1.heard <= w2.heard
    ensures T.TranslateFrom(Oracle(w2), |w.heard|, items, attempt) == T.TranslateFrom(Oracle(w1), |w.heard|, items, attempt)
  {
    SameOutcomes(Oracle(w1), Oracle(w2), |w.heard|, items, attempt);
  }

  lemma DidDone(parse: C.Parser, w: C.World, w1: C.World, items: B.Batch, attempt: nat)
    requires attempt < T.MAX_ATTEMPTS && C.Resting(parse, w1) && w.heard <= w1.heard && |w1.heard| == |w.heard| + 1
    requires w1.ops == w.ops + AttemptOps(|w.heard|, items, w1.heard[|w.heard|].outcome)
    requires var r := T.Attempt(items, w1.heard[|w.heard|].outcome);
      r.Done? || (if T.IsTimeout(r.message) then |items| <= 1 else attempt + 1 == T.MAX_ATTEMPTS)
    ensures Did(parse, w, w1, items, attempt)
  {
    hide C.Resting, T.TranslateFrom, T.Attempt, T.IsTimeout;
    var o, at := Oracle(w1), |w.heard|;
    if T.Attempt(items, o(at)).Done? {
      T.UnfoldDone(o, at, items, attempt);
    } else {
      T.Unfold(o, at, items, attempt);
      assert [T.Sent(at, items, false), T.Reset] + [] == [T.Sent(at, items, false), T.Reset];
    }
  }

  lemma DidRetry(parse: C.Parser, w: C.World, w1: C.World, w2: C.World, items: B.Batch, attempt: nat)
    requires attempt + 1 < T.MAX_ATTEMPTS && w.heard <= w1.heard && |w1.heard| == |w.heard| + 1
    requires w1.ops == w.ops + AttemptOps(|w.heard|, items, w1.heard[|w.heard|].outcome)
    requires var r := T.Attempt(items, w1.heard[|w.heard|].outcome); r.Fail? && !T.IsTimeout(r.message)
    requires Did(parse, w1, w2, items, attempt + 1)
    ensures Did(parse, w, w2, items, attempt)
  {
    hide C.Resting, T.TranslateFrom, T.Attempt, T.IsTimeout;
    var o, at := Oracle(w2), |w.heard|;
    T.Unfold(o, at, items, attempt);
    var rest := T.TranslateFrom(o, at + 1, items, attempt + 1);
    assert w.ops + [T.Sent(at, items, false), T.Reset] + rest.trace == w.ops + ([T.Sent(at, items, false), T.Reset] + rest.trace);
  }

  lemma DidLeft(parse: C.Parser, w: C.World, w1: C.World, w2: C.World, items: B.Batch, attempt: nat)
    requires attempt < T.MAX_ATTEMPTS && w.heard <= w1.heard && |w1.heard| == |w.heard| + 1 && |items| > 1
    requires w1.ops == w.ops + AttemptOps(|w.heard|, items, w1.heard[|w.heard|].outcome)
    requires var r := T.Attempt(items, w1.heard[|w.heard|].outcome); r.Fail? && T.IsTimeout(r.message)
    requires Did(parse, w1, w2, items[..T.Midpoint(items)], 0)
    requires T.Translate(Oracle(w2), |w1.heard|, items[..T.Midpoint(items)]).result.Fail?
    ensures Did(parse, w, w2, items, attempt)
  {
    hide C.Resting, T.TranslateFrom, T.Attempt, T.IsTimeout;
    var o, at := Oracle(w2), |w.heard|;
    T.Unfold(o, at, items, attempt);
    var left := T.Translate(o, at + 1, items[..T.Midpoint(items)]);
    assert w.ops + [T.Sent(at, items, false), T.Reset] + left.trace == w.ops + ([T.Sent(at, items, false), T.Reset] + left.trace);
  }

  lemma DidBoth(parse: C.Parser, w: C.World, w1: C.World, w2: C.World, w3: C.World, items: B.Batch, attempt: nat)
    requires attempt < T.MAX_ATTEMPTS && w.heard <= w1.heard && |w1.heard| == |w.heard| + 1 && |items| > 1
    requires w1.ops == w.ops + AttemptOps(|w.heard|, items, w1.heard[|w.heard|].outcome)
    requires var r := T.Attempt(items, w1.heard[|w.heard|].outcome); r.Fail? && T.IsTimeout(r.message)
    requires Did(parse, w1, w2, items[..T.Midpoint(items)], 0) && Did(parse, w2, w3, items[T.Midpoint(items)..], 0)
    requires T.Translate(Oracle(w2), |w1.heard|, items[..T.Midpoint(items)]).result.Done?
    ensures Did(parse, w, w3, items, attempt)
  {
    hide C.Resting, T.TranslateFrom, T.Attempt, T.IsTimeout;
    var o, at, a, b := Oracle(w3), |w.heard|, items[..T.Midpoint(items)], items[T.Midpoint(items)..];
    T.Unfold(o, at, items, attempt);
    DidBefore(parse, w1, w2, w3, a, 0);
    var left := T.Translate(o, at + 1, a);
    var right := T.Translate(o, left.next, b);
    var failed := [T.Sent(at, items, false), T.Reset];
    assert w.ops + failed + left.trace + right.trace == w.ops + (failed + (left.trace + right.trace));
  }

  /** From every resting world any batch can be brought to its end, in a number of steps bounded by its prompts. */
  lemma {:induction false} Completed(parse: C.Parser, w: C.World, items: B.Batch, attempt: nat) returns (events: seq<C.Event>)
    requires attempt < T.MAX_ATTEMPTS && C.Resting(parse, w)
    ensures C.PossibleRun(parse, w, events) && Did(parse, w, C.Run(parse, w, events), items, attempt)
    ensures |events| <= 5 * (|C.Run(parse, w, events).heard| - |w.heard|)
    decreases |items|, T.MAX_ATTEMPTS - attempt
  {
    hide C.Resting, C.Run, C.PossibleRun, T.TranslateFrom, T.Attempt, T.IsTimeout, AttemptOps;
    events := OneAttempt(parse, w, items);
    var w1 := C.Run(parse, w, events);
    var r := T.Attempt(items, w1.heard[|w.heard|].outcome);
    if r.Fail? && T.IsTimeout(r.message) && |items| > 1 {
      var more := Completed(parse, w1, items[..T.Midpoint(items)], 0);
      var w2 := C.Run(parse, w1, more);
      RunAppend(parse, w, events, more);
      events := events + more;
      if T.Translate(Oracle(w2), |w1.heard|, items[..T.Midpoint(items)]).result.Fail? {
        DidLeft(parse, w, w1, w2, items, attempt);
      } else {
        more := Completed(parse, w2, items[T.Midpoint(items)..], 0);
        DidBoth(parse, w, w1, w2, C.Run(parse, w2, more), items, attempt);
        RunAppend(parse, w, events, more);
        events := events + more;
      }
    } else if r.Fail? && !T.IsTimeout(r.message) && attempt + 1 < T.MAX_ATTEMPTS {
      var more := Completed(parse, w1, items, attempt + 1);
      DidRetry(parse, w, w1, C.Run(parse, w1, more), items, attempt);
      RunAppend(parse, w, events, more);
      events := events + more;
    } else {
      DidDone(parse, w, w1, items, attempt);
    }
  }

  /** For every resting world and every batch some possible run ends with the batch returned. */
  lemma BatchCanReturn(parse: C.Parser, w: C.World, items: B.Batch)
    requires C.Resting(parse, w)
    ensures exists events, o ::
      && C.PossibleRun(parse, w, events) && C.Returned(w, C.Run(parse, w, events), o, items)
      && |events| <= if items == [] then 10 else 20 * |items| - 10
  {
    var events := Completed(parse, w, items, 0);
    var w' := C.Run(parse, w, events);
    T.PromptBound(Oracle(w'), |w.heard|, items, 0);
    assert C.Returned(w, w', Oracle(w'), items);
  }

  // ---- the ordinary course of a batch ----

  /** The client that the next prompt goes to accepts prompts. */
  predicate Open(w: C.World) {
    !C.Target(w).client.closed
  }

  /** The place of that client. */
  function Place(w: C.World): nat {
    if w.inUse && w.nodes != [] then |w.nodes| - 1 else |w.nodes|
  }

  /** The prompt is sent, accepted and answered with the text. */
  function Course(w: C.World, items: B.Batch, text: string): seq<C.Event> {
    var id := C.Target(w).client.requestCount + 1;
    [C.Send(items), C.Client(Place(w), R.Begin), C.Client(Place(w), R.Stdout(R.Response(Some(id), true, None))),
     C.Client(Place(w), R.Stdout(R.AgentEnd(id, Some(text), ""))), C.Observe]
  }

  lemma RunCons(parse: C.Parser, w: C.World, e: C.Event, rest: seq<C.Event>)
    requires C.Possible(w, e)
    ensures C.Run(parse, w, [e] + rest) == C.Run(parse, C.Step(parse, w, e), rest)
    ensures C.PossibleRun(parse, w, [e] + rest) <==> C.PossibleRun(parse, C.Step(parse, w, e), rest)
  {
    assert ([e] + rest)[1..] == rest;
  }

  /** The world after a prompt is asked: a client with that prompt, all others settled. */
  lemma AskedWorld(parse: C.Parser, w: C.World, items: B.Batch)
    requires C.Resting(parse, w)
    ensures var w' := C.Step(parse, w, C.Send(items));
      var n := C.Target(w);
      && R.Inv(n.client) && R.Done(n.client) == n.client.calls && n.ended <= n.client.owner.Keys
      && C.Inv(w') && w'.nodes != [] && |w'.nodes| == Place(w) + 1 && C.Last(w') == C.Asked(n, items) && w'.inUse
      && w'.waiting == Some(n.client.calls) && w'.heard == w.heard && w'.ops == w.ops
      && |n.asked| == n.client.calls && C.Possible(w, C.Send(items))
  {
    C.SendKeeps(parse, w, items);
    TargetRests(w);
  }

  lemma TargetRests(w: C.World)
    requires C.Inv(w) && w.waiting.None?
    ensures var n := C.Target(w);
      && R.Inv(n.client) && R.Done(n.client) == n.client.calls && n.ended <= n.client.owner.Keys
      && |n.asked| == n.client.calls
  {
  }

  /** Up to the observation: the prompt is settled with the text, and nothing else has happened. */
  lemma AnswerArrives(parse: C.Parser, w: C.World, items: B.Batch, text: string)
    requires C.Resting(parse, w) && Open(w)
    ensures var course := Course(w, items, text);
      var w1 := C.Step(parse, w, course[0]);
      var w2 := C.Step(parse, w1, course[1]);
      var w3 := C.Step(parse, w2, course[2]);
      var w4 := C.Step(parse, w3, course[3]);
      && C.Possible(w, course[0]) && C.Possible(w1, course[1]) && C.Possible(w2, course[2]) && C.Possible(w3, course[3])
      && C.Inv(w4) && C.CanObserve(w4) && C.Last(w4).asked[w4.waiting.value] == items && C.Phase(w4) == T.Ready
      && C.OutcomeOf(parse, C.Last(w4).client.settled[w4.waiting.value]) == parse(text)
      && w4.heard == w.heard && w4.ops == w.ops
  {
    hide C.Inv, C.Step, R.Step, R.Inv, R.Done, C.Records, T.Attempt, C.Run, C.PossibleRun;
    var n := C.Target(w);
    var id := n.client.requestCount + 1;
    var accept, end := R.Stdout(R.Response(Some(id), true, None)), R.Stdout(R.AgentEnd(id, Some(text), ""));
    var p := Place(w);
    AskedWorld(parse, w, items);
    R.AnsweredTurn(n.client, text);
    var w1 := C.Step(parse, w, C.Send(items));
    var w2 := C.Step(parse, w1, C.Client(p, R.Begin));
    var w3 := C.Step(parse, w2, C.Client(p, accept));
    var w4 := C.Step(parse, w3, C.Client(p, end));
    OwnerIds(n.client);
    C.LastStep(parse, w1, R.Begin);
    C.LastStep(parse, w2, accept);
    C.LastStep(parse, w3, end);
    assert C.Last(w4).client.settled == n.client.settled[n.client.calls := R.Resolved(R.Answer(id, text))];
    C.ClientKeeps(parse, w1, p, R.Begin);
    C.ClientKeeps(parse, w2, p, accept);
    C.ClientKeeps(parse, w3, p, end);
  }

  /** Sent to an open client, accepted and answered with a text, a prompt is observed with just that text. */
  lemma AnsweredPrompt(parse: C.Parser, w: C.World, items: B.Batch, text: string)
    requires C.Resting(parse, w) && Open(w)
    ensures C.PossibleRun(parse, w, Course(w, items, text))
    ensures var w' := C.Run(parse, w, Course(w, items, text));
      && |w'.heard| == |w.heard| + 1 && w.heard <= w'.heard && w'.heard[|w.heard|].outcome == parse(text)
      && w'.ops == w.ops + [T.Sent(|w.heard|, items, T.Attempt(items, parse(text)).Done?)]
      && (T.Attempt(items, parse(text)).Done? ==> C.Resting(parse, w'))
  {
    hide C.Inv, C.Step, C.Records, T.Attempt, C.Run, C.PossibleRun, C.OutcomeOf;
    AnswerArrives(parse, w, items, text);
    var course := Course(w, items, text);
    var w3 := C.Step(parse, C.Step(parse, C.Step(parse, w, course[0]), course[1]), course[2]);
    Observed(parse, C.Step(parse, w3, course[3]), items);
    RunFive(parse, w, course[0], course[1], course[2], course[3], course[4]);
    C.RecordsKept(parse, w, course);
  }

  lemma RunFive(parse: C.Parser, w: C.World, a: C.Event, b: C.Event, c: C.Event, d: C.Event, e: C.Event)
    requires C.Possible(w, a)
    requires var w1 := C.Step(parse, w, a); var w2 := C.Step(parse, w1, b); var w3 := C.Step(parse, w2, c);
      C.Possible(w1, b) && C.Possible(w2, c) && C.Possible(w3, d) && C.Possible(C.Step(parse, w3, d), e)
    ensures C.PossibleRun(parse, w, [a, b, c, d, e])
    ensures var w3 := C.Step(parse, C.Step(parse, C.Step(parse, w, a), b), c);
      C.Run(parse, w, [a, b, c, d, e]) == C.Step(parse, C.Step(parse, w3, d), e)
  {
    hide C.Step, C.Possible;
    var w1 := C.Step(parse, w, a);
    var w2 := C.Step(parse, w1, b);
    var w3 := C.Step(parse, w2, c);
    assert [a, b, c, d, e] == [a] + ([b] + ([c] + [d, e]));
    RunCons(parse, w, a, [b] + ([c] + [d, e]));
    RunCons(parse, w1, b, [c] + [d, e]);
    RunCons(parse, w2, c, [d, e]);
    C.RunTwo(parse, w3, d, e);
  }

  lemma OwnerIds(s: R.State)
    requires R.Inv(s)
    ensures s.requestCount + 1 !in s.owner
  {
  }

  /** So a batch on an open client returns exactly the texts of a complete reply, after one prompt. */
  lemma OpenBatchReturns(parse: C.Parser, w: C.World, items: B.Batch, text: string)
    requires C.Resting(parse, w) && Open(w)
    requires parse(text).Reply? && T.AllTranslated(items, parse(text).fields)
    ensures var w' := C.Run(parse, w, Course(w, items, text));
      var r := T.Translate(Oracle(w'), |w.heard|, items).result;
      && C.PossibleRun(parse, w, Course(w, items, text)) && C.Returned(w, w', Oracle(w'), items)
      && r.Done? && r.translated.Keys == T.KeysOf(items)
      && forall k :: k in r.translated ==> parse(text).fields[k] == T.JsonString(r.translated[k])
  {
    hide C.Resting, C.Run, C.PossibleRun, T.TranslateFrom;
    AnsweredPrompt(parse, w, items, text);
    T.CollectDone(items, parse(text).fields);
    var w' := C.Run(parse, w, Course(w, items, text));
    T.UnfoldDone(Oracle(w'), |w.heard|, items, 0);
    RestingWaits(parse, w');
  }

  lemma RestingWaits(parse: C.Parser, w: C.World)
    requires C.Resting(parse, w)
    ensures w.waiting.None?
  {
  }

  /** A closed client refuses the prompt and is given up. */
  lemma RefusedPrompt(parse: C.Parser, w: C.World, items: B.Batch)
    requires C.Resting(parse, w) && !Open(w)
    ensures var events := [C.Send(items), C.Client(Place(w), R.Begin), C.Observe, C.Reset];
      var w' := C.Run(parse, w, events);
      && C.PossibleRun(parse, w, events) && C.Resting(parse, w') && Open(w')
      && |w'.heard| == |w.heard| + 1 && w.heard <= w'.heard && w'.heard[|w.heard|].outcome == T.Failed("pi process unavailable")
      && w'.ops == w.ops + [T.Sent(|w.heard|, items, false), T.Reset]
  {
    hide C.Inv, C.Step, R.Step, R.Inv, R.Done, C.Records, C.Run, C.PossibleRun;
    var n := C.Target(w);
    var p := Place(w);
    AskedWorld(parse, w, items);
    R.RefusedTurn(n.client);
    var w1 := C.Step(parse, w, C.Send(items));
    var w2 := C.Step(parse, w1, C.Client(p, R.Begin));
    C.LastStep(parse, w1, R.Begin);
    assert C.Last(w2).client.settled == n.client.settled[n.client.calls := R.Rejected("pi process unavailable")];
    C.ClientKeeps(parse, w1, p, R.Begin);
    Observed(parse, w2, items);
    var w3 := C.Step(parse, w2, C.Observe);
    C.ResetKeeps(parse, w3);
    C.PhaseNext(w3.ops, T.Reset);
    AfterReset(parse, w3);
    var events := [C.Send(items), C.Client(p, R.Begin)] + [C.Observe, C.Reset];
    assert events == [C.Send(items), C.Client(p, R.Begin), C.Observe, C.Reset];
    C.RunTwo(parse, w, C.Send(items), C.Client(p, R.Begin));
    C.RunTwo(parse, w2, C.Observe, C.Reset);
    RunAppend(parse, w, [C.Send(items), C.Client(p, R.Begin)], [C.Observe, C.Reset]);
    C.RecordsKept(parse, w, events);
  }

  lemma AfterReset(parse: C.Parser, w: C.World)
    requires C.Inv(w)
    ensures var w' := C.Step(parse, w, C.Reset);
      !w'.inUse && Open(w') && w'.waiting == w.waiting && w'.heard == w.heard && w'.ops == w.ops + [T.Reset]
  {
  }

  lemma NoWords(message: string)
    requires forall i :: 0 <= i < |message| ==> message[i] != 't' && message[i] != 'T'
    ensures !T.IsTimeout(message)
  {
    T.TimeoutExactly(message);
    forall i | T.WordsAt(message, i) ensures false {
      T.WordsStart(message, i);
    }
  }

  /**
   From every resting world, for every batch and every text that holds a complete reply to it, the batch can be
   answered with that text: it returns exactly the texts under its keys.
   */
  lemma BatchCanBeAnswered(parse: C.Parser, w: C.World, items: B.Batch, text: string)
    requires C.Resting(parse, w)
    requires parse(text).Reply? && T.AllTranslated(items, parse(text).fields)
    ensures exists events, o ::
      && C.PossibleRun(parse, w, events) && C.Returned(w, C.Run(parse, w, events), o, items) && |events| <= 9
      && T.Translate(o, |w.heard|, items).result.Done?
      && forall k :: k in T.KeysOf(items) ==>
           var m := T.Translate(o, |w.heard|, items).result.translated;
           k in m && parse(text).fields[k] == T.JsonString(m[k])
  {
    hide C.Resting, C.Run, C.PossibleRun, T.TranslateFrom, C.Returned;
    if Open(w) {
      OpenBatchReturns(parse, w, items, text);
    } else {
      RefusedPrompt(parse, w, items);
      var refused := [C.Send(items), C.Client(Place(w), R.Begin), C.Observe, C.Reset];
      var w1 := C.Run(parse, w, refused);
      ReplacedBatchReturns(parse, w, w1, items, text);
      RunAppend(parse, w, refused, Course(w1, items, text));
    }
  }

  lemma RefusalIsNoTimeout()
    ensures !T.IsTimeout("pi process unavailable")
  {
    hide T.IsTimeout;
    NoWords("pi process unavailable");
  }

  lemma ReplacedBatchReturns(parse: C.Parser, w: C.World, w1: C.World, items: B.Batch, text: string)
    requires C.Resting(parse, w1) && Open(w1)
    requires |w1.heard| == |w.heard| + 1 && w.heard <= w1.heard && w1.heard[|w.heard|].outcome == T.Failed("pi process unavailable")
    requires w1.ops == w.ops + [T.Sent(|w.heard|, items, false), T.Reset]
    requires parse(text).Reply? && T.AllTranslated(items, parse(text).fields)
    ensures var w2 := C.Run(parse, w1, Course(w1, items, text));
      var r := T.Translate(Oracle(w2), |w.heard|, items).result;
      && C.PossibleRun(parse, w1, Course(w1, items, text)) && C.Returned(w, w2, Oracle(w2), items)
      && r.Done? && r.translated.Keys == T.KeysOf(items)
      && forall k :: k in r.translated ==> parse(text).fields[k] == T.JsonString(r.translated[k])
  {
    hide C.Resting, C.Run, C.PossibleRun, T.TranslateFrom;
    AnsweredPrompt(parse, w1, items, text);
    T.CollectDone(items, parse(text).fields);
    var w2 := C.Run(parse, w1, Course(w1, items, text));
    RefusalIsNoTimeout();
    T.UnfoldDone(Oracle(w2), |w1.heard|, items, 1);
    T.Unfold(Oracle(w2), |w.heard|, items, 0);
    RestingWaits(parse, w2);
  }

  /**
   A prompt settled by its own timer: with at least two items the next prompt in the log carries the first half
   of them, rounded up.
   */
  lemma TimerSplitsBatch(parse: C.Parser, w0: C.World, events: seq<C.Event>, o: nat -> T.Outcome, items: B.Batch)
    requires C.Resting(parse, w0) && C.PossibleRun(parse, w0, events) && C.Returned(w0, C.Run(parse, w0, events), o, items)
    requires |items| > 1 && |w0.heard| < |C.Run(parse, w0, events).heard|
    requires var w := C.Run(parse, w0, events);
      var h := w.heard[|w0.heard|];
      && h.node < |w.nodes| && h.ticket in w.nodes[h.node].client.settled
      && w.nodes[h.node].client.settled[h.ticket] == R.Rejected("translation prompt timed out")
    ensures var ops := C.Run(parse, w0, events).ops[|w0.ops|..];
      && |ops| > 2 && ops[0] == T.Sent(|w0.heard|, items, false) && ops[1] == T.Reset
      && ops[2].Sent? && ops[2].at == |w0.heard| + 1 && ops[2].items == items[..(|items| + 1) / 2]
  {
    hide C.Run, C.PossibleRun, C.Inv, T.Translate;
    var w := C.Run(parse, w0, events);
    C.RecordsKept(parse, w0, events);
    assert C.HeardFrom(parse, w.nodes, w.heard[|w0.heard|]);
    TimerIsTimeout();
    T.AfterFirstPrompt(o, |w0.heard|, items);
    assert w.ops[|w0.ops|..] == T.Translate(o, |w0.heard|, items).trace;
  }

  /** The client's own message, with whatever label before it and details after it, is a time-out. */
  lemma TimerIsTimeout()
    ensures T.IsTimeout("translation prompt timed out")
    ensures forall a, b :: T.IsTimeout(a + "translation prompt timed out" + b)
  {
    hide T.IsTimeout;
    JustTheWords();
    T.TimeoutAnywhere("translation prompt ", "timed out", "");
    assert "translation prompt " + "timed out" + "" == "translation prompt timed out";
    forall a, b ensures T.IsTimeout(a + "translation prompt timed out" + b) {
      T.TimeoutAnywhere(a, "translation prompt timed out", b);
    }
  }

  lemma JustTheWords()
    ensures T.IsTimeout("timed out")
  {
    hide T.IsTimeout;
    T.TimeoutExactly("timed out");
    assert T.WordsAt("timed out", 0);
  }

  // ---- a sync on the system ----

  /** What the translator does for a list of batches: one after the other, up to the first that fails. */
  function SessionTrace(o: nat -> T.Outcome, at: nat, batches: seq<B.Batch>): seq<T.Op>
    decreases |batches|
  {
    if batches == [] then []
    else
      var t := T.Translate(o, at, batches[0]);
      t.trace + if t.result.Done? then SessionTrace(o, t.next, batches[1..]) else []
  }

  lemma {:induction false} SessionKeepsProtocol(o: nat -> T.Outcome, at: nat, batches: seq<B.Batch>)
    ensures T.Follow(T.Ready, SessionTrace(o, at, batches)) == T.Ready
    decreases |batches|
  {
    if batches != [] {
      var t := T.Translate(o, at, batches[0]);
      var rest := if t.result.Done? then SessionTrace(o, t.next, batches[1..]) else [];
      C.TraceKeepsProtocol(o, at, batches[0]);
      if t.result.Done? { SessionKeepsProtocol(o, t.next, batches[1..]); }
      T.FollowAppend(T.Ready, t.trace, rest);
    }
  }

  /** A run of the system in which the translator works off the batches, and gives its client back. */
  ghost predicate Ran(parse: C.Parser, events: seq<C.Event>, o: nat -> T.Outcome, batches: seq<B.Batch>) {
    var w := C.Run(parse, C.Start, events);
    && C.PossibleRun(parse, C.Start, events) && w.waiting.None?
    && (w.ops == SessionTrace(o, 0, batches) || w.ops == SessionTrace(o, 0, batches) + [T.Reset])
    && forall i :: 0 <= i < |w.heard| ==> o(i) == w.heard[i].outcome
  }

  /** What is known of the system at the end of such a run. */
  ghost predicate Sound(parse: C.Parser, w: C.World, o: nat -> T.Outcome) {
    && C.Records(parse, w) && (forall i :: 0 <= i < |w.nodes| ==> C.OwnAnswers(w.nodes[i].client))
    && forall i :: 0 <= i < |w.heard| ==> o(i) == w.heard[i].outcome
  }

  lemma RanIsSound(parse: C.Parser, events: seq<C.Event>, o: nat -> T.Outcome, batches: seq<B.Batch>)
    requires Ran(parse, events, o, batches)
    ensures Sound(parse, C.Run(parse, C.Start, events), o)
  {
    hide C.OwnAnswers, C.Inv, C.Records, C.Run, C.PossibleRun, SessionTrace;
    var w := C.Run(parse, C.Start, events);
    SessionKeepsProtocol(o, 0, batches);
    C.PhaseNext(SessionTrace(o, 0, batches), T.Reset);
    C.StartRests(parse);
    C.RunKeeps(parse, C.Start, events);
    C.RecordsKept(parse, C.Start, events);
    C.InvOwnAnswers(w);
  }

  /** Some prompt on the system that asked for the key was answered with the value, by its own `agent_end`. */
  ghost predicate SuppliedIn(parse: C.Parser, w: C.World, key: string, value: string) {
    exists i, t :: 0 <= i < |w.nodes| && C.Supplied(parse, w.nodes[i], t, key, value)
  }

  ghost predicate LoggedAll(w: C.World, ops: seq<T.Op>) {
    forall i :: 0 <= i < |ops| ==> ops[i] in w.ops
  }

  lemma ValueSupplied(parse: C.Parser, w: C.World, o: nat -> T.Outcome, at: nat, items: B.Batch, key: string)
    requires Sound(parse, w, o) && LoggedAll(w, T.Translate(o, at, items).trace)
    requires T.Translate(o, at, items).result.Done? && key in T.KeysOf(items)
    ensures var m := T.Translate(o, at, items).result.translated;
      key in m && !Blank(m[key]) && SuppliedIn(parse, w, key, m[key])
  {
    hide C.OwnAnswers, C.Records, T.Translate, T.KeysOf;
    T.ValueAnswered(o, at, items, key);
    var t := T.Translate(o, at, items);
    var i :| 0 <= i < |t.trace| && T.AnsweredBy(o, t.trace[i], key, t.result.translated[key]);
    assert t.trace[i] in w.ops;
    var j :| 0 <= j < |w.ops| && w.ops[j] == t.trace[i];
    C.LoggedValue(parse, w, o, j, key, t.result.translated[key]);
  }

  /** From one plan to another: the keys have supplied values, and new memory entries hold supplied translations. */
  ghost predicate FromAnswers(parse: C.Parser, w: C.World, plan0: Plan, plan: Plan, keys: set<string>) {
    && (forall q :: q in keys ==> Get(plan.next, q).Some? && SuppliedIn(parse, w, q, Get(plan.next, q).value))
    && (forall q :: q !in keys ==> Get(plan.next, q) == Get(plan0.next, q))
    && (forall c :: MemoryFrom(parse, w, Get(plan0.memory, c), Get(plan.memory, c)))
  }

  ghost predicate MemoryFrom(parse: C.Parser, w: C.World, before: Option<TmEntry>, after: Option<TmEntry>) {
    after == before || (after.Some? && SuppliedIn(parse, w, after.value.segmentId, after.value.translated))
  }

  lemma ItemFrom(parse: C.Parser, w: C.World, env: Setting, now: string, plan0: Plan, plan: Plan, keys: set<string>,
                 item: B.Item, value: string)
    requires FromAnswers(parse, w, plan0, plan, keys) && SuppliedIn(parse, w, item.key, value)
    ensures FromAnswers(parse, w, plan0,
      plan.(next := Put(plan.next, item.key, value), memory := Put(plan.memory, item.cacheKey, Entry(env, now, item, value))),
      keys + {item.key})
  {
    hide SuppliedIn;
    forall q { PutGet(plan.next, item.key, value, q); }
    forall c ensures MemoryFrom(parse, w, Get(plan0.memory, c), Get(Put(plan.memory, item.cacheKey, Entry(env, now, item, value)), c)) {
      PutGet(plan.memory, item.cacheKey, Entry(env, now, item, value), c);
      assert MemoryFrom(parse, w, Get(plan0.memory, c), Get(plan.memory, c));
    }
  }

  lemma {:induction false} ApplyFrom(parse: C.Parser, w: C.World, env: Setting, now: string, plan0: Plan, plan: Plan,
                                     keys: set<string>, batch: B.Batch, m: map<string, string>)
    requires FromAnswers(parse, w, plan0, plan, keys)
    requires forall k :: k in T.KeysOf(batch) ==> k in m && !Blank(m[k]) && SuppliedIn(parse, w, k, m[k])
    ensures FromAnswers(parse, w, plan0, Apply(env, now, plan, batch, m), keys + T.KeysOf(batch))
    decreases |batch|
  {
    hide SuppliedIn, FromAnswers, Blank;
    if batch == [] {
      assert keys + T.KeysOf(batch) == keys;
    } else {
      var item := batch[0];
      assert batch == [item] + batch[1..];
      T.KeysOfParts([item], batch[1..]);
      assert T.KeysOf([item]) == {item.key};
      BlankNothing();
      ItemFrom(parse, w, env, now, plan0, plan, keys, item, m[item.key]);
      var plan' := plan.(next := Put(plan.next, item.key, m[item.key]),
                         memory := Put(plan.memory, item.cacheKey, Entry(env, now, item, m[item.key])));
      ApplyFrom(parse, w, env, now, plan0, plan', keys + {item.key}, batch[1..], m);
      assert keys + {item.key} + T.KeysOf(batch[1..]) == keys + T.KeysOf(batch);
    }
  }

  lemma BlankNothing()
    ensures Blank("")
  {
  }

  lemma {:induction false} BatchesFrom(parse: C.Parser, w: C.World, env: Setting, now: string, o: nat -> T.Outcome, at: nat,
                                       plan0: Plan, plan: Plan, keys: set<string>, batches: seq<B.Batch>)
    requires Sound(parse, w, o) && LoggedAll(w, SessionTrace(o, at, batches))
    requires FromAnswers(parse, w, plan0, plan, keys)
    ensures var r := ApplyBatches(env, now, o, at, plan, batches);
      r.Got? ==> FromAnswers(parse, w, plan0, r.plan, keys + T.KeysOf(B.Flatten(batches)))
    decreases |batches|
  {
    hide SuppliedIn, FromAnswers, Sound, T.Translate, Apply;
    if batches == [] {
      assert keys + T.KeysOf(B.Flatten(batches)) == keys;
    } else {
      var t := T.Translate(o, at, batches[0]);
      if t.result.Done? {
        LoggedParts(w, t.trace, SessionTrace(o, t.next, batches[1..]));
        forall k | k in T.KeysOf(batches[0])
          ensures k in t.result.translated && !Blank(t.result.translated[k]) && SuppliedIn(parse, w, k, t.result.translated[k])
        {
          ValueSupplied(parse, w, o, at, batches[0], k);
        }
        ApplyFrom(parse, w, env, now, plan0, plan, keys, batches[0], t.result.translated);
        var plan' := Apply(env, now, plan, batches[0], t.result.translated);
        BatchesFrom(parse, w, env, now, o, t.next, plan0, plan', keys + T.KeysOf(batches[0]), batches[1..]);
        T.KeysOfParts(batches[0], B.Flatten(batches[1..]));
        assert keys + T.KeysOf(batches[0]) + T.KeysOf(B.Flatten(batches[1..])) == keys + T.KeysOf(B.Flatten(batches));
      }
    }
  }

  lemma LoggedParts(w: C.World, a: seq<T.Op>, b: seq<T.Op>)
    requires LoggedAll(w, a + b)
    ensures LoggedAll(w, a) && LoggedAll(w, b)
  {
    forall i | 0 <= i < |a| ensures a[i] in w.ops { assert (a + b)[i] == a[i]; }
    forall i | 0 <= i < |b| ensures b[i] in w.ops { assert (a + b)[|a| + i] == b[i]; }
  }

  /** Falling back leaves what has a value alone. */
  lemma {:induction false} FallBackKeeps(force: bool, stores: Stores, plan: Plan, items: B.Batch)
    requires forall k :: k in T.KeysOf(items) ==> Get(plan.next, k).Some?
    ensures FallBack(force, stores, plan, items) == plan
    decreases |items|
  {
    if items != [] {
      assert items[0].key in T.KeysOf(items);
      assert forall i :: 0 <= i < |items[1..]| ==> items[1..][i] == items[i + 1];
      FallBackKeeps(force, stores, plan, items[1..]);
    }
  }

  /** The final plan of a sync on the system: all that was pending is supplied, and nothing else is new. */
  lemma FinalFromAnswers(parse: C.Parser, events: seq<C.Event>, o: nat -> T.Outcome, env: Setting, options: Options,
                         files: Files, source: Entries<string>)
    requires options.allowTranslate
    requires Ran(parse, events, o, B.Pack(PlanKeys(env, true, StoresOf(files), source).pending, env.budget))
    ensures var plan := PlanKeys(env, true, StoresOf(files), source);
      var r := FinalPlan(env, options, files, source, o, 0);
      r.Got? ==> FromAnswers(parse, C.Run(parse, C.Start, events), plan, r.plan, T.KeysOf(plan.pending))
  {
    hide C.Run, SessionTrace, SuppliedIn, ApplyBatches, PlanKeys, Sound;
    var w := C.Run(parse, C.Start, events);
    var plan := PlanKeys(env, true, StoresOf(files), source);
    var batches := B.Pack(plan.pending, env.budget);
    RanIsSound(parse, events, o, batches);
    B.PackIsGreedyPartition(plan.pending, env.budget);
    BatchesFrom(parse, w, env, options.now, o, 0, plan, plan, {}, batches);
    var t := ApplyBatches(env, options.now, o, 0, plan, batches);
    if t.Got? {
      assert {} + T.KeysOf(plan.pending) == T.KeysOf(plan.pending);
      FallBackKeeps(options.force, StoresOf(files), t.plan, plan.pending);
    }
  }

  /**
   What a written sync with a provider puts into the files: under each key that had to be translated, the text that
   the request asking for it was answered with, by its own `agent_end`; in the memory, besides what was planned
   before the first prompt, such texts only.
   */
  lemma SyncedValuesAreOwn(parse: C.Parser, events: seq<C.Event>, o: nat -> T.Outcome, env: Setting, options: Options,
                           source: L.Forest, sourceHash: string, files: Files)
    requires F.GoodKeys(env) && L.Rebuildable(Keys(L.Flatten(source)))
    requires options.allowTranslate && options.write && !options.checkOnly
    requires Sync(env, options, source, sourceHash, files, o, 0).outcome.Synced?
    requires Ran(parse, events, o, B.Pack(PlanKeys(env, true, StoresOf(files), L.Flatten(source)).pending, env.budget))
    ensures var plan := PlanKeys(env, true, StoresOf(files), L.Flatten(source));
      var w, stores := C.Run(parse, C.Start, events), StoresOf(Sync(env, options, source, sourceHash, files, o, 0).files);
      && (forall k :: k in T.KeysOf(plan.pending) ==> Get(stores.existing, k).Some? && SuppliedIn(parse, w, k, Get(stores.existing, k).value))
      && (forall c :: MemoryFrom(parse, w, Get(plan.memory, c), Get(stores.memory, c)))
  {
    hide C.Run, Ran, SuppliedIn, FinalPlan, PlanKeys, Sync, F.GoodKeys;
    var flat := L.Flatten(source);
    var w, plan := C.Run(parse, C.Start, events), PlanKeys(env, true, StoresOf(files), flat);
    var stores := StoresOf(Sync(env, options, source, sourceHash, files, o, 0).files);
    var last := F.FirstRun(env, options, source, sourceHash, files, o, 0);
    FinalFromAnswers(parse, events, o, env, options, files, flat);
    F.LoadMemoryOk(files.memory);
    F.PlanProgress(env, true, StoresOf(files), flat);
    forall k | k in T.KeysOf(plan.pending)
      ensures Get(stores.existing, k).Some? && SuppliedIn(parse, w, k, Get(stores.existing, k).value)
    {
      PendingInSource(env, flat, plan.pending, k);
      var i :| 0 <= i < |flat| && flat[i].0 == k;
      assert Get(stores.existing, flat[i].0) == Get(last.next, flat[i].0);
    }
    forall c ensures MemoryFrom(parse, w, Get(plan.memory, c), Get(stores.memory, c)) {
      assert MemoryFrom(parse, w, Get(plan.memory, c), Get(last.memory, c));
    }
  }

  lemma PendingInSource(env: Setting, source: Entries<string>, items: B.Batch, k: string)
    requires F.ItemsOk(env, source, items) && k in T.KeysOf(items)
    ensures exists i :: 0 <= i < |source| && source[i].0 == k
  {
    var j :| 0 <= j < |items| && items[j].key == k;
    var i :| 0 <= i < |source| && source[i] == (items[j].key, items[j].text);
    assert source[i].0 == k;
  }
}

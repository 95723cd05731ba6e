/**
 The composed system: one batch translator in front of a succession of clients, each with its own
 process.  `agent_end` carries no request id; that every answer still belongs to the prompt it settles
 is a property of the whole, because a client is given up after its first failed prompt.
 */
module Composition {
  import opened Text
  import C = RpcClient
  import T = Translate
  import B = Batches

  /** A client, the items each of its prompts was asked with, and the requests its process has ended. */
  datatype Node = Node(client: C.State, asked: seq<B.Batch>, ended: set<nat>)

  /** An outcome the translator has seen: the settlement of a prompt, read as a reply. */
  datatype Heard = Heard(node: nat, ticket: C.Ticket, outcome: T.Outcome)

  datatype World = World(
    nodes: seq<Node>,                 // in order of creation
    inUse: bool,                      // whether the last client is the one in use
    waiting: Option<C.Ticket>,        // the prompt the translator awaits
    heard: seq<Heard>,                // in order
    ops: seq<T.Op>)                   // the translator's log of prompts and resets

  const Start := World([], false, None, [], [])

  const NewNode := Node(C.Initial, [], {})

  datatype Event =
    | Send(items: B.Batch)
    | Observe
    | Reset
    | Client(index: nat, event: C.Event)

  /** `JSON.parse` of an answer: an error with its message, or the fields of an object. */
  type Parser = string -> T.Outcome

  function OutcomeOf(parse: Parser, x: C.Settlement): T.Outcome {
    match x
    case Resolved(answer) => parse(answer.text)
    case Rejected(reason) => T.Failed(reason)
  }

  predicate FromOutside(e: C.Event) {
    !e.Call? && !e.CloseCall?
  }

  /** A process ends a request at most once, and only one that it received. */
  predicate ProcessMay(n: Node, e: C.Event) {
    && FromOutside(e)
    && (e.Stdout? && e.line.AgentEnd? ==> e.line.turn in n.client.owner && e.line.turn !in n.ended)
  }

  function Last(w: World): Node
    requires w.nodes != []
  {
    w.nodes[|w.nodes| - 1]
  }

  /** `getClient` creates a client when none is in use. */
  function Target(w: World): Node {
    if w.inUse && w.nodes != [] then Last(w) else NewNode
  }

  function WithLast(w: World, n: Node): seq<Node> {
    if w.inUse && w.nodes != [] then w.nodes[..|w.nodes| - 1] + [n] else w.nodes + [n]
  }

  /** The awaited prompt is settled. */
  predicate CanObserve(w: World) {
    && w.waiting.Some? && w.inUse && w.nodes != []
    && w.waiting.value in Last(w).client.settled && w.waiting.value < |Last(w).asked|
  }

  /** What is possible at all; nothing here knows of the translator's rule to reset after a failure. */
  predicate Possible(w: World, e: Event) {
    match e
    case Send(_) => w.waiting.None?
    case Observe => CanObserve(w)
    case Reset => w.waiting.None?
    case Client(i, event) => i < |w.nodes| && ProcessMay(w.nodes[i], event)
  }

  function StepNode(n: Node, e: C.Event): Node {
    Node(C.Step(n.client, e), n.asked, if e.Stdout? && e.line.AgentEnd? then n.ended + {e.line.turn} else n.ended)
  }

  /** A prompt call on a node. */
  function Asked(n: Node, items: B.Batch): Node {
    Node(C.Step(n.client, C.Call), n.asked + [items], n.ended)
  }

  /** The settlement of the awaited prompt, as the translator reads it and logs it. */
  function HeardNow(parse: Parser, w: World): Heard
    requires CanObserve(w)
  {
    Heard(|w.nodes| - 1, w.waiting.value, OutcomeOf(parse, Last(w).client.settled[w.waiting.value]))
  }

  function Logged(parse: Parser, w: World): T.Op
    requires CanObserve(w)
  {
    var items := Last(w).asked[w.waiting.value];
    T.Sent(|w.heard|, items, T.Attempt(items, HeardNow(parse, w).outcome).Done?)
  }

  function Step(parse: Parser, w: World, e: Event): World {
    match e
    case Send(items) =>
      w.(nodes := WithLast(w, Asked(Target(w), items)), inUse := true, waiting := Some(Target(w).client.calls))
    case Observe =>
      if CanObserve(w) then
        w.(waiting := None, heard := w.heard + [HeardNow(parse, w)], ops := w.ops + [Logged(parse, w)])
      else w
    case Reset =>
      if w.inUse && w.nodes != [] then
        w.(nodes := WithLast(w, Last(w).(client := C.Step(Last(w).client, C.CloseCall))), inUse := false, ops := w.ops + [T.Reset])
      else w.(ops := w.ops + [T.Reset])
    case Client(i, event) =>
      if i < |w.nodes| then w.(nodes := w.nodes[i := StepNode(w.nodes[i], event)]) else w
  }

  function Run(parse: Parser, w: World, events: seq<Event>): World
    decreases |events|
  {
    if events == [] then w else Run(parse, Step(parse, w, events[0]), events[1..])
  }

  ghost predicate PossibleRun(parse: Parser, w: World, events: seq<Event>)
    decreases |events|
  {
    events == [] || (Possible(w, events[0]) && PossibleRun(parse, Step(parse, w, events[0]), events[1..]))
  }

  /** Where the translator stands in its protocol: what it has logged decides. */
  function Phase(w: World): T.Phase {
    T.Follow(T.Ready, w.ops)
  }

  /** The translator has so far reset after each failed prompt before sending the next one. */
  predicate KeepsProtocol(w: World) {
    Phase(w) != T.Broken && (w.waiting.Some? ==> Phase(w) == T.Ready)
  }

  // ---- one client ----

  /** Every resolved prompt holds the answer to the request that was sent for it. */
  ghost predicate OwnAnswers(s: C.State) {
    forall t :: t in s.settled && s.settled[t].Resolved? ==> OwnAnswer(s, t)
  }

  predicate OwnAnswer(s: C.State, t: C.Ticket)
    requires t in s.settled && s.settled[t].Resolved?
  {
    s.settled[t].answer.turn in s.owner && s.owner[s.settled[t].answer.turn] == t
  }

  /** All requests sent for prompts before `n` have had their `agent_end`. */
  ghost predicate EndedBefore(n: Node, t: int) {
    forall id :: id in n.client.owner && n.client.owner[id] < t ==> id in n.ended
  }

  ghost predicate GoodNode(n: Node) {
    && C.Inv(n.client) && OwnAnswers(n.client) && |n.asked| == n.client.calls
    && (forall t :: t in n.client.settled && n.client.settled[t].Resolved? ==> n.client.settled[t].answer.turn in n.ended)
    && (forall id :: id in n.ended ==> id in n.client.owner)
  }

  /** A client given up has nothing left to settle. */
  ghost predicate Retired(n: Node) {
    GoodNode(n) && C.Done(n.client) == n.client.calls
  }

  /** A client in use: every prompt but the awaited one is answered. */
  ghost predicate Serving(n: Node, waiting: Option<C.Ticket>, phase: T.Phase) {
    && GoodNode(n)
    && (waiting.Some? ==> n.client.calls == waiting.value + 1 && C.Done(n.client) >= waiting.value)
    && (waiting.Some? ==> EndedBefore(n, waiting.value))
    && (waiting.None? ==> C.Done(n.client) == n.client.calls)
    && (waiting.None? && phase == T.Ready ==> EndedBefore(n, n.client.calls))
  }

  ghost predicate Inv(w: World) {
    && KeepsProtocol(w)
    && (w.waiting.Some? ==> w.inUse)
    && (w.inUse ==> w.nodes != [] && Serving(Last(w), w.waiting, Phase(w)))
    && (forall i :: 0 <= i < |w.nodes| && !(w.inUse && i == |w.nodes| - 1) ==> Retired(w.nodes[i]))
  }

  lemma OwnerSame(s: C.State, e: C.Event)
    requires !e.Begin?
    ensures C.Step(s, e).owner == s.owner && (FromOutside(e) ==> C.Step(s, e).calls == s.calls)
  {
  }

  lemma OwnerGrows(s: C.State, e: C.Event)
    requires C.Inv(s)
    ensures forall id :: id in s.owner ==> id in C.Step(s, e).owner && C.Step(s, e).owner[id] == s.owner[id]
    ensures forall id :: id in C.Step(s, e).owner && id !in s.owner ==> C.Step(s, e).owner[id] == s.begun < s.calls
    ensures FromOutside(e) ==> C.Step(s, e).calls == s.calls
  {
    if !e.Begin? { OwnerSame(s, e); }
  }

  /** A prompt that an event settles with an answer is the pending one, ended by that event. */
  lemma SettledAfter(s: C.State, e: C.Event, t: C.Ticket)
    requires C.Inv(s) && t in C.Step(s, e).settled && t !in s.settled
    ensures C.Step(s, e).settled[t].Resolved? ==>
      && e.Stdout? && e.line.AgentEnd? && C.Step(s, e).settled[t].answer.turn == e.line.turn
      && s.pending.Some? && t == s.pending.value.ticket && C.Step(s, e).owner == s.owner
  {
  }

  ghost predicate AnswersEnded(n: Node) {
    forall t :: t in n.client.settled && n.client.settled[t].Resolved? ==>
      OwnAnswer(n.client, t) && n.client.settled[t].answer.turn in n.ended
  }

  lemma StepAnswers(n: Node, e: C.Event)
    requires C.Inv(n.client) && AnswersEnded(n)
    requires e.Stdout? && e.line.AgentEnd? && n.client.pending.Some? ==>
      e.line.turn in n.client.owner && n.client.owner[e.line.turn] == n.client.pending.value.ticket
    ensures AnswersEnded(StepNode(n, e))
  {
    hide C.Step, C.Inv;
    var n' := StepNode(n, e);
    OwnerGrows(n.client, e);
    forall t | t in n'.client.settled && n'.client.settled[t].Resolved?
      ensures OwnAnswer(n'.client, t) && n'.client.settled[t].answer.turn in n'.ended
    {
      if t in n.client.settled {
        C.SettlementStays(n.client, e, t);
      } else {
        SettledAfter(n.client, e, t);
      }
    }
  }

  lemma GoodParts(n: Node)
    ensures GoodNode(n) <==> C.Inv(n.client) && AnswersEnded(n) && |n.asked| == n.client.calls && n.ended <= n.client.owner.Keys
  {
  }

  lemma StepGood(n: Node, e: C.Event)
    requires GoodNode(n)
    requires FromOutside(e) && (e.Stdout? && e.line.AgentEnd? ==> e.line.turn in n.client.owner)
    requires e.Stdout? && e.line.AgentEnd? && n.client.pending.Some? ==>
      n.client.owner[e.line.turn] == n.client.pending.value.ticket
    ensures GoodNode(StepNode(n, e))
  {
    hide C.Step, C.Inv, AnswersEnded, GoodNode;
    GoodParts(n);
    GoodParts(StepNode(n, e));
    C.StepKeeps(n.client, e);
    StepAnswers(n, e);
    OwnerGrows(n.client, e);
  }

  /** The only request still without its `agent_end` is the awaited one. */
  lemma TurnIsAwaited(n: Node, turn: nat, t: C.Ticket)
    requires C.Inv(n.client) && n.client.calls == t + 1 && EndedBefore(n, t)
    requires turn in n.client.owner && turn !in n.ended
    ensures n.client.owner[turn] == t
    ensures n.client.pending.Some? ==> n.client.pending.value.ticket == t
  {
  }

  lemma DoneGrows(s: C.State, e: C.Event)
    requires C.Inv(s) && FromOutside(e)
    ensures C.Done(s) <= C.Done(C.Step(s, e)) <= s.calls
  {
    C.StepKeeps(s, e);
    if !e.Begin? { OwnerSame(s, e); }
    if C.Done(s) > 0 { C.SettlementStays(s, e, C.Done(s) - 1); }
  }

  /** On a client without a prompt to settle no `agent_end` settles one. */
  lemma NothingPending(s: C.State)
    requires C.Inv(s) && C.Done(s) == s.calls
    ensures s.pending.None?
  {
  }

  lemma ServingStep(n: Node, e: C.Event, waiting: Option<C.Ticket>, phase: T.Phase)
    requires Serving(n, waiting, phase) && ProcessMay(n, e)
    ensures Serving(StepNode(n, e), waiting, phase)
  {
    hide C.Step, GoodNode;
    GoodParts(n);
    if e.Stdout? && e.line.AgentEnd? {
      if waiting.Some? { TurnIsAwaited(n, e.line.turn, waiting.value); } else { NothingPending(n.client); }
    }
    StepGood(n, e);
    OwnerGrows(n.client, e);
    DoneGrows(n.client, e);
  }

  lemma RetiredStep(n: Node, e: C.Event)
    requires Retired(n) && ProcessMay(n, e)
    ensures Retired(StepNode(n, e))
  {
    hide C.Step, C.Inv, GoodNode, C.Done;
    GoodParts(n);
    NothingPending(n.client);
    StepGood(n, e);
    OwnerGrows(n.client, e);
    DoneGrows(n.client, e);
  }

  // ---- the whole world ----

  /** One more entry in the log. */
  lemma PhaseNext(ops: seq<T.Op>, op: T.Op)
    ensures T.Follow(T.Ready, ops + [op]) == T.Next(T.Follow(T.Ready, ops), op)
  {
    T.FollowAppend(T.Ready, ops, [op]);
    assert [op][1..] == [];
  }

  /** A world that keeps the protocol comes from one that does: a broken log stays broken. */
  lemma ProtocolBefore(parse: Parser, w: World, e: Event)
    requires Possible(w, e) && KeepsProtocol(Step(parse, w, e))
    ensures KeepsProtocol(w)
  {
    match e
    case Observe => PhaseNext(w.ops, Logged(parse, w));
    case Reset => PhaseNext(w.ops, T.Reset);
    case _ =>
  }

  lemma SendKeeps(parse: Parser, w: World, items: B.Batch)
    requires Inv(w) && Possible(w, Send(items)) && KeepsProtocol(Step(parse, w, Send(items)))
    ensures Inv(Step(parse, w, Send(items)))
  {
    var n := Target(w);
    C.StepKeeps(n.client, C.Call);
    assert Serving(Asked(n, items), Some(n.client.calls), T.Ready);
    var w' := Step(parse, w, Send(items));
    assert Last(w') == Asked(n, items);
    forall i | 0 <= i < |w'.nodes| - 1 ensures Retired(w'.nodes[i]) {
      assert w'.nodes[i] == w.nodes[i];
    }
  }

  lemma ObserveKeeps(parse: Parser, w: World)
    requires Inv(w) && Possible(w, Observe)
    ensures Inv(Step(parse, w, Observe))
  {
    var n := Last(w);
    var t := w.waiting.value;
    var op := Logged(parse, w);
    PhaseNext(w.ops, op);
    assert C.Done(n.client) == n.client.calls;
    if op.ok {
      forall id | id in n.client.owner && n.client.owner[id] < n.client.calls ensures id in n.ended {
        if n.client.owner[id] == t {
          assert OwnAnswer(n.client, t);
          assert n.client.settled[t].answer.turn == id;
        }
      }
    }
  }

  /** A client without an awaited prompt is closed and has nothing left to settle. */
  lemma CloseRetires(n: Node, phase: T.Phase)
    requires Serving(n, None, phase)
    ensures Retired(n.(client := C.Step(n.client, C.CloseCall)))
  {
    C.StepKeeps(n.client, C.CloseCall);
  }

  lemma ResetKeeps(parse: Parser, w: World)
    requires Inv(w) && Possible(w, Reset)
    ensures Inv(Step(parse, w, Reset))
  {
    hide Serving, Retired, C.Step;
    PhaseNext(w.ops, T.Reset);
    if w.inUse {
      CloseRetires(Last(w), Phase(w));
      var w' := Step(parse, w, Reset);
      forall i | 0 <= i < |w'.nodes| ensures Retired(w'.nodes[i]) {
        if i < |w'.nodes| - 1 { assert w'.nodes[i] == w.nodes[i]; }
      }
    }
  }

  lemma ClientKeeps(parse: Parser, w: World, index: nat, e: C.Event)
    requires Inv(w) && Possible(w, Client(index, e))
    ensures Inv(Step(parse, w, Client(index, e)))
  {
    hide Serving, Retired, StepNode, ProcessMay;
    if w.inUse && index == |w.nodes| - 1 {
      ServingStep(w.nodes[index], e, w.waiting, Phase(w));
    } else {
      RetiredStep(w.nodes[index], e);
    }
  }

  lemma {:induction false} ProtocolThroughout(parse: Parser, w: World, events: seq<Event>)
    requires PossibleRun(parse, w, events) && KeepsProtocol(Run(parse, w, events))
    ensures KeepsProtocol(w)
    decreases |events|
  {
    if events != [] {
      ProtocolThroughout(parse, Step(parse, w, events[0]), events[1..]);
      ProtocolBefore(parse, w, events[0]);
    }
  }

  /** Any possible run at whose end the translator has kept its protocol keeps the invariant. */
  lemma {:induction false} RunKeeps(parse: Parser, w: World, events: seq<Event>)
    requires Inv(w) && PossibleRun(parse, w, events) && KeepsProtocol(Run(parse, w, events))
    ensures Inv(Run(parse, w, events))
    decreases |events|
  {
    if events != [] {
      ProtocolThroughout(parse, Step(parse, w, events[0]), events[1..]);
      match events[0] {
        case Send(items) => SendKeeps(parse, w, items);
        case Observe => ObserveKeeps(parse, w);
        case Reset => ResetKeeps(parse, w);
        case Client(index, e) => ClientKeeps(parse, w, index, e);
      }
      RunKeeps(parse, Step(parse, w, events[0]), events[1..]);
    }
  }

  /**
   No stale answer: in every possible run in which the translator has reset after each failure, every
   prompt that was resolved, on any client, was resolved by the `agent_end` of its own request.
   */
  lemma NoStaleAnswer(parse: Parser, events: seq<Event>, i: nat, t: C.Ticket)
    requires PossibleRun(parse, Start, events) && KeepsProtocol(Run(parse, Start, events))
    requires i < |Run(parse, Start, events).nodes|
    requires t in Run(parse, Start, events).nodes[i].client.settled
    requires Run(parse, Start, events).nodes[i].client.settled[t].Resolved?
    ensures OwnAnswer(Run(parse, Start, events).nodes[i].client, t)
  {
    RunKeeps(parse, Start, events);
  }

  // ---- what the translator has heard ----

  /** An entry of what was heard is the settlement of a prompt that was asked. */
  ghost predicate HeardFrom(parse: Parser, nodes: seq<Node>, h: Heard) {
    && h.node < |nodes| && h.ticket < |nodes[h.node].asked| && h.ticket in nodes[h.node].client.settled
    && h.outcome == OutcomeOf(parse, nodes[h.node].client.settled[h.ticket])
  }

  /** The log names what was heard, and the items of the prompt it was heard from. */
  ghost predicate LoggedFrom(w: World, op: T.Op) {
    op.Sent? ==>
      && op.at < |w.heard| && w.heard[op.at].node < |w.nodes|
      && w.heard[op.at].ticket < |w.nodes[w.heard[op.at].node].asked|
      && op.items == w.nodes[w.heard[op.at].node].asked[w.heard[op.at].ticket]
      && op.ok == T.Attempt(op.items, w.heard[op.at].outcome).Done?
  }

  ghost predicate Records(parse: Parser, w: World) {
    && (forall i :: 0 <= i < |w.heard| ==> HeardFrom(parse, w.nodes, w.heard[i]))
    && (forall i :: 0 <= i < |w.ops| ==> LoggedFrom(w, w.ops[i]))
  }

  /** Nodes only gain: what was asked and settled stays. */
  ghost predicate Later(n: Node, n': Node) {
    && n.asked <= n'.asked
    && forall t :: t in n.client.settled ==> t in n'.client.settled && n'.client.settled[t] == n.client.settled[t]
  }

  ghost predicate AllLater(a: seq<Node>, b: seq<Node>) {
    |a| <= |b| && forall i :: 0 <= i < |a| ==> Later(a[i], b[i])
  }

  lemma StepLater(n: Node, e: C.Event, items: B.Batch)
    ensures Later(n, StepNode(n, e)) && Later(n, n.(client := C.Step(n.client, e))) && Later(n, Asked(n, items))
  {
    forall t | t in n.client.settled
      ensures t in C.Step(n.client, e).settled && C.Step(n.client, e).settled[t] == n.client.settled[t]
    {
      C.SettlementStays(n.client, e, t);
    }
  }

  lemma NodesLater(parse: Parser, w: World, e: Event)
    ensures AllLater(w.nodes, Step(parse, w, e).nodes)
  {
    forall i | 0 <= i < |w.nodes| ensures Later(w.nodes[i], Step(parse, w, e).nodes[i]) {
      StepLater(w.nodes[i], if e.Client? then e.event else C.CloseCall, if e.Send? then e.items else []);
    }
  }

  lemma RecordsStep(parse: Parser, w: World, e: Event)
    requires Records(parse, w)
    ensures Records(parse, Step(parse, w, e))
  {
    var w' := Step(parse, w, e);
    NodesLater(parse, w, e);
    forall i | 0 <= i < |w'.ops| ensures LoggedFrom(w', w'.ops[i]) {
      if i < |w.ops| { assert LoggedFrom(w.(nodes := w'.nodes), w.ops[i]); }
    }
    forall i | 0 <= i < |w'.heard| ensures HeardFrom(parse, w'.nodes, w'.heard[i]) {
      if i < |w.heard| { assert HeardFrom(parse, w'.nodes, w.heard[i]); }
    }
  }

  lemma {:induction false} RecordsKept(parse: Parser, w: World, events: seq<Event>)
    requires Records(parse, w)
    ensures Records(parse, Run(parse, w, events))
    decreases |events|
  {
    if events != [] {
      RecordsStep(parse, w, events[0]);
      RecordsKept(parse, Step(parse, w, events[0]), events[1..]);
    }
  }

  // ---- the translator as the driver ----

  /** Between two batches: everything is as it should be, and the translator may send. */
  ghost predicate Resting(parse: Parser, w: World) {
    Inv(w) && Records(parse, w) && w.waiting.None? && Phase(w) == T.Ready
  }

  /** The world as somewhere in the middle, or at the end, of what the translator does in `trace`. */
  ghost predicate Underway(w0: World, w: World, trace: seq<T.Op>) {
    && w.ops <= w0.ops + trace
    && (w.waiting.Some? ==> |w.ops| < |w0.ops + trace| && (w0.ops + trace)[|w.ops|].Sent?)
  }

  /** A log that ends ready was never broken, and was ready before each prompt. */
  lemma PrefixKeepsProtocol(all: seq<T.Op>, ops: seq<T.Op>)
    requires T.Follow(T.Ready, all) != T.Broken && ops <= all
    ensures T.Follow(T.Ready, ops) != T.Broken
    ensures |ops| < |all| && all[|ops|].Sent? ==> T.Follow(T.Ready, ops) == T.Ready
  {
    var rest := all[|ops|..];
    assert all == ops + rest;
    T.FollowAppend(T.Ready, ops, rest);
    BrokenStays(rest);
    if rest != [] && rest[0].Sent? {
      BrokenStays(rest[1..]);
    }
  }

  lemma {:induction false} BrokenStays(trace: seq<T.Op>)
    ensures T.Follow(T.Broken, trace) == T.Broken
    decreases |trace|
  {
    if trace != [] { BrokenStays(trace[1..]); }
  }

  /**
   At every moment of a batch translated on the system, whatever fails on the way, every prompt resolved on
   any of its clients holds its own answer; once the batch has returned, the system rests again.
   */
  lemma BatchGetsOwnAnswers(parse: Parser, w0: World, events: seq<Event>, o: nat -> T.Outcome, items: B.Batch)
    requires Resting(parse, w0) && PossibleRun(parse, w0, events)
    requires Underway(w0, Run(parse, w0, events), T.Translate(o, |w0.heard|, items).trace)
    ensures var w := Run(parse, w0, events);
      && (forall i :: 0 <= i < |w.nodes| ==> OwnAnswers(w.nodes[i].client))
      && (w.waiting.None? && w.ops == w0.ops + T.Translate(o, |w0.heard|, items).trace ==> Resting(parse, w))
  {
    hide T.Translate, T.TranslateFrom, Step, OwnAnswers, GoodNode, Serving, Retired, PossibleRun, Run, Records;
    var w := Run(parse, w0, events);
    var trace := T.Translate(o, |w0.heard|, items).trace;
    TraceKeepsProtocol(o, |w0.heard|, items);
    T.FollowAppend(T.Ready, w0.ops, trace);
    PrefixKeepsProtocol(w0.ops + trace, w.ops);
    RunKeeps(parse, w0, events);
    RecordsKept(parse, w0, events);
    InvOwnAnswers(w);
  }

  lemma TraceKeepsProtocol(o: nat -> T.Outcome, at: nat, items: B.Batch)
    ensures T.Follow(T.Ready, T.Translate(o, at, items).trace) == T.Ready
  {
    T.BatchKeepsProtocol(o, at, items, 0);
  }

  lemma InvOwnAnswers(w: World)
    requires Inv(w)
    ensures forall i :: 0 <= i < |w.nodes| ==> OwnAnswers(w.nodes[i].client)
  {
    forall i | 0 <= i < |w.nodes| ensures OwnAnswers(w.nodes[i].client) {
      assert Retired(w.nodes[i]) || i == |w.nodes| - 1;
    }
  }

  /** Before the first batch the system rests. */
  lemma StartRests(parse: Parser)
    ensures Resting(parse, Start)
  {
  }

  /** The batch is through, and o says what was heard. */
  ghost predicate Returned(w0: World, w: World, o: nat -> T.Outcome, items: B.Batch) {
    && w.waiting.None? && w.ops == w0.ops + T.Translate(o, |w0.heard|, items).trace
    && forall i :: 0 <= i < |w.heard| ==> o(i) == w.heard[i].outcome
  }

  /** The value is the text under the key in the answer that a request asking for the key was resolved with. */
  ghost predicate Supplied(parse: Parser, n: Node, t: C.Ticket, key: string, value: string) {
    && t < |n.asked| && key in T.KeysOf(n.asked[t])
    && t in n.client.settled && n.client.settled[t].Resolved? && OwnAnswer(n.client, t)
    && var reply := parse(n.client.settled[t].answer.text);
       reply.Reply? && key in reply.fields && reply.fields[key] == T.JsonString(value)
  }

  lemma LoggedValue(parse: Parser, w: World, o: nat -> T.Outcome, i: nat, key: string, value: string)
    requires Records(parse, w) && forall j :: 0 <= j < |w.nodes| ==> OwnAnswers(w.nodes[j].client)
    requires forall j :: 0 <= j < |w.heard| ==> o(j) == w.heard[j].outcome
    requires i < |w.ops| && T.AnsweredBy(o, w.ops[i], key, value)
    ensures exists j, t :: 0 <= j < |w.nodes| && Supplied(parse, w.nodes[j], t, key, value)
  {
    assert LoggedFrom(w, w.ops[i]);
    var h := w.heard[w.ops[i].at];
    assert HeardFrom(parse, w.nodes, h);
    assert OwnAnswers(w.nodes[h.node].client);
    assert Supplied(parse, w.nodes[h.node], h.ticket, key, value);
  }

  /**
   From prompt to value: when a batch returns, each value is the text found under its key in the output of the
   `agent_end` that answered the very request sent with that key.
   */
  lemma ReturnedValuesAreOwn(parse: Parser, w0: World, events: seq<Event>, o: nat -> T.Outcome, items: B.Batch, key: string)
    requires Resting(parse, w0) && PossibleRun(parse, w0, events)
    requires Returned(w0, Run(parse, w0, events), o, items)
    requires T.Translate(o, |w0.heard|, items).result.Done? && key in T.KeysOf(items)
    ensures var m := T.Translate(o, |w0.heard|, items).result.translated;
      var nodes := Run(parse, w0, events).nodes;
      key in m && exists i, t :: 0 <= i < |nodes| && Supplied(parse, nodes[i], t, key, m[key])
  {
    hide Step, OwnAnswers, Inv, Records, PossibleRun, Run, T.Translate;
    var w, trace := Run(parse, w0, events), T.Translate(o, |w0.heard|, items).trace;
    BatchGetsOwnAnswers(parse, w0, events, o, items);
    T.ValueAnswered(o, |w0.heard|, items, key);
    var value := T.Translate(o, |w0.heard|, items).result.translated[key];
    var i :| 0 <= i < |trace| && T.AnsweredBy(o, trace[i], key, value);
    assert w.ops[|w0.ops| + i] == trace[i];
    LoggedValue(parse, w, o, |w0.ops| + i, key, value);
  }

  /** The steps after which an awaited prompt is settled: its turn comes, and its own timer fires. */
  function Waiting(w: World): seq<Event> {
    if w.nodes == [] || w.waiting.None? then []
    else
      var last, s := |w.nodes| - 1, Last(w).client;
      if w.waiting.value in s.settled then []
      else if s.pending.Some? then [Client(last, C.TimerFires(s.pending.value.id))]
      else if s.closed then [Client(last, C.Begin)]
      else [Client(last, C.Begin), Client(last, C.TimerFires(s.requestCount + 1))]
  }

  lemma SettlesWithin(s: C.State, t: C.Ticket)
    requires C.Inv(s) && s.calls == t + 1 && C.Done(s) >= t
    ensures if t in s.settled then true
      else if s.pending.Some? then t in C.Step(s, C.TimerFires(s.pending.value.id)).settled
      else if s.closed then t in C.Step(s, C.Begin).settled
      else t in C.Step(C.Step(s, C.Begin), C.TimerFires(s.requestCount + 1)).settled
  {
    if t !in s.settled && s.pending.None? && !s.closed {
      assert C.Step(s, C.Begin).timers == s.timers + {s.requestCount + 1};
    }
  }

  lemma RunOne(parse: Parser, w: World, e: Event)
    ensures Run(parse, w, [e]) == Step(parse, w, e) && (PossibleRun(parse, w, [e]) <==> Possible(w, e))
  {
    assert [e][1..] == [];
  }

  lemma RunTwo(parse: Parser, w: World, e: Event, e': Event)
    ensures Run(parse, w, [e, e']) == Step(parse, Step(parse, w, e), e')
    ensures PossibleRun(parse, w, [e, e']) <==> Possible(w, e) && Possible(Step(parse, w, e), e')
  {
    assert [e, e'][1..] == [e'];
    RunOne(parse, Step(parse, w, e), e');
  }

  /** Nothing happened on the translator's side. */
  ghost predicate SameTranslator(w: World, w': World) {
    w'.waiting == w.waiting && w'.heard == w.heard && w'.ops == w.ops
  }

  lemma ClientStep(parse: Parser, w: World, e: C.Event)
    requires w.nodes != [] && FromOutside(e) && !e.Stdout?
    ensures var event := Client(|w.nodes| - 1, e);
      var w' := Step(parse, w, event);
      && Possible(w, event) && SameTranslator(w, w') && w'.inUse == w.inUse && |w'.nodes| == |w.nodes|
      && Last(w').client == C.Step(Last(w).client, e) && Last(w').asked == Last(w).asked
  {
  }

  /** Any event of the client in use that its process may cause. */
  lemma LastStep(parse: Parser, w: World, e: C.Event)
    requires w.nodes != [] && ProcessMay(Last(w), e)
    ensures var event := Client(|w.nodes| - 1, e);
      var w' := Step(parse, w, event);
      && Possible(w, event) && SameTranslator(w, w') && w'.inUse == w.inUse && |w'.nodes| == |w.nodes|
      && Last(w') == StepNode(Last(w), e)
  {
  }

  lemma AwaitedIsLast(w: World)
    requires Inv(w) && w.waiting.Some?
    ensures w.inUse && w.nodes != [] && w.waiting.value < |Last(w).asked|
    ensures var s := Last(w).client;
      C.Inv(s) && s.calls == w.waiting.value + 1 && C.Done(s) >= w.waiting.value
  {
  }

  lemma RunNone(parse: Parser, w: World)
    ensures Run(parse, w, []) == w && PossibleRun(parse, w, [])
  {
  }

  lemma OutcomeComes(parse: Parser, w: World)
    requires Inv(w) && w.waiting.Some?
    ensures |Waiting(w)| <= 2 && PossibleRun(parse, w, Waiting(w)) && Possible(Run(parse, w, Waiting(w)), Observe)
    ensures var w' := Run(parse, w, Waiting(w));
      SameTranslator(w, w') && w.nodes != [] && w'.nodes != [] && Last(w').asked == Last(w).asked
  {
    hide Inv, C.Inv, C.Step, Step, Run, PossibleRun;
    AwaitedIsLast(w);
    var last, s := |w.nodes| - 1, Last(w).client;
    SettlesWithin(s, w.waiting.value);
    RunNone(parse, w);
    if w.waiting.value !in s.settled && s.pending.Some? {
      ClientStep(parse, w, C.TimerFires(s.pending.value.id));
      RunOne(parse, w, Client(last, C.TimerFires(s.pending.value.id)));
    } else if w.waiting.value !in s.settled {
      ClientStep(parse, w, C.Begin);
      if s.closed {
        RunOne(parse, w, Client(last, C.Begin));
      } else {
        ClientStep(parse, Step(parse, w, Client(last, C.Begin)), C.TimerFires(s.requestCount + 1));
        RunTwo(parse, w, Client(last, C.Begin), Client(last, C.TimerFires(s.requestCount + 1)));
      }
    }
  }

  /**
   The system serves the protocol: any send and any reset is possible while nothing is awaited, and an awaited
   outcome can be observed after at most two steps of the client.
   */
  lemma ProtocolIsServed(parse: Parser, w: World)
    requires Inv(w)
    ensures w.waiting.None? ==> Possible(w, Reset) && forall items :: Possible(w, Send(items))
    ensures w.waiting.Some? ==>
      |Waiting(w)| <= 2 && PossibleRun(parse, w, Waiting(w)) && Possible(Run(parse, w, Waiting(w)), Observe)
  {
    hide Run, PossibleRun, Inv;
    if w.waiting.Some? { OutcomeComes(parse, w); }
  }

  /** A prompt goes to the client in use; after a reset, which closes that one, or at first, to a new one. */
  lemma SendTarget(parse: Parser, w: World, items: B.Batch)
    requires Inv(w) && w.waiting.None?
    ensures var w' := Step(parse, w, Send(items));
      && w'.inUse && |w'.nodes| == (if w.inUse then |w.nodes| else |w.nodes| + 1)
      && (forall i :: 0 <= i < |w'.nodes| - 1 ==> w'.nodes[i] == w.nodes[i])
      && Last(w').asked == (if w.inUse then Last(w).asked else []) + [items]
      && w'.waiting == Some(|Last(w').asked| - 1)
    ensures var w' := Step(parse, w, Reset);
      !w'.inUse && |w'.nodes| == |w.nodes| && (w.inUse ==> Last(w').client == Last(w).client.(closed := true))
  {
  }
}

/**
 `PiRpcClient`: a client of one translation process.  Prompts run one at a time through a promise
 chain; a single `pending` slot is settled by stdout lines, write errors, timeouts and process events.

 A prompt is named by its place among the `prompt` calls on the client (its ticket); a prompt that
 reaches the process also has a request id.  `agent_end` events carry no request id: the field `turn`
 records which request the process was answering, and the client never reads it.
 */
module RpcClient {
  import opened Text

  type Ticket = nat

  datatype Pending = Pending(id: nat, ticket: Ticket, responseReceived: bool)

  datatype Answer = Answer(turn: nat, text: string)

  datatype Settlement = Resolved(answer: Answer) | Rejected(reason: string)

  /**
   A parsed stdout line; anything the client ignores outright is `Noise`.  `NullLine` is the JSON text `null`:
   reading its type throws in the handler, whose promise nobody awaits.
   */
  datatype Line =
    | Noise
    | NullLine
    | Response(id: Option<nat>, success: bool, error: Option<string>)
    | AgentEnd(turn: nat, extracted: Option<string>, failure: string)

  datatype Event =
    | Call
    | Begin
    | Stdout(line: Line)
    | WriteFailed(id: nat, error: string)
    | TimerFires(id: nat)
    | ProcessError(error: string)
    | ProcessClosed
    | CloseCall

  datatype State = State(
    closed: bool,
    pending: Option<Pending>,
    requestCount: nat,
    calls: nat,                        // prompts asked for
    begun: nat,                        // prompts whose turn in the chain has come
    owner: map<nat, Ticket>,           // the prompt that each request id was sent for
    timers: set<nat>,
    heartbeats: set<nat>,
    settled: map<Ticket, Settlement>,
    order: seq<Ticket>                 // tickets in the order they settled
  )

  const Initial := State(false, None, 0, 0, 0, map[], {}, {}, map[], [])

  const TIMED_OUT := "translation prompt timed out"

  /** Settling a promise has an effect the first time only. */
  function Settle(s: State, t: Ticket, x: Settlement): State {
    if t in s.settled then s else s.(settled := s.settled[t := x], order := s.order + [t])
  }

  /** The `resolve`/`reject` closures of a pending prompt: stop both timers, settle the promise. */
  function Finish(s: State, p: Pending, x: Settlement): State {
    Settle(s.(timers := s.timers - {p.id}, heartbeats := s.heartbeats - {p.id}), p.ticket, x)
  }

  function RejectPending(s: State, error: string): State {
    match s.pending
    case None => s
    case Some(p) => Finish(s.(pending := None), p, Rejected(error))
  }

  function ErrorText(error: Option<string>): string {
    if error.Some? && Trim(error.value) != "" then Trim(error.value) else "pi prompt failed"
  }

  function HandleLine(s: State, line: Line): State {
    match s.pending
    case None => s
    case Some(p) =>
      match line
      case Noise => s
      case NullLine => s
      case Response(id, success, error) =>
        if id != Some(p.id) then s
        else if !success then Finish(s.(pending := None), p, Rejected(ErrorText(error)))
        else s.(pending := Some(p.(responseReceived := true)))
      case AgentEnd(turn, extracted, failure) =>
        Finish(s.(pending := None), p,
               if extracted.Some? then Resolved(Answer(turn, extracted.value)) else Rejected(failure))
  }

  /** The next prompt's turn has come: every earlier one is settled. */
  predicate CanBegin(s: State) {
    s.begun < s.calls && (s.begun == 0 || s.begun - 1 in s.settled)
  }

  function BeginPrompt(s: State): State {
    var t := s.begun;
    var s := s.(begun := t + 1);
    if s.closed then Settle(s, t, Rejected("pi process unavailable"))
    else
      var id := s.requestCount + 1;
      s.(requestCount := id, owner := s.owner[id := t], timers := s.timers + {id},
         heartbeats := s.heartbeats + {id}, pending := Some(Pending(id, t, false)))
  }

  function FireTimer(s: State, id: nat): State
    requires id in s.owner
  {
    var s := s.(timers := s.timers - {id});
    if s.pending.Some? && s.pending.value.id == id then
      Settle(s.(pending := None, heartbeats := s.heartbeats - {id}, closed := true), s.owner[id], Rejected(TIMED_OUT))
    else s
  }

  function FailWrite(s: State, id: nat, error: string): State
    requires id in s.owner
  {
    var p := if s.pending.Some? && s.pending.value.id == id then None else s.pending;
    Settle(s.(timers := s.timers - {id}, heartbeats := s.heartbeats - {id}, pending := p), s.owner[id], Rejected(error))
  }

  /** An event that cannot happen in the state (a cleared timer, a write never made) changes nothing. */
  function Step(s: State, e: Event): State {
    match e
    case Call => s.(calls := s.calls + 1)
    case Begin => if CanBegin(s) then BeginPrompt(s) else s
    case Stdout(line) => HandleLine(s, line)
    case WriteFailed(id, error) => if id in s.owner then FailWrite(s, id, error) else s
    case TimerFires(id) => if id in s.timers && id in s.owner then FireTimer(s, id) else s
    case ProcessError(error) => RejectPending(s, error)
    case ProcessClosed => RejectPending(s.(closed := true), "pi process closed")
    case CloseCall => s.(closed := true)
  }

  function Run(s: State, events: seq<Event>): State
    decreases |events|
  {
    if events == [] then s else Run(Step(s, events[0]), events[1..])
  }

  // ---- the class ----

  class PiRpcClient {
    var closed: bool
    var pending: Option<Pending>
    var requestCount: nat
    var calls: nat
    var begun: nat
    var owner: map<nat, Ticket>
    var timers: set<nat>
    var heartbeats: set<nat>
    var settled: map<Ticket, Settlement>
    var order: seq<Ticket>

    function View(): State
      reads this
    {
      State(closed, pending, requestCount, calls, begun, owner, timers, heartbeats, settled, order)
    }

    constructor ()
      ensures View() == Initial
    {
      closed, pending, requestCount, calls, begun := false, None, 0, 0, 0;
      owner, timers, heartbeats, settled, order := map[], {}, {}, map[], [];
    }

    method SettlePromise(t: Ticket, x: Settlement)
      modifies `settled, `order
      ensures View() == Settle(old(View()), t, x)
    {
      if t !in settled {
        settled := settled[t := x];
        order := order + [t];
      }
    }

    method StopTimers(id: nat)
      modifies `timers, `heartbeats
      ensures View() == old(View()).(timers := old(timers) - {id}, heartbeats := old(heartbeats) - {id})
    {
      timers := timers - {id};
      heartbeats := heartbeats - {id};
    }

    method RejectPendingPrompt(error: string)
      modifies this
      ensures View() == RejectPending(old(View()), error)
    {
      var p := pending;
      pending := None;
      if p.Some? {
        StopTimers(p.value.id);
        SettlePromise(p.value.ticket, Rejected(error));
      }
    }

    method OnProcessClosed()
      modifies this
      ensures View() == Step(old(View()), ProcessClosed)
    {
      closed := true;
      RejectPendingPrompt("pi process closed");
    }

    method HandleStdoutLine(line: Line) returns (threw: bool)
      modifies this
      ensures View() == Step(old(View()), Stdout(line))
      ensures threw <==> old(pending.Some?) && line.NullLine?
    {
      threw := false;
      if pending == None {
        return;
      }
      var p := pending.value;
      match line {
        case Noise =>
        case NullLine =>
          threw := true;
        case Response(id, success, error) =>
          if id != Some(p.id) {
            return;
          }
          if !success {
            pending := None;
            StopTimers(p.id);
            SettlePromise(p.ticket, Rejected(ErrorText(error)));
            return;
          }
          pending := Some(p.(responseReceived := true));
        case AgentEnd(turn, extracted, failure) =>
          pending := None;
          StopTimers(p.id);
          if extracted.Some? {
            SettlePromise(p.ticket, Resolved(Answer(turn, extracted.value)));
          } else {
            SettlePromise(p.ticket, Rejected(failure));
          }
      }
    }

    method Prompt() returns (ticket: Ticket)
      modifies `calls
      ensures ticket == old(calls) && View() == Step(old(View()), Call)
    {
      ticket := calls;
      calls := calls + 1;
    }

    method StartNext()
      requires CanBegin(View())
      modifies this
      ensures View() == Step(old(View()), Begin)
    {
      var t := begun;
      begun := begun + 1;
      if closed {
        SettlePromise(t, Rejected("pi process unavailable"));
        return;
      }
      requestCount := requestCount + 1;
      var id := requestCount;
      owner := owner[id := t];
      heartbeats := heartbeats + {id};
      timers := timers + {id};
      pending := Some(Pending(id, t, false));
    }

    method OnTimeout(id: nat)
      requires id in timers && id in owner
      modifies this
      ensures View() == Step(old(View()), TimerFires(id))
    {
      timers := timers - {id};
      if pending.Some? && pending.value.id == id {
        pending := None;
        heartbeats := heartbeats - {id};
        Close();
        SettlePromise(owner[id], Rejected(TIMED_OUT));
      }
    }

    method OnWriteError(id: nat, error: string)
      requires id in owner
      modifies this
      ensures View() == Step(old(View()), WriteFailed(id, error))
    {
      StopTimers(id);
      if pending.Some? && pending.value.id == id {
        pending := None;
      }
      SettlePromise(owner[id], Rejected(error));
    }

    method Close()
      modifies `closed
      ensures View() == Step(old(View()), CloseCall)
    {
      if closed {
        return;
      }
      closed := true;
    }
  }

  // ---- what every run keeps ----

  ghost predicate Counting(order: seq<Ticket>, n: nat) {
    |order| == n && forall i :: 0 <= i < n ==> order[i] == i
  }

  /** How many prompts have settled: all that have begun, but for the pending one. */
  function Done(s: State): int {
    if s.pending.Some? then s.begun - 1 else s.begun
  }

  ghost predicate Inv(s: State) {
    && 0 <= Done(s) && s.begun <= s.calls
    && Counting(s.order, Done(s))
    && (forall t: nat :: t in s.settled <==> t < Done(s))
    && (forall id: nat :: id in s.owner <==> 1 <= id <= s.requestCount)
    && (forall id: nat :: id in s.owner ==> s.owner[id] < s.begun)
    && (forall a, b :: a in s.owner && b in s.owner && a < b ==> s.owner[a] < s.owner[b])
    && (s.pending.Some? ==>
          && s.pending.value.id == s.requestCount && s.pending.value.id in s.owner
          && s.pending.value.ticket == s.begun - 1 == s.owner[s.requestCount])
    && (forall id: nat :: id in s.owner && (s.pending.None? || id < s.requestCount) ==> s.owner[id] in s.settled)
    && s.timers == s.heartbeats == if s.pending.Some? then {s.pending.value.id} else {}
  }

  lemma FinishKeeps(s: State, x: Settlement)
    requires Inv(s) && s.pending.Some?
    ensures Inv(Finish(s.(pending := None), s.pending.value, x))
  {
    var s' := Finish(s.(pending := None), s.pending.value, x);
    assert s'.timers == {} && s'.heartbeats == {};
  }

  lemma BeginKeeps(s: State)
    requires Inv(s) && CanBegin(s)
    ensures Inv(BeginPrompt(s))
  {
    var s' := BeginPrompt(s);
    assert s.pending.None?;
    if !s.closed {
      assert s'.timers == {s'.requestCount};
    }
  }

  lemma WriteKeeps(s: State, id: nat, error: string)
    requires Inv(s) && id in s.owner
    ensures Inv(FailWrite(s, id, error))
  {
    var s' := FailWrite(s, id, error);
    if s.pending.Some? && s.pending.value.id == id {
      assert s'.timers == {};
    } else {
      assert s'.timers == s.timers;
    }
  }

  lemma TimerKeeps(s: State, id: nat)
    requires Inv(s) && id in s.timers && id in s.owner
    ensures Inv(FireTimer(s, id))
  {
    assert s.pending.Some? && s.pending.value.id == id;
    assert FireTimer(s, id).timers == {};
  }

  lemma LineKeeps(s: State, line: Line)
    requires Inv(s)
    ensures Inv(HandleLine(s, line))
  {
    if s.pending.Some? {
      match line
      case Noise =>
      case NullLine =>
      case Response(id, success, error) => if !success { FinishKeeps(s, Rejected(ErrorText(error))); }
      case AgentEnd(turn, extracted, failure) =>
        FinishKeeps(s, if extracted.Some? then Resolved(Answer(turn, extracted.value)) else Rejected(failure));
    }
  }

  lemma RejectKeeps(s: State, error: string)
    requires Inv(s)
    ensures Inv(RejectPending(s, error))
  {
  }

  lemma StepKeeps(s: State, e: Event)
    requires Inv(s)
    ensures Inv(Step(s, e))
  {
    match e
    case Begin => if CanBegin(s) { BeginKeeps(s); }
    case Stdout(line) => LineKeeps(s, line);
    case WriteFailed(id, error) => if id in s.owner { WriteKeeps(s, id, error); }
    case TimerFires(id) => if id in s.timers && id in s.owner { TimerKeeps(s, id); }
    case ProcessError(error) => RejectKeeps(s, error);
    case ProcessClosed => RejectKeeps(s.(closed := true), "pi process closed");
    case _ =>
  }

  /** The invariant holds after every interleaving of calls, lines, failures, timeouts and closes. */
  lemma {:induction false} RunKeeps(s: State, events: seq<Event>)
    requires Inv(s)
    ensures Inv(Run(s, events))
    decreases |events|
  {
    if events != [] {
      StepKeeps(s, events[0]);
      RunKeeps(Step(s, events[0]), events[1..]);
    }
  }

  lemma SettlementStays(s: State, e: Event, t: Ticket)
    requires t in s.settled
    ensures t in Step(s, e).settled && Step(s, e).settled[t] == s.settled[t]
    ensures s.closed ==> Step(s, e).closed
  {
  }

  /** A settled prompt keeps its settlement for ever, and a closed client stays closed. */
  lemma {:induction false} SettledForGood(s: State, events: seq<Event>, t: Ticket)
    requires t in s.settled
    ensures t in Run(s, events).settled && Run(s, events).settled[t] == s.settled[t]
    ensures s.closed ==> Run(s, events).closed
    decreases |events|
  {
    if events != [] {
      SettlementStays(s, events[0], t);
      SettledForGood(Step(s, events[0]), events[1..], t);
    }
  }

  /**
   After any run: prompts settle in the order they were asked for, each once; the one pending slot is
   never overwritten; and a prompt's timer and heartbeat are live exactly while it is pending.
   */
  lemma PromptsAreSerial(events: seq<Event>)
    ensures var s := Run(Initial, events);
      && Counting(s.order, |s.order|) && (forall t: nat :: t in s.settled <==> t < |s.order|)
      && |s.order| <= s.begun <= |s.order| + 1
      && (s.pending.Some? <==> s.begun == |s.order| + 1)
      && (CanBegin(s) ==> s.pending.None?)
      && (forall id :: id in s.timers <==> s.pending.Some? && s.pending.value.id == id)
      && s.heartbeats == s.timers
  {
    RunKeeps(Initial, events);
  }

  // ---- what each event does to a prompt ----

  /** Only an earlier prompt that is still pending holds the next one back. */
  lemma TurnComesExactly(s: State)
    requires Inv(s)
    ensures CanBegin(s) <==> s.begun < s.calls && s.pending.None?
  {
  }

  /** A turn on an open client sends a new request and waits; on a closed one the prompt is refused. */
  lemma TurnSends(s: State)
    requires Inv(s) && s.begun < s.calls && s.pending.None?
    ensures var s' := Step(s, Begin);
      if s.closed then s'.pending.None? && s'.settled == s.settled[s.begun := Rejected("pi process unavailable")]
      else
        && s'.pending == Some(Pending(s.requestCount + 1, s.begun, false)) && s'.settled == s.settled
        && s'.owner == s.owner[s.requestCount + 1 := s.begun] && !s'.closed
  {
  }

  /**
   The response to a pending prompt: accepted, it goes on waiting, unsettled and with its timers; refused, it is
   rejected with the error given, trimmed, or a default text.  Responses to other requests do nothing.
   */
  lemma ResponsesDecide(s: State, id: Option<nat>, error: Option<string>)
    requires Inv(s) && s.pending.Some?
    ensures var p := s.pending.value;
      var accepted, refused := Step(s, Stdout(Response(id, true, error))), Step(s, Stdout(Response(id, false, error)));
      if id == Some(p.id) then
        && accepted.pending == Some(Pending(p.id, p.ticket, true)) && p.ticket !in accepted.settled
        && accepted.settled == s.settled && accepted.timers == s.timers == {p.id} && accepted.closed == s.closed
        && refused.pending.None? && refused.timers == {} && refused.closed == s.closed
        && refused.settled == s.settled[p.ticket := Rejected(
             if error.None? || Blank(error.value) then "pi prompt failed" else Trim(error.value))]
      else accepted == s && refused == s
  {
    if error.Some? { TrimBlank(error.value); }
  }

  /** An `agent_end` settles the pending prompt: with its text, or with the failure found instead. */
  lemma EndsSettle(s: State, turn: nat, extracted: Option<string>, failure: string)
    requires Inv(s) && s.pending.Some?
    ensures var p := s.pending.value;
      var s' := Step(s, Stdout(AgentEnd(turn, extracted, failure)));
      && s'.pending.None? && s'.timers == {} && s'.closed == s.closed
      && s'.settled == s.settled[p.ticket :=
           if extracted.Some? then Resolved(Answer(turn, extracted.value)) else Rejected(failure)]
  {
  }

  /** Accepted and then ended with a text, a prompt is resolved with that text. */
  lemma AcceptedThenAnswered(s: State, error: Option<string>, turn: nat, text: string, failure: string)
    requires Inv(s) && s.pending.Some?
    ensures var p := s.pending.value;
      var s' := Step(Step(s, Stdout(Response(Some(p.id), true, error))), Stdout(AgentEnd(turn, Some(text), failure)));
      s'.pending.None? && s'.settled == s.settled[p.ticket := Resolved(Answer(turn, text))]
  {
    StepKeeps(s, Stdout(Response(Some(s.pending.value.id), true, error)));
    ResponsesDecide(s, Some(s.pending.value.id), error);
    EndsSettle(Step(s, Stdout(Response(Some(s.pending.value.id), true, error))), turn, Some(text), failure);
  }

  /** The course of a prompt on an open client without anything to do: asked, sent, accepted and answered. */
  lemma AnsweredTurn(s: State, text: string)
    requires Inv(s) && Done(s) == s.calls && !s.closed
    ensures var id, sent := s.requestCount + 1, Step(Step(s, Call), Begin);
      var accepted := Step(sent, Stdout(Response(Some(id), true, None)));
      var ended := Step(accepted, Stdout(AgentEnd(id, Some(text), "")));
      && sent.owner == s.owner[id := s.calls] && accepted.owner == sent.owner
      && ended.settled == s.settled[s.calls := Resolved(Answer(id, text))]
  {
    hide Inv, Trim, Blank;
    var asked := Step(s, Call);
    StepKeeps(s, Call);
    TurnComesExactly(asked);
    NothingLeft(s);
    TurnSends(asked);
    StepKeeps(asked, Begin);
    ResponsesDecide(Step(asked, Begin), Some(s.requestCount + 1), None);
    AcceptedThenAnswered(Step(asked, Begin), None, s.requestCount + 1, text, "");
  }

  lemma NothingLeft(s: State)
    requires Inv(s) && Done(s) == s.calls
    ensures s.pending.None? && s.begun == s.calls
  {
  }

  /** On a closed client a prompt is refused when its turn comes. */
  lemma RefusedTurn(s: State)
    requires Inv(s) && Done(s) == s.calls && s.closed
    ensures Step(Step(s, Call), Begin).settled == s.settled[s.calls := Rejected("pi process unavailable")]
  {
    var asked := Step(s, Call);
    StepKeeps(s, Call);
    TurnSends(asked);
  }

  /** The failures of a pending prompt: its timer closes the client, a write error and a process error do not. */
  lemma FailuresSettle(s: State, error: string)
    requires Inv(s) && s.pending.Some?
    ensures var p := s.pending.value;
      var fired, unwritten := Step(s, TimerFires(p.id)), Step(s, WriteFailed(p.id, error));
      var failed, gone := Step(s, ProcessError(error)), Step(s, ProcessClosed);
      && fired.settled == s.settled[p.ticket := Rejected("translation prompt timed out")] && fired.closed
      && unwritten.settled == s.settled[p.ticket := Rejected(error)] && unwritten.closed == s.closed
      && failed.settled == s.settled[p.ticket := Rejected(error)] && failed.closed == s.closed
      && gone.settled == s.settled[p.ticket := Rejected("pi process closed")] && gone.closed
      && fired.pending.None? && unwritten.pending.None? && failed.pending.None? && gone.pending.None?
  {
  }

  /** Without a pending prompt no line and no failure settles anything; only closing marks the client. */
  lemma IdleStays(s: State, line: Line, id: nat, error: string)
    requires Inv(s) && s.pending.None?
    ensures Step(s, Stdout(line)) == s && Step(s, ProcessError(error)) == s
    ensures Step(s, TimerFires(id)) == s && Step(s, WriteFailed(id, error)) == s
    ensures Step(s, ProcessClosed) == s.(closed := true) && Step(s, CloseCall) == s.(closed := true)
  {
  }

  // ---- no prompt is stuck ----

  /** The pending prompt's own timer, or else the next turn. */
  function DrainEvent(s: State): Event {
    if s.pending.Some? then TimerFires(s.pending.value.id) else Begin
  }

  lemma DrainStep(s: State)
    requires Inv(s) && Done(s) < s.calls
    ensures var s' := Step(s, DrainEvent(s));
      && Inv(s') && s'.calls == s.calls && Done(s) <= Done(s')
      && s'.begun == (if s.pending.Some? then s.begun else s.begun + 1)
      && (s.pending.Some? ==> Done(s') == Done(s) + 1)
  {
    StepKeeps(s, DrainEvent(s));
  }

  /** Only turns and time-outs, until every prompt is settled. */
  ghost function DrainPlan(s: State): seq<Event>
    requires Inv(s)
    decreases s.calls - Done(s), s.calls - s.begun
  {
    if Done(s) == s.calls then []
    else
      DrainStep(s);
      [DrainEvent(s)] + DrainPlan(Step(s, DrainEvent(s)))
  }

  lemma {:induction false} DrainSettlesAll(s: State)
    requires Inv(s)
    ensures forall t: nat :: t in Run(s, DrainPlan(s)).settled <==> t < s.calls
    ensures |DrainPlan(s)| <= (s.calls - Done(s)) + (s.calls - s.begun)
    decreases s.calls - Done(s), s.calls - s.begun
  {
    hide Step, DrainEvent;
    if Done(s) < s.calls {
      DrainStep(s);
      DrainSettlesAll(Step(s, DrainEvent(s)));
      assert DrainPlan(s)[1..] == DrainPlan(Step(s, DrainEvent(s)));
    }
  }

  /** From every reachable state, firing live timers and taking turns settles every prompt asked for. */
  lemma NoPromptIsStuck(events: seq<Event>)
    ensures var s := Run(Initial, events);
      exists rest :: |rest| <= 2 * (s.calls - |s.order|) &&
        forall t: nat :: t in Run(s, rest).settled <==> t < s.calls
  {
    var s := Run(Initial, events);
    RunKeeps(Initial, events);
    DrainSettlesAll(s);
  }

  lemma RunOne(s: State, e: Event)
    ensures Run(s, [e]) == Step(s, e)
  {
    assert [e][1..] == [];
  }

  lemma RunTwo(s: State, e: Event, e': Event)
    ensures Run(s, [e, e']) == Step(Step(s, e), e')
  {
    hide Step;
    assert [e, e'] == [e] + [e'];
    RunAppend(s, [e], [e']);
    RunOne(s, e);
    RunOne(Step(s, e), e');
  }

  lemma {:induction false} RunAppend(s: State, a: seq<Event>, b: seq<Event>)
    ensures Run(s, a + b) == Run(Run(s, a), b)
    decreases |a|
  {
    if a == [] {
      assert a + b == b;
    } else {
      assert (a + b)[1..] == a[1..] + b;
      RunAppend(Step(s, a[0]), a[1..], b);
    }
  }

  /** Two prompts asked for, the first one sent. */
  const OneSent := State(false, Some(Pending(1, 0, false)), 1, 2, 1, map[1 := 0], {1}, {1}, map[], [])

  /** The first prompt refused, the second one sent. */
  const NextSent :=
    State(false, Some(Pending(2, 1, false)), 2, 2, 2, map[1 := 0, 2 := 1], {2}, {2}, map[0 := Rejected("pi prompt failed")], [0])

  lemma FirstIsSent()
    ensures Run(Initial, [Call, Call] + [Begin]) == OneSent
  {
    RunAppend(Initial, [Call, Call], [Begin]);
    RunTwo(Initial, Call, Call);
    var asked := Initial.(calls := 2);
    assert Run(Initial, [Call, Call]) == asked;
    assert Step(asked, Begin) == OneSent;
    RunOne(asked, Begin);
  }

  /** On its own the client can hand one prompt's answer to the next: a refused prompt may still end later. */
  lemma ClientAloneCanMisattribute()
    ensures exists events ::
      var s := Run(Initial, events);
      && s.owner == map[1 := 0, 2 := 1]
      && 1 in s.settled && s.settled[1] == Resolved(Answer(1, "stale"))
  {
    var late := Stdout(AgentEnd(1, Some("stale"), ""));
    var a, b := [Call, Call] + [Begin], [Stdout(Response(Some(1), false, None)), Begin];
    FirstIsSent();
    RunAppend(Initial, a, b);
    RunAppend(Initial, a + b, [late]);
    var s := Run(Initial, a + b + [late]);
    RunOne(NextSent, late);
    assert s.owner == map[1 := 0, 2 := 1] && s.settled[1] == Resolved(Answer(1, "stale"));
  }
}

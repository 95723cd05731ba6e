/**
 `runCommand`: a child process under a time-out.  The promise is settled once, by the child's error or
 close event, or by a second timer when a timed-out child does not go away.
 */
module CommandRunner {
  import opened Text

  const KILL_WAIT_MS: nat := 15000
  const MAX_DELAY_MS: int := 0x7fff_ffff

  /** `options.timeoutMs`: absent, NaN or infinite, or a number of milliseconds. */
  datatype TimeoutMs = Absent | NotFinite | Millis(ms: int)

  /** Node runs a timer whose delay is out of range after one millisecond. */
  function NodeDelay(ms: int): nat {
    if 1 <= ms <= MAX_DELAY_MS then ms else 1
  }

  /** No timer for a missing, zero or non-finite time-out. */
  function TimerDelay(t: TimeoutMs): Option<nat> {
    if t.Millis? && t.ms != 0 then Some(NodeDelay(t.ms)) else None
  }

  datatype Options = Options(timeout: TimeoutMs, check: bool, heartbeat: bool)

  datatype Reason = ChildError(error: string) | TimedOut | NotTerminated | ExitFailure(exitCode: int)

  datatype Outcome = Resolved(exitCode: int, stdout: string, stderr: string) | Rejected(reason: Reason)

  /** Killing may make the child emit an error before `kill` returns. */
  datatype Kill = Quiet | EmitsError(error: string)

  datatype Event =
    | Advance(time: nat)
    | Stdout(text: string)
    | Stderr(text: string)
    | ChildFails(error: string)
    | ChildCloses(code: Option<int>)
    | TimerFires(kill: Kill)
    | KillWaitFires

  /** Timers hold the time they are due; `outcomes` lists every settling of the promise, with its time. */
  datatype State = State(
    now: nat, settled: bool, timedOut: bool, timer: Option<nat>, killWait: Option<nat>, heartbeat: bool,
    stdout: string, stderr: string, outcomes: seq<(Outcome, nat)>)

  function Initial(options: Options): State {
    State(0, false, false, TimerDelay(options.timeout), None, options.heartbeat, "", "", [])
  }

  function Finalize(s: State, outcome: Outcome): State {
    if s.settled then s
    else s.(settled := true, timer := None, killWait := None, heartbeat := false, outcomes := s.outcomes + [(outcome, s.now)])
  }

  function CloseOutcome(options: Options, s: State, code: Option<int>): Outcome {
    var exitCode := if code.Some? then code.value else 1;
    if s.timedOut then Rejected(TimedOut)
    else if options.check && exitCode != 0 then Rejected(ExitFailure(exitCode))
    else Resolved(exitCode, s.stdout, s.stderr)
  }

  /** The time-out: ask for the kill, then arm the second timer. */
  function FireTimer(s: State, kill: Kill): State {
    var s := s.(timer := None, timedOut := true);
    var s := if kill.EmitsError? then Finalize(s, Rejected(ChildError(kill.error))) else s;
    s.(killWait := Some(s.now + KILL_WAIT_MS))
  }

  predicate DueLater(timer: Option<nat>, time: nat) {
    timer.None? || time <= timer.value
  }

  predicate Due(timer: Option<nat>, now: nat) {
    timer.Some? && timer.value <= now
  }

  /** Timers are punctual: time does not pass a live timer, and a timer fires when it is due. */
  predicate Legal(s: State, e: Event) {
    match e
    case Advance(time) => s.now <= time && DueLater(s.timer, time) && DueLater(s.killWait, time)
    case TimerFires(_) => Due(s.timer, s.now)
    case KillWaitFires => Due(s.killWait, s.now)
    case _ => true
  }

  function Step(options: Options, s: State, e: Event): State {
    match e
    case Advance(time) => s.(now := time)
    case Stdout(text) => s.(stdout := s.stdout + text)
    case Stderr(text) => s.(stderr := s.stderr + text)
    case ChildFails(error) => Finalize(s, Rejected(ChildError(error)))
    case ChildCloses(code) => Finalize(s, CloseOutcome(options, s, code))
    case TimerFires(kill) => FireTimer(s, kill)
    case KillWaitFires => Finalize(s.(killWait := None), Rejected(NotTerminated))
  }

  function Run(options: Options, s: State, events: seq<Event>): State
    decreases |events|
  {
    if events == [] then s else Run(options, Step(options, s, events[0]), events[1..])
  }

  ghost predicate LegalRun(options: Options, s: State, events: seq<Event>)
    decreases |events|
  {
    events == [] || (Legal(s, events[0]) && LegalRun(options, Step(options, s, events[0]), events[1..]))
  }

  // ---- the callbacks ----

  class Command {
    const options: Options
    var now: nat
    var settled: bool
    var timedOut: bool
    var timer: Option<nat>
    var killWaitTimer: Option<nat>
    var heartbeatTimer: bool
    var stdout: string
    var stderr: string
    var outcomes: seq<(Outcome, nat)>

    constructor (options: Options)
      ensures this.options == options && View() == Initial(options)
    {
      this.options := options;
      now, settled, timedOut := 0, false, false;
      timer := TimerDelay(options.timeout);
      killWaitTimer := None;
      heartbeatTimer := options.heartbeat;
      stdout, stderr, outcomes := "", "", [];
    }

    function View(): State
      reads this
    {
      State(now, settled, timedOut, timer, killWaitTimer, heartbeatTimer, stdout, stderr, outcomes)
    }

    method ClearTimers()
      modifies `timer, `killWaitTimer, `heartbeatTimer
      ensures View() == old(View()).(timer := None, killWait := None, heartbeat := false)
    {
      timer := None;
      killWaitTimer := None;
      heartbeatTimer := false;
    }

    method Settle(outcome: Outcome)
      modifies this
      ensures View() == Finalize(old(View()), outcome)
    {
      if settled {
        return;
      }
      settled := true;
      ClearTimers();
      outcomes := outcomes + [(outcome, now)];
    }

    method OnTimeout(kill: Kill)
      modifies this
      ensures View() == Step(options, old(View()), TimerFires(kill))
    {
      timer := None;
      timedOut := true;
      if kill.EmitsError? {
        Settle(Rejected(ChildError(kill.error)));
      }
      killWaitTimer := Some(now + KILL_WAIT_MS);
    }

    method OnKillWait()
      modifies this
      ensures View() == Step(options, old(View()), KillWaitFires)
    {
      killWaitTimer := None;
      Settle(Rejected(NotTerminated));
    }

    method OnError(error: string)
      modifies this
      ensures View() == Step(options, old(View()), ChildFails(error))
    {
      Settle(Rejected(ChildError(error)));
    }

    method OnClose(code: Option<int>)
      modifies this
      ensures View() == Step(options, old(View()), ChildCloses(code))
    {
      var exitCode := if code.Some? then code.value else 1;
      if timedOut {
        Settle(Rejected(TimedOut));
        return;
      }
      if options.check && exitCode != 0 {
        Settle(Rejected(ExitFailure(exitCode)));
        return;
      }
      Settle(Resolved(exitCode, stdout, stderr));
    }
  }

  // ---- what every run keeps ----

  ghost predicate Inv(options: Options, s: State) {
    var delay := TimerDelay(options.timeout);
    && |s.outcomes| == (if s.settled then 1 else 0)
    && DueLater(s.timer, s.now) && DueLater(s.killWait, s.now)
    && (s.timedOut ==> delay.Some?)
    && (s.settled ==>
          && s.timer.None? && !s.heartbeat && s.outcomes[0].1 <= s.now
          && (delay.Some? ==> s.outcomes[0].1 <= delay.value + KILL_WAIT_MS)
          && (s.outcomes[0].0.Resolved? ==> !s.timedOut && (options.check ==> s.outcomes[0].0.exitCode == 0)))
    && (s.heartbeat <==> options.heartbeat && !s.settled)
    && (s.settled && s.outcomes[0].0 == Rejected(NotTerminated) ==>
          delay.Some? && s.outcomes[0].1 == delay.value + KILL_WAIT_MS)
    && (!s.settled && delay.Some? && !s.timedOut ==> s.timer == delay && s.killWait.None?)
    && (!s.settled && s.timedOut ==>
          s.timer.None? && s.killWait.Some? && s.killWait.value == delay.value + KILL_WAIT_MS)
    && (delay.None? ==> s.timer.None? && s.killWait.None?)
    && (s.settled && s.killWait.Some? ==> s.timedOut && s.outcomes[0].0.Rejected?)
  }

  lemma {:induction false} RunKeeps(options: Options, s: State, events: seq<Event>)
    requires Inv(options, s) && LegalRun(options, s, events)
    ensures Inv(options, Run(options, s, events))
    decreases |events|
  {
    if events != [] {
      RunKeeps(options, Step(options, s, events[0]), events[1..]);
    }
  }

  /**
   Over every order of events the promise settles at most once; with a time-out it has settled once
   15 s after the timer was due; it resolves only if it did not time out, with exit code zero if checked;
   and once settled neither the time-out nor the heartbeat is live.
   */
  lemma SettlesOnceAndInTime(options: Options, events: seq<Event>)
    requires LegalRun(options, Initial(options), events)
    ensures var s := Run(options, Initial(options), events);
      var delay := TimerDelay(options.timeout);
      && (s.settled <==> |s.outcomes| == 1) && (!s.settled <==> s.outcomes == [])
      && (delay.Some? && s.now > delay.value + KILL_WAIT_MS ==> s.settled)
      && (delay.Some? && s.settled ==> s.outcomes[0].1 <= delay.value + KILL_WAIT_MS)
      && (s.settled && s.outcomes[0].0.Resolved? ==> !s.timedOut && (options.check ==> s.outcomes[0].0.exitCode == 0))
      && (s.settled ==> s.timer.None?) && (s.heartbeat <==> options.heartbeat && !s.settled)
  {
    RunKeeps(options, Initial(options), events);
  }

  /** A time-out of T milliseconds, in Node's range, is a timer of T; zero, NaN, infinity and none are no timer. */
  lemma DelayIsTimeout(options: Options)
    ensures options.timeout.Millis? && 1 <= options.timeout.ms <= 0x7fff_ffff ==> TimerDelay(options.timeout) == Some(options.timeout.ms as nat)
    ensures options.timeout.Absent? || options.timeout.NotFinite? || options.timeout == Millis(0) ==> TimerDelay(options.timeout).None?
    ensures options.timeout.Millis? && (options.timeout.ms < 0 || options.timeout.ms > 0x7fff_ffff) ==> TimerDelay(options.timeout) == Some(1)
  {
  }

  /** Time passes only up to a live timer, so a time-out is never early. */
  lemma {:induction false} TimedOutNotEarly(options: Options, s: State, events: seq<Event>)
    requires LegalRun(options, s, events)
    requires var delay := TimerDelay(options.timeout);
      (s.timer.Some? ==> s.timer == delay) && (s.timedOut ==> delay.Some? && s.now >= delay.value)
    ensures var s' := Run(options, s, events);
      var delay := TimerDelay(options.timeout);
      (s'.timer.Some? ==> s'.timer == delay) && (s'.timedOut ==> delay.Some? && s'.now >= delay.value)
    decreases |events|
  {
    if events != [] { TimedOutNotEarly(options, Step(options, s, events[0]), events[1..]); }
  }

  /**
   In milliseconds: with a time-out T in Node's range no run is unsettled later than T + 15000 or settles later
   than that, none times out before T, and termination fails at T + 15000 only; without a finite, non-zero time-out none ever times out.
   */
  lemma TimeoutInMilliseconds(options: Options, events: seq<Event>, T: nat)
    requires LegalRun(options, Initial(options), events)
    ensures var s := Run(options, Initial(options), events);
      && (options.timeout == Millis(T) && 1 <= T <= 0x7fff_ffff ==>
            && (s.now > T + 15000 ==> s.settled)
            && (s.settled ==> |s.outcomes| == 1 && s.outcomes[0].1 <= T + 15000)
            && (s.timedOut ==> s.now >= T)
            && (s.settled && s.outcomes[0].0 == Rejected(NotTerminated) ==> s.outcomes[0].1 == T + 15000))
      && (options.timeout.Absent? || options.timeout.NotFinite? || options.timeout == Millis(0) ==> !s.timedOut)
  {
    DelayIsTimeout(options);
    SettlesOnceAndInTime(options, events);
    RunKeeps(options, Initial(options), events);
    TimedOutNotEarly(options, Initial(options), events);
  }

  ghost predicate TimerFired(events: seq<Event>) {
    exists i :: 0 <= i < |events| && events[i].TimerFires?
  }

  lemma {:induction false} TimedOutMeans(options: Options, s: State, events: seq<Event>)
    ensures Run(options, s, events).timedOut <==> s.timedOut || TimerFired(events)
    decreases |events|
  {
    if events != [] {
      TimedOutMeans(options, Step(options, s, events[0]), events[1..]);
      if TimerFired(events[1..]) {
        var i :| 0 <= i < |events[1..]| && events[1..][i].TimerFires?;
        assert events[i + 1].TimerFires?;
      }
      if TimerFired(events) && !events[0].TimerFires? {
        var i :| 0 <= i < |events| && events[i].TimerFires?;
        assert events[1..][i - 1].TimerFires?;
      }
    }
  }

  /** What an event settles an unsettled command with, told from the events before it. */
  lemma SettledWith(options: Options, before: seq<Event>, e: Event)
    requires LegalRun(options, Initial(options), before) && !Run(options, Initial(options), before).settled
    ensures var s := Run(options, Initial(options), before);
      var s' := Step(options, s, e);
      var reasons := match e
        case ChildFails(error) => [Rejected(ChildError(error))]
        case TimerFires(EmitsError(error)) => [Rejected(ChildError(error))]
        case KillWaitFires => [Rejected(NotTerminated)]
        case ChildCloses(code) =>
          var exitCode := if code.Some? then code.value else 1;
          if TimerFired(before) then [Rejected(TimedOut)]
          else if options.check && exitCode != 0 then [Rejected(ExitFailure(exitCode))]
          else [Resolved(exitCode, Output(before), ErrorOutput(before))]
        case _ => [];
      |s'.outcomes| == |reasons| && forall i :: 0 <= i < |reasons| ==> s'.outcomes[i] == (reasons[i], s.now)
  {
    RunKeeps(options, Initial(options), before);
    TimedOutMeans(options, Initial(options), before);
    OutputCollected(options, Initial(options), before);
    assert "" + Output(before) == Output(before) && "" + ErrorOutput(before) == ErrorOutput(before);
  }

  /** An outcome is final. */
  lemma {:induction false} OutcomeIsFinal(options: Options, s: State, events: seq<Event>)
    requires s.settled
    ensures Run(options, s, events).settled && Run(options, s, events).outcomes == s.outcomes
    decreases |events|
  {
    if events != [] {
      OutcomeIsFinal(options, Step(options, s, events[0]), events[1..]);
    }
  }

  function Written(e: Event): string {
    if e.Stdout? then e.text else ""
  }

  function WrittenToStderr(e: Event): string {
    if e.Stderr? then e.text else ""
  }

  /** Everything the child wrote to its output, in order. */
  function Output(events: seq<Event>): string {
    if events == [] then "" else Written(events[0]) + Output(events[1..])
  }

  /** Everything the child wrote to its error output, in order. */
  function ErrorOutput(events: seq<Event>): string {
    if events == [] then "" else WrittenToStderr(events[0]) + ErrorOutput(events[1..])
  }

  lemma StepOutput(options: Options, s: State, e: Event)
    ensures Step(options, s, e).stdout == s.stdout + Written(e)
    ensures Step(options, s, e).stderr == s.stderr + WrittenToStderr(e)
  {
  }

  lemma {:induction false} OutputCollected(options: Options, s: State, events: seq<Event>)
    ensures Run(options, s, events).stdout == s.stdout + Output(events)
    ensures Run(options, s, events).stderr == s.stderr + ErrorOutput(events)
    decreases |events|
  {
    if events == [] {
      assert s.stdout + "" == s.stdout && s.stderr + "" == s.stderr;
    } else {
      StepOutput(options, s, events[0]);
      OutputCollected(options, Step(options, s, events[0]), events[1..]);
      assert s.stdout + Written(events[0]) + Output(events[1..]) == s.stdout + (Written(events[0]) + Output(events[1..]));
      assert s.stderr + WrittenToStderr(events[0]) + ErrorOutput(events[1..])
        == s.stderr + (WrittenToStderr(events[0]) + ErrorOutput(events[1..]));
    }
  }

  /** It resolves exactly when, unsettled and not timed out, the child closes well; then with all its output. */
  lemma ResolvesOnlyOnGoodClose(options: Options, before: seq<Event>, e: Event)
    requires LegalRun(options, Initial(options), before)
    ensures var s := Run(options, Initial(options), before);
      var s' := Step(options, s, e);
      !s.settled ==>
        ((s'.settled && s'.outcomes[0].0.Resolved?) <==>
          (e.ChildCloses? && !s.timedOut && (options.check ==> e.code == Some(0))))
        && (e.ChildCloses? && s'.outcomes[0].0.Resolved? ==>
              s'.outcomes[0].0 == Resolved(if e.code.Some? then e.code.value else 1, Output(before), ErrorOutput(before)))
  {
    RunKeeps(options, Initial(options), before);
    OutputCollected(options, Initial(options), before);
    assert "" + Output(before) == Output(before) && "" + ErrorOutput(before) == ErrorOutput(before);
  }

  // ---- timers after settling ----

  predicate TimersLive(s: State) {
    s.timer.Some? || s.killWait.Some? || s.heartbeat
  }

  /**
   At event i the time-out fires on an unsettled command and the kill makes the child emit an error before
   `kill` returns, so that the promise is settled before the second timer is armed; and that timer has not fired.
   */
  ghost predicate LeavesTimer(options: Options, events: seq<Event>, i: nat)
    requires i < |events|
  {
    && events[i].TimerFires? && events[i].kill.EmitsError?
    && !Run(options, Initial(options), events[..i]).settled
    && forall j :: i < j < |events| ==> !events[j].KillWaitFires?
  }

  lemma {:induction false} RunSnoc(options: Options, s: State, events: seq<Event>, e: Event)
    ensures Run(options, s, events + [e]) == Step(options, Run(options, s, events), e)
    ensures LegalRun(options, s, events + [e]) <==>
      LegalRun(options, s, events) && Legal(Run(options, s, events), e)
    decreases |events|
  {
    if events == [] {
      assert [e][1..] == [];
    } else {
      assert (events + [e])[1..] == events[1..] + [e];
      RunSnoc(options, Step(options, s, events[0]), events[1..], e);
    }
  }

  lemma LeavesTimerSnoc(options: Options, events: seq<Event>, e: Event, i: nat)
    requires i < |events|
    ensures LeavesTimer(options, events + [e], i) <==> LeavesTimer(options, events, i) && !e.KillWaitFires?
  {
    var more := events + [e];
    assert more[..i] == events[..i] && more[i] == events[i] && more[|events|] == e;
    assert forall j :: 0 <= j < |events| ==> more[j] == events[j];
  }

  /** In any run a settled command has a live timer exactly when such a time-out left one. */
  lemma {:induction false} TimerLeftExactly(options: Options, events: seq<Event>)
    requires LegalRun(options, Initial(options), events)
    ensures var s := Run(options, Initial(options), events);
      s.settled && TimersLive(s) <==> exists i :: 0 <= i < |events| && LeavesTimer(options, events, i)
    decreases |events|
  {
    if events != [] {
      var n := |events| - 1;
      var before, e := events[..n], events[n];
      assert events == before + [e];
      RunSnoc(options, Initial(options), before, e);
      TimerLeftExactly(options, before);
      RunKeeps(options, Initial(options), before);
      forall i | 0 <= i < n ensures LeavesTimer(options, events, i) <==> LeavesTimer(options, before, i) && !e.KillWaitFires? {
        LeavesTimerSnoc(options, before, e, i);
      }
      if exists i :: 0 <= i < n && LeavesTimer(options, before, i) {
        var i :| 0 <= i < n && LeavesTimer(options, before, i);
        assert LeavesTimer(options, events, i) <==> !e.KillWaitFires?;
      }
      if e.TimerFires? && e.kill.EmitsError? { assert LeavesTimer(options, events, n); }
    }
  }

  /** A concrete run that settles with the second timer still live. */
  lemma TimerMayOutliveSettling()
    ensures exists options, events ::
      LegalRun(options, Initial(options), events)
      && Run(options, Initial(options), events).settled && TimersLive(Run(options, Initial(options), events))
  {
    var options := Options(Millis(1000), true, false);
    var events := [Advance(1000), TimerFires(EmitsError("EPERM"))];
    var s0 := Initial(options);
    var s1 := Step(options, s0, events[0]);
    var s2 := Step(options, s1, events[1]);
    assert events[1..] == [events[1]] && [events[1]][1..] == [];
    assert Run(options, s1, events[1..]) == s2;
    assert LegalRun(options, s1, events[1..]);
    assert Run(options, s0, events) == s2 && LegalRun(options, s0, events);
  }
}

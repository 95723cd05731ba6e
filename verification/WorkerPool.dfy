/**
 `readRuntimeSourceFiles`: up to 24 workers share a next-index counter and write into one result array.
 A worker's steps between awaits are atomic; which worker steps next is up to the scheduler.
 */
module WorkerPool {
  import opened Text

  const FILE_READ_CONCURRENCY: nat := 24

  /** What reading the file at a path gives; a tracked file may be missing on disk. */
  type Reader = string -> Option<string>

  datatype SourceFile = SourceFile(path: string, source: string)

  /** Between its atomic steps a worker is about to claim an index, awaits a read, or has returned. */
  datatype Worker = Claiming | Reading(index: nat) | Finished

  datatype Pool = Pool(nextIndex: nat, workers: seq<Worker>, output: seq<Option<SourceFile>>)

  function WorkerCount(n: nat): nat {
    var wanted := if n > 1 then n else 1;
    if wanted < FILE_READ_CONCURRENCY then wanted else FILE_READ_CONCURRENCY
  }

  function Start(paths: seq<string>): Pool {
    Pool(0, seq(WorkerCount(|paths|), i => Claiming), seq(|paths|, i => None))
  }

  /** The entry a path contributes: none for an empty path or a failed read. */
  function EntryOf(read: Reader, path: string): Option<SourceFile> {
    if path == "" then None
    else match read(path) case None => None case Some(source) => Some(SourceFile(path, source))
  }

  /** One atomic step of worker w. */
  function Step(read: Reader, paths: seq<string>, p: Pool, w: nat): Pool {
    if w >= |p.workers| then p
    else
      match p.workers[w]
      case Finished => p
      case Claiming =>
        var index := p.nextIndex;
        var next :=
          if index >= |paths| then Finished
          else if paths[index] == "" then Claiming
          else Reading(index);
        p.(nextIndex := index + 1, workers := p.workers[w := next])
      case Reading(index) =>
        if index >= |paths| || index >= |p.output| then p
        else
          var entry := EntryOf(read, paths[index]);
          p.(workers := p.workers[w := Claiming],
             output := if entry.Some? then p.output[index := entry] else p.output)
  }

  function Run(read: Reader, paths: seq<string>, p: Pool, schedule: seq<nat>): Pool
    decreases |schedule|
  {
    if schedule == [] then p else Run(read, paths, Step(read, paths, p, schedule[0]), schedule[1..])
  }

  function Present(output: seq<Option<SourceFile>>): seq<SourceFile> {
    if output == [] then []
    else
      var rest := Present(output[1..]);
      if output[0].Some? then [output[0].value] + rest else rest
  }

  /** Reading the paths one after the other. */
  function Sequential(read: Reader, paths: seq<string>): seq<SourceFile> {
    if paths == [] then []
    else
      var rest := Sequential(read, paths[1..]);
      var entry := EntryOf(read, paths[0]);
      if entry.Some? then [entry.value] + rest else rest
  }

  // ---- the shared state as the workers update it ----

  class SharedPool {
    var nextIndex: nat
    var workers: seq<Worker>
    const output: array<Option<SourceFile>>

    constructor (paths: seq<string>)
      ensures View() == Start(paths) && fresh(output)
    {
      nextIndex := 0;
      workers := seq(WorkerCount(|paths|), i => Claiming);
      output := new Option<SourceFile>[|paths|](i => None);
    }

    function View(): Pool
      reads this, output
    {
      Pool(nextIndex, workers, output[..])
    }

    /** Worker w runs from its last await to the next one. */
    method Resume(read: Reader, paths: seq<string>, w: nat)
      requires w < |workers| && output.Length == |paths|
      requires workers[w].Reading? ==> workers[w].index < |paths|
      modifies this, output
      ensures View() == Step(read, paths, old(View()), w)
    {
      match workers[w] {
        case Finished =>
        case Claiming =>
          var index := nextIndex;
          nextIndex := nextIndex + 1;
          if index >= |paths| {
            workers := workers[w := Finished];
            return;
          }
          var path := paths[index];
          if path == "" {
            return;
          }
          workers := workers[w := Reading(index)];
        case Reading(index) =>
          var source := read(paths[index]);
          if source.Some? && paths[index] != "" {
            output[index] := Some(SourceFile(paths[index], source.value));
          }
          workers := workers[w := Claiming];
      }
    }
  }

  // ---- what every schedule keeps ----

  ghost predicate InFlight(p: Pool, i: nat) {
    exists w :: 0 <= w < |p.workers| && p.workers[w] == Reading(i)
  }

  /** Claimed indices are written or in flight with one worker; the others are untouched. */
  ghost predicate Inv(read: Reader, paths: seq<string>, p: Pool) {
    && |p.output| == |paths|
    && (forall w :: 0 <= w < |p.workers| && p.workers[w].Reading? ==>
          p.workers[w].index < p.nextIndex && p.workers[w].index < |paths|)
    && (forall v, w :: 0 <= v < w < |p.workers| && p.workers[v].Reading? ==> p.workers[v] != p.workers[w])
    && (forall w :: 0 <= w < |p.workers| && p.workers[w].Finished? ==> p.nextIndex >= |paths|)
    && (forall i :: 0 <= i < |paths| && (i >= p.nextIndex || InFlight(p, i)) ==> p.output[i] == None)
    && (forall i :: 0 <= i < |paths| && i < p.nextIndex && !InFlight(p, i) ==> p.output[i] == EntryOf(read, paths[i]))
  }

  lemma ClaimKeeps(read: Reader, paths: seq<string>, p: Pool, w: nat)
    requires Inv(read, paths, p) && w < |p.workers| && p.workers[w].Claiming?
    ensures Inv(read, paths, Step(read, paths, p, w))
  {
    var p' := Step(read, paths, p, w);
    forall i: nat | i != p.nextIndex ensures InFlight(p', i) <==> InFlight(p, i) {
      if InFlight(p, i) {
        var v :| 0 <= v < |p.workers| && p.workers[v] == Reading(i);
        assert p'.workers[v] == Reading(i);
      }
      if InFlight(p', i) {
        var v :| 0 <= v < |p'.workers| && p'.workers[v] == Reading(i);
        assert p.workers[v] == Reading(i);
      }
    }
    if p.nextIndex < |paths| && paths[p.nextIndex] != "" {
      assert p'.workers[w] == Reading(p.nextIndex);
    } else {
      assert !InFlight(p', p.nextIndex);
    }
  }

  lemma ReadKeeps(read: Reader, paths: seq<string>, p: Pool, w: nat)
    requires Inv(read, paths, p) && w < |p.workers| && p.workers[w].Reading?
    ensures Inv(read, paths, Step(read, paths, p, w))
  {
    var p' := Step(read, paths, p, w);
    var index := p.workers[w].index;
    assert InFlight(p, index);
    assert !InFlight(p', index);
    forall i: nat | i != index ensures InFlight(p', i) <==> InFlight(p, i) {
      if InFlight(p, i) {
        var v :| 0 <= v < |p.workers| && p.workers[v] == Reading(i);
        assert p'.workers[v] == Reading(i);
      }
      if InFlight(p', i) {
        var v :| 0 <= v < |p'.workers| && p'.workers[v] == Reading(i);
        assert p.workers[v] == Reading(i);
      }
    }
  }

  lemma {:induction false} RunKeeps(read: Reader, paths: seq<string>, p: Pool, schedule: seq<nat>)
    requires Inv(read, paths, p)
    ensures Inv(read, paths, Run(read, paths, p, schedule)) && |Run(read, paths, p, schedule).workers| == |p.workers|
    decreases |schedule|
  {
    if schedule != [] {
      var w := schedule[0];
      if w < |p.workers| {
        match p.workers[w] {
          case Claiming => ClaimKeeps(read, paths, p, w);
          case Reading(_) => ReadKeeps(read, paths, p, w);
          case Finished =>
        }
      }
      RunKeeps(read, paths, Step(read, paths, p, w), schedule[1..]);
    }
  }

  ghost predicate AllFinished(p: Pool) {
    forall w :: 0 <= w < |p.workers| ==> p.workers[w].Finished?
  }

  lemma {:induction false} PresentIsSequential(read: Reader, paths: seq<string>, output: seq<Option<SourceFile>>)
    requires |output| == |paths| && forall i :: 0 <= i < |paths| ==> output[i] == EntryOf(read, paths[i])
    ensures Present(output) == Sequential(read, paths)
    decreases |paths|
  {
    if paths != [] {
      assert forall i :: 0 <= i < |paths[1..]| ==> output[1..][i] == EntryOf(read, paths[1..][i]) by {
        forall i | 0 <= i < |paths[1..]| ensures output[1..][i] == EntryOf(read, paths[1..][i]) {
          assert output[i + 1] == EntryOf(read, paths[i + 1]);
        }
      }
      PresentIsSequential(read, paths[1..], output[1..]);
    }
  }

  /** Whatever the schedule, when all workers have returned the result is the sequential read, in order. */
  lemma ScheduleIndependent(read: Reader, paths: seq<string>, schedule: seq<nat>)
    requires AllFinished(Run(read, paths, Start(paths), schedule))
    ensures Present(Run(read, paths, Start(paths), schedule).output) == Sequential(read, paths)
  {
    var p := Run(read, paths, Start(paths), schedule);
    RunKeeps(read, paths, Start(paths), schedule);
    assert p.workers[0].Finished?;
    forall i: nat ensures !InFlight(p, i) {}
    PresentIsSequential(read, paths, p.output);
  }

  // ---- claims ----

  /** The indices claimed along a schedule, in the order of the claims. */
  function Claims(read: Reader, paths: seq<string>, p: Pool, schedule: seq<nat>): seq<nat>
    decreases |schedule|
  {
    if schedule == [] then []
    else
      var w := schedule[0];
      var rest := Claims(read, paths, Step(read, paths, p, w), schedule[1..]);
      if w < |p.workers| && p.workers[w].Claiming? && p.nextIndex < |paths| then [p.nextIndex] + rest else rest
  }

  function Smaller(a: nat, b: nat): nat {
    if a < b then a else b
  }

  /** Indices are claimed in order, each exactly once. */
  lemma {:induction false} EachIndexClaimedOnce(read: Reader, paths: seq<string>, p: Pool, schedule: seq<nat>)
    ensures var from := Smaller(p.nextIndex, |paths|);
      var to := Smaller(Run(read, paths, p, schedule).nextIndex, |paths|);
      from <= to && Claims(read, paths, p, schedule) == seq(to - from, i => from + i)
    decreases |schedule|
  {
    if schedule != [] {
      EachIndexClaimedOnce(read, paths, Step(read, paths, p, schedule[0]), schedule[1..]);
    }
  }

  // ---- termination ----

  function Weight(w: Worker): nat {
    match w case Claiming => 1 case Reading(_) => 2 case Finished => 0
  }

  function Total(workers: seq<Worker>): nat {
    if workers == [] then 0 else Weight(workers[0]) + Total(workers[1..])
  }

  /** Steps that can still be taken: two for every unclaimed index, and what the workers hold. */
  function StepsLeft(paths: seq<string>, p: Pool): nat {
    (if p.nextIndex < |paths| then 2 * (|paths| - p.nextIndex) else 0) + Total(p.workers)
  }

  lemma {:induction false} TotalUpdate(workers: seq<Worker>, w: nat, next: Worker)
    requires w < |workers|
    ensures Total(workers[w := next]) == Total(workers) - Weight(workers[w]) + Weight(next)
  {
    if w > 0 {
      TotalUpdate(workers[1..], w - 1, next);
      assert workers[w := next][1..] == workers[1..][w - 1 := next];
    } else {
      assert workers[w := next][1..] == workers[1..];
    }
  }

  /** Every step of a worker that has not returned brings the end closer: no schedule runs for ever. */
  lemma StepsRunOut(read: Reader, paths: seq<string>, p: Pool, w: nat)
    requires Inv(read, paths, p) && w < |p.workers| && !p.workers[w].Finished?
    ensures StepsLeft(paths, Step(read, paths, p, w)) < StepsLeft(paths, p)
  {
    TotalUpdate(p.workers, w, Step(read, paths, p, w).workers[w]);
  }

  // ---- what is read ----

  /** One worker a path, but at least one and at most 24. */
  lemma WorkersAre(paths: seq<string>)
    ensures var n := |Start(paths).workers|;
      1 <= n <= 24 && (n < 24 ==> n == if paths == [] then 1 else |paths|)
  {
  }

  /** Read are exactly the non-empty paths that can be read, each with its text. */
  lemma {:induction false} SequentialExactly(read: Reader, paths: seq<string>, path: string, source: string)
    ensures SourceFile(path, source) in Sequential(read, paths) <==> path in paths && path != "" && read(path) == Some(source)
    decreases |paths|
  {
    if paths != [] {
      assert paths == [paths[0]] + paths[1..];
      SequentialExactly(read, paths[1..], path, source);
    }
  }

  /** In the order of the paths. */
  lemma {:induction false} SequentialAppend(read: Reader, a: seq<string>, b: seq<string>)
    ensures Sequential(read, a + b) == Sequential(read, a) + Sequential(read, b)
    decreases |a|
  {
    if a == [] {
      assert a + b == b;
    } else {
      assert (a + b)[1..] == a[1..] + b;
      SequentialAppend(read, a[1..], b);
    }
  }
}

/**
 `readProcessTreeCpuMs`: the CPU time of a process and everything below it, from the parsed rows of `ps`.
 The parent relation may be anything: pids can repeat, and a snapshot can even hold cycles.
 */
module ProcessTree {
  import opened Text

  datatype Row = Row(pid: nat, ppid: nat, cpuMs: nat)

  function Pids(rows: seq<Row>): set<nat> {
    set i | 0 <= i < |rows| :: rows[i].pid
  }

  predicate IsChild(rows: seq<Row>, parent: nat, child: nat) {
    exists i :: 0 <= i < |rows| && rows[i].ppid == parent && rows[i].pid == child
  }

  /** The CPU time of a pid: its last row counts, and an unknown pid has none. */
  function CpuOf(rows: seq<Row>, pid: nat): nat {
    if rows == [] then 0
    else if rows[|rows| - 1].pid == pid then rows[|rows| - 1].cpuMs
    else CpuOf(rows[..|rows| - 1], pid)
  }

  /** A walk down the tree; pid 0 is never entered. */
  ghost predicate Walk(rows: seq<Row>, path: seq<nat>) {
    && |path| > 0
    && (forall i :: 0 <= i < |path| ==> path[i] != 0)
    && (forall i, j :: 0 <= i && j == i + 1 < |path| ==> IsChild(rows, path[i], path[j]))
  }

  ghost predicate Reachable(rows: seq<Row>, root: nat, pid: nat) {
    exists path :: Walk(rows, path) && path[0] == root && path[|path| - 1] == pid
  }

  ghost function Tree(rows: seq<Row>, root: nat): set<nat> {
    set p | p in Pids(rows) && Reachable(rows, root, p)
  }

  /** The sum over a set of pids, each once. */
  ghost function Total(rows: seq<Row>, pids: set<nat>): nat {
    if pids == {} then 0
    else
      var p :| p in pids;
      CpuOf(rows, p) + Total(rows, pids - {p})
  }

  method ReadProcessTreeCpuMs(rootPid: Option<nat>, rows: seq<Row>) returns (r: Option<nat>)
    ensures r == if rootPid.None? || rootPid.value == 0 || rootPid.value !in Pids(rows) then None
                 else Some(Total(rows, Tree(rows, rootPid.value)))
  {
    if rootPid == None || rootPid.value == 0 {
      return None;
    }
    var root := rootPid.value;
    var childrenByParent, cpuByPid := IndexRows(rows);
    if root !in cpuByPid {
      return None;
    }
    var totalCpuMs := SumTree(rows, root, childrenByParent, cpuByPid);
    r := Some(totalCpuMs);
  }

  /** The loop over the stack. */
  method SumTree(rows: seq<Row>, root: nat, childrenByParent: map<nat, seq<nat>>, cpuByPid: map<nat, nat>)
    returns (totalCpuMs: nat)
    requires root != 0 && root in Pids(rows)
    requires forall p :: CpuOf(rows, p) == if p in cpuByPid then cpuByPid[p] else 0
    requires forall p, c :: IsChild(rows, p, c) <==> p in childrenByParent && c in childrenByParent[p]
    ensures totalCpuMs == Total(rows, Tree(rows, root))
  {
    totalCpuMs := 0;
    var seen: set<nat> := {};
    var stack := [root];
    RootReachable(rows, root);
    while |stack| > 0
      invariant totalCpuMs == Total(rows, seen)
      invariant Search(rows, root, seen, stack)
      decreases Pids(rows) - seen, |stack|
    {
      var pid := stack[|stack| - 1];
      assert stack == stack[..|stack| - 1] + [pid];
      stack := stack[..|stack| - 1];
      if pid == 0 || pid in seen {
        continue;
      }
      var children := if pid in childrenByParent then childrenByParent[pid] else [];
      Visit(rows, root, seen, stack, pid, children);
      TotalAdd(rows, seen, pid);
      seen := seen + {pid};
      totalCpuMs := totalCpuMs + (if pid in cpuByPid then cpuByPid[pid] else 0);
      ghost var rest := stack;
      for i := 0 to |children|
        invariant stack == rest + children[..i]
      {
        stack := stack + [children[i]];
      }
      assert stack == rest + children;
    }
    ClosedIsTree(rows, root, seen);
  }

  /** The state of the search: what is seen and stacked is in the tree, and nothing below it is forgotten. */
  ghost predicate Search(rows: seq<Row>, root: nat, seen: set<nat>, stack: seq<nat>) {
    && seen <= Tree(rows, root)
    && (forall p :: p in stack ==> p == 0 || p in Tree(rows, root))
    && (root in seen || root in stack)
    && Closed(rows, seen, stack)
  }

  lemma Visit(rows: seq<Row>, root: nat, seen: set<nat>, rest: seq<nat>, pid: nat, children: seq<nat>)
    requires Search(rows, root, seen, rest + [pid]) && pid != 0 && pid !in seen
    requires forall c :: IsChild(rows, pid, c) <==> c in children
    ensures Search(rows, root, seen + {pid}, rest + children)
    ensures pid in Pids(rows) && Pids(rows) - (seen + {pid}) < Pids(rows) - seen
  {
    assert pid in rest + [pid];
    assert forall p :: p in rest + [pid] <==> p in rest || p == pid;
    assert forall p :: p in rest + children <==> p in rest || p in children;
    forall c | c in children ensures c == 0 || c in Tree(rows, root) {
      ChildReachable(rows, root, pid, c);
    }
    assert pid in Pids(rows) - seen && pid !in Pids(rows) - (seen + {pid});
  }

  /** The loop over the rows: children in row order, and the last CPU time of each pid. */
  method IndexRows(rows: seq<Row>) returns (childrenByParent: map<nat, seq<nat>>, cpuByPid: map<nat, nat>)
    ensures cpuByPid.Keys == Pids(rows) && forall p :: CpuOf(rows, p) == if p in cpuByPid then cpuByPid[p] else 0
    ensures forall p, c :: IsChild(rows, p, c) <==> p in childrenByParent && c in childrenByParent[p]
  {
    childrenByParent, cpuByPid := map[], map[];
    for i := 0 to |rows|
      invariant cpuByPid.Keys == Pids(rows[..i])
      invariant forall p :: CpuOf(rows[..i], p) == if p in cpuByPid then cpuByPid[p] else 0
      invariant forall p, c :: IsChild(rows[..i], p, c) <==> p in childrenByParent && c in childrenByParent[p]
    {
      var row := rows[i];
      RowAdds(rows[..i], row);
      assert rows[..i + 1] == rows[..i] + [row];
      cpuByPid := cpuByPid[row.pid := row.cpuMs];
      var children := if row.ppid in childrenByParent then childrenByParent[row.ppid] else [];
      childrenByParent := childrenByParent[row.ppid := children + [row.pid]];
    }
    assert rows[..|rows|] == rows;
  }

  lemma RowAdds(rows: seq<Row>, row: Row)
    ensures Pids(rows + [row]) == Pids(rows) + {row.pid}
    ensures forall p :: CpuOf(rows + [row], p) == if p == row.pid then row.cpuMs else CpuOf(rows, p)
    ensures forall p, c :: IsChild(rows + [row], p, c) <==> IsChild(rows, p, c) || (p == row.ppid && c == row.pid)
  {
    var more := rows + [row];
    assert more[..|rows|] == rows && more[|rows|] == row;
    forall p | p in Pids(rows) ensures p in Pids(more) {
      var i :| 0 <= i < |rows| && rows[i].pid == p;
      assert more[i].pid == p;
    }
    forall p, c | IsChild(rows, p, c) ensures IsChild(more, p, c) {
      var i :| 0 <= i < |rows| && rows[i].ppid == p && rows[i].pid == c;
      assert more[i].ppid == p && more[i].pid == c;
    }
    assert IsChild(more, row.ppid, row.pid);
  }

  // ---- sums over sets ----

  lemma {:induction false} TotalRemove(rows: seq<Row>, pids: set<nat>, p: nat)
    requires p in pids
    ensures Total(rows, pids) == CpuOf(rows, p) + Total(rows, pids - {p})
    decreases pids
  {
    var q :| q in pids && Total(rows, pids) == CpuOf(rows, q) + Total(rows, pids - {q});
    if q != p {
      TotalRemove(rows, pids - {q}, p);
      TotalRemove(rows, pids - {p}, q);
      assert pids - {q} - {p} == pids - {p} - {q};
    }
  }

  /** A pid not yet counted adds its own time. */
  lemma TotalAdd(rows: seq<Row>, pids: set<nat>, p: nat)
    requires p !in pids
    ensures Total(rows, pids + {p}) == Total(rows, pids) + CpuOf(rows, p)
  {
    TotalRemove(rows, pids + {p}, p);
    assert pids + {p} - {p} == pids;
  }

  // ---- reachability ----

  lemma RootReachable(rows: seq<Row>, root: nat)
    requires root != 0 && root in Pids(rows)
    ensures root in Tree(rows, root)
  {
    assert Walk(rows, [root]);
    assert [root][|[root]| - 1] == root;
  }

  lemma ChildReachable(rows: seq<Row>, root: nat, parent: nat, child: nat)
    requires parent in Tree(rows, root) && IsChild(rows, parent, child)
    ensures child in Pids(rows) && (child != 0 ==> child in Tree(rows, root))
  {
    var path :| Walk(rows, path) && path[0] == root && path[|path| - 1] == parent;
    if child != 0 {
      var longer := path + [child];
      assert Walk(rows, longer);
      assert longer[0] == root && longer[|longer| - 1] == child;
    }
  }

  /** Every child of a seen pid is seen too, or still on the stack. */
  ghost predicate Closed(rows: seq<Row>, seen: set<nat>, stack: seq<nat>) {
    forall p, c :: p in seen && IsChild(rows, p, c) ==> c == 0 || c in seen || c in stack
  }

  /** A closed set without anything left on the stack holds every walk from the root. */
  lemma {:induction false} WalkStaysInside(rows: seq<Row>, seen: set<nat>, path: seq<nat>)
    requires Closed(rows, seen, []) && Walk(rows, path) && path[0] in seen
    ensures path[|path| - 1] in seen
    decreases |path|
  {
    var n := |path| - 1;
    if n > 0 {
      assert IsChild(rows, path[n - 1], path[n]);
      WalkStaysInside(rows, seen, path[..n]);
    }
  }

  lemma ClosedIsTree(rows: seq<Row>, root: nat, seen: set<nat>)
    requires Closed(rows, seen, []) && root in seen && seen <= Tree(rows, root)
    ensures seen == Tree(rows, root)
  {
    forall p | p in Tree(rows, root) ensures p in seen {
      var path :| Walk(rows, path) && path[0] == root && path[|path| - 1] == p;
      WalkStaysInside(rows, seen, path);
    }
  }

  /** The CPU time of a pid is that of its last row; a pid without a row has none. */
  lemma {:induction false} CpuIsLast(rows: seq<Row>, pid: nat)
    ensures pid !in Pids(rows) ==> CpuOf(rows, pid) == 0
    ensures forall i :: 0 <= i < |rows| && rows[i].pid == pid && (forall j :: i < j < |rows| ==> rows[j].pid != pid) ==>
      CpuOf(rows, pid) == rows[i].cpuMs
    decreases |rows|
  {
    if rows != [] {
      var n := |rows| - 1;
      CpuIsLast(rows[..n], pid);
      assert rows == rows[..n] + [rows[n]];
      RowAdds(rows[..n], rows[n]);
    }
  }

  /** The set holds the root and, with the parent of a row, the row's own pid. */
  ghost predicate HoldsBelow(rows: seq<Row>, root: nat, pids: set<nat>) {
    root in pids && forall i :: 0 <= i < |rows| && rows[i].ppid in pids && rows[i].pid != 0 ==> rows[i].pid in pids
  }

  /** The tree is the least set that holds the root and the rows below it; pid 0 is not in it. */
  lemma TreeIsLeast(rows: seq<Row>, root: nat)
    requires root != 0 && root in Pids(rows)
    ensures HoldsBelow(rows, root, Tree(rows, root)) && 0 !in Tree(rows, root)
    ensures forall pids :: HoldsBelow(rows, root, pids) ==> Tree(rows, root) <= pids
  {
    RootReachable(rows, root);
    forall i | 0 <= i < |rows| && rows[i].ppid in Tree(rows, root) && rows[i].pid != 0 ensures rows[i].pid in Tree(rows, root) {
      ChildReachable(rows, root, rows[i].ppid, rows[i].pid);
    }
    forall pids, p | HoldsBelow(rows, root, pids) && p in Tree(rows, root) ensures p in pids {
      var path :| Walk(rows, path) && path[0] == root && path[|path| - 1] == p;
      WalkStaysInside(rows, pids, path);
    }
  }

  /** Sums over single pids and over disjoint sets. */
  lemma {:induction false} TotalSplits(rows: seq<Row>, a: set<nat>, b: set<nat>, p: nat)
    requires a !! b
    ensures Total(rows, {p}) == CpuOf(rows, p) && Total(rows, a + b) == Total(rows, a) + Total(rows, b)
    decreases b
  {
    TotalAdd(rows, {}, p);
    assert {} + {p} == {p};
    if b == {} {
      assert a + b == a;
    } else {
      var q :| q in b;
      TotalSplits(rows, a, b - {q}, p);
      assert a + b == (a + (b - {q})) + {q} && b == (b - {q}) + {q};
      TotalAdd(rows, a + (b - {q}), q);
      TotalAdd(rows, b - {q}, q);
    }
  }
}

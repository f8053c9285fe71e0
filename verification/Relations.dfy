/** Typed links between tasks: the guard that keeps `Blocks` acyclic, and what finishing a task unblocks. */
module Relations {
  import opened Events
  import opened Fanout
  import opened Sets

  const MAX_DEPTH := 1000

  datatype Verdict = Acceptable | CycleDetected | GraphTooDeep

  predicate Blocking(r: Relation, task: TaskId) { r.kind.Blocks? && r.from == task }

  predicate BlockedBy(r: Relation, task: TaskId) { r.kind.Blocks? && r.target == task }

  predicate SameLink(r: Relation, s: Relation) { r.from == s.from && r.target == s.target && r.kind == s.kind }

  /** The table's keys: its id, and `(from, to, kind)`. */
  predicate Unique(rows: seq<Relation>) {
    forall i, j :: 0 <= i < j < |rows| ==> rows[i].id != rows[j].id && !SameLink(rows[i], rows[j])
  }

  // ------------------------------------------------------------------------ reachability

  predicate Edge(rows: seq<Relation>, a: TaskId, b: TaskId) {
    exists i :: 0 <= i < |rows| && Blocking(rows[i], a) && rows[i].target == b
  }

  predicate Path(rows: seq<Relation>, path: seq<TaskId>) {
    |path| > 0 && forall i :: 0 <= i < |path| - 1 ==> Edge(rows, path[i], path[i + 1])
  }

  predicate PathBetween(rows: seq<Relation>, path: seq<TaskId>, a: TaskId, b: TaskId) {
    Path(rows, path) && path[0] == a && path[|path| - 1] == b
  }

  ghost predicate Reaches(rows: seq<Relation>, a: TaskId, b: TaskId) { exists path :: PathBetween(rows, path, a, b) }

  /** No task blocks itself through others. */
  ghost predicate Acyclic(rows: seq<Relation>) {
    forall a, b :: Edge(rows, a, b) ==> !Reaches(rows, b, a)
  }

  lemma ReachesSelf(rows: seq<Relation>, a: TaskId)
    ensures Reaches(rows, a, a)
  {
    assert PathBetween(rows, [a], a, a);
  }

  lemma ReachesStep(rows: seq<Relation>, a: TaskId, b: TaskId, c: TaskId)
    requires Reaches(rows, a, b) && Edge(rows, b, c)
    ensures Reaches(rows, a, c)
  {
    var path :| PathBetween(rows, path, a, b);
    assert PathBetween(rows, path + [c], a, c);
  }

  /** What is closed under edges holds whatever it reaches. */
  lemma ClosedHoldsReachable(rows: seq<Relation>, closed: set<TaskId>, a: TaskId, b: TaskId)
    requires a in closed && Reaches(rows, a, b)
    requires forall x, y :: x in closed && Edge(rows, x, y) ==> y in closed
    ensures b in closed
  {
    var path :| PathBetween(rows, path, a, b);
    var i := 0;
    while i < |path| - 1
      invariant 0 <= i < |path| && path[i] in closed
    {
      i := i + 1;
    }
  }

  /** The `Blocks` rows leaving these tasks. */
  function Leaving(rows: seq<Relation>, tasks: set<TaskId>): set<nat> {
    set i | 0 <= i < |rows| && rows[i].kind.Blocks? && rows[i].from in tasks
  }

  /** The `Blocks` rows leaving anything this task reaches. */
  ghost function LeavingReachable(rows: seq<Relation>, task: TaskId): set<nat> {
    set i: nat | i < |rows| && rows[i].kind.Blocks? && Reaches(rows, task, rows[i].from)
  }

  // ---------------------------------------------------------------------- the cycle guard

  function BlocksTargets(rows: seq<Relation>, task: TaskId): (targets: seq<TaskId>)
    ensures forall t :: t in targets <==> Edge(rows, task, t)
  {
    if rows == [] then []
    else
      var rest, last := rows[..|rows| - 1], rows[|rows| - 1];
      EdgesGrow(rows, task);
      BlocksTargets(rest, task) + if Blocking(last, task) then [last.target] else []
  }

  lemma EdgesGrow(rows: seq<Relation>, a: TaskId)
    requires rows != []
    ensures var rest, last := rows[..|rows| - 1], rows[|rows| - 1];
            forall b :: Edge(rows, a, b) <==> Edge(rest, a, b) || (Blocking(last, a) && last.target == b)
  {
    var rest := rows[..|rows| - 1];
    forall b ensures Edge(rows, a, b) <==> Edge(rest, a, b) || (Blocking(rows[|rows| - 1], a) && rows[|rows| - 1].target == b) {
      if Edge(rest, a, b) {
        var i :| 0 <= i < |rest| && Blocking(rest[i], a) && rest[i].target == b;
        assert Blocking(rows[i], a);
      }
      if Edge(rows, a, b) {
        var i :| 0 <= i < |rows| && Blocking(rows[i], a) && rows[i].target == b;
        assert i < |rest| ==> Blocking(rest[i], a);
      }
    }
  }

  lemma {:induction false} OneTargetPerRow(rows: seq<Relation>, task: TaskId)
    ensures |BlocksTargets(rows, task)| == |Leaving(rows, {task})|
  {
    if rows != [] {
      var rest, last := rows[..|rows| - 1], |rows| - 1;
      OneTargetPerRow(rest, task);
      if Blocking(rows[last], task) {
        assert Leaving(rows, {task}) == Leaving(rest, {task}) + {last};
      } else {
        assert Leaving(rows, {task}) == Leaving(rest, {task});
      }
    }
  }

  lemma LeavingOneMore(rows: seq<Relation>, tasks: set<TaskId>, task: TaskId)
    requires task !in tasks
    ensures |Leaving(rows, tasks + {task})| == |Leaving(rows, tasks)| + |BlocksTargets(rows, task)|
  {
    OneTargetPerRow(rows, task);
    assert Leaving(rows, tasks + {task}) == Leaving(rows, tasks) + Leaving(rows, {task});
    assert Leaving(rows, tasks) !! Leaving(rows, {task});
  }

  /** Everything found so far is reachable, and what leaves the visited tasks is visited or on the stack. */
  ghost predicate Searching(rows: seq<Relation>, to: TaskId, from: TaskId, visited: set<TaskId>, stack: seq<TaskId>) {
    && from !in visited && (to in visited || to in stack)
    && (forall t :: t in visited || t in stack ==> Reaches(rows, to, t))
    && forall a, b :: a in visited && Edge(rows, a, b) ==> b in visited || b in stack
  }

  lemma SearchOn(rows: seq<Relation>, to: TaskId, from: TaskId, visited: set<TaskId>, stack: seq<TaskId>)
    requires Searching(rows, to, from, visited, stack) && stack != [] && stack[|stack| - 1] != from
    ensures var curr, rest := stack[|stack| - 1], stack[..|stack| - 1];
            && (curr in visited ==> Searching(rows, to, from, visited, rest))
            && Searching(rows, to, from, visited + {curr}, rest + BlocksTargets(rows, curr))
  {
    hide Reaches, Edge;
    var curr, rest := stack[|stack| - 1], stack[..|stack| - 1];
    assert forall t :: t in stack <==> t in rest || t == curr;
    var more := rest + BlocksTargets(rows, curr);
    forall t | t in more ensures Reaches(rows, to, t) {
      if t in BlocksTargets(rows, curr) {
        ReachesStep(rows, to, curr, t);
      }
    }
  }

  lemma SearchDone(rows: seq<Relation>, to: TaskId, from: TaskId, visited: set<TaskId>)
    requires Searching(rows, to, from, visited, [])
    ensures !Reaches(rows, to, from) && LeavingReachable(rows, to) == Leaving(rows, visited)
  {
    hide Reaches, Edge;
    forall t | Reaches(rows, to, t) ensures t in visited {
      ClosedHoldsReachable(rows, visited, to, t);
    }
  }

  lemma VisitedLeaveReachable(rows: seq<Relation>, to: TaskId, from: TaskId, visited: set<TaskId>, stack: seq<TaskId>)
    requires Searching(rows, to, from, visited, stack)
    ensures |Leaving(rows, visited)| <= |LeavingReachable(rows, to)|
  {
    hide Reaches;
    SubsetNoLarger(Leaving(rows, visited), LeavingReachable(rows, to));
  }

  /** Accepts exactly the links that close no cycle and whose search takes at most `MAX_DEPTH` steps; a search
      that long needs `MAX_DEPTH` `Blocks` rows out of the tasks `to` reaches. */
  method DetectCycle(rows: seq<Relation>, from: TaskId, to: TaskId, kind: RelationKind) returns (verdict: Verdict)
    ensures verdict.Acceptable? <==>
              (kind.Blocks? ==> !Reaches(rows, to, from) && |LeavingReachable(rows, to)| < MAX_DEPTH)
    ensures verdict.CycleDetected? ==> kind.Blocks? && Reaches(rows, to, from)
    ensures verdict.GraphTooDeep? ==> kind.Blocks? && from != to && |LeavingReachable(rows, to)| >= MAX_DEPTH
  {
    hide Reaches, Edge, Leaving, LeavingReachable, Searching;
    if !kind.Blocks? {
      return Acceptable;
    }
    if from == to {
      ReachesSelf(rows, to);
      return CycleDetected;
    }
    var visited: set<TaskId>, stack, steps := {}, [to], 0;
    SearchStarts(rows, to, from);
    while stack != []
      invariant Searching(rows, to, from, visited, stack)
      invariant steps + |stack| == 1 + |Leaving(rows, visited)|
      invariant steps <= MAX_DEPTH
      decreases MAX_DEPTH - steps
    {
      VisitedLeaveReachable(rows, to, from, visited, stack);
      var curr := stack[|stack| - 1];
      OnStackReachable(rows, to, from, visited, stack, curr);
      ghost var before := stack;
      stack := stack[..|stack| - 1];
      steps := steps + 1;
      if steps > MAX_DEPTH {
        return GraphTooDeep;
      }
      if curr == from {
        return CycleDetected;
      }
      SearchOn(rows, to, from, visited, before);
      if curr in visited {
        continue;
      }
      LeavingOneMore(rows, visited, curr);
      visited := visited + {curr};
      stack := stack + BlocksTargets(rows, curr);
    }
    SearchDone(rows, to, from, visited);
    return Acceptable;
  }

  lemma SearchStarts(rows: seq<Relation>, to: TaskId, from: TaskId)
    ensures Searching(rows, to, from, {}, [to]) && Leaving(rows, {}) == {}
  {
    ReachesSelf(rows, to);
  }

  lemma OnStackReachable(rows: seq<Relation>, to: TaskId, from: TaskId, visited: set<TaskId>, stack: seq<TaskId>, t: TaskId)
    requires Searching(rows, to, from, visited, stack) && t in stack
    ensures Reaches(rows, to, t)
  {
  }

  // -------------------------------------------------------------- blockers and unblocking

  /** The tasks that block this one, oldest link first. */
  function BlockersOf(rows: seq<Relation>, task: TaskId): (blockers: seq<TaskId>)
    ensures forall b :: b in blockers <==> Edge(rows, b, task)
  {
    if rows == [] then []
    else
      var rest, last := rows[..|rows| - 1], rows[|rows| - 1];
      assert forall b :: Edge(rows, b, task) <==> Edge(rest, b, task) || (Blocking(last, b) && last.target == task) by {
        forall b ensures Edge(rows, b, task) <==> Edge(rest, b, task) || (Blocking(last, b) && last.target == task) {
          EdgesGrow(rows, b);
        }
      }
      BlockersOf(rest, task) + if BlockedBy(last, task) then [last.from] else []
  }

  predicate Holds(tasks: map<TaskId, Status>, blocker: TaskId) { blocker in tasks && !tasks[blocker].Done? }

  function Holding(tasks: map<TaskId, Status>, blockers: seq<TaskId>): (active: seq<TaskId>)
    ensures forall b :: b in active <==> b in blockers && Holds(tasks, b)
  {
    if blockers == [] then []
    else
      var rest, last := blockers[..|blockers| - 1], blockers[|blockers| - 1];
      assert forall b :: b in blockers <==> b in rest || b == last;
      Holding(tasks, rest) + if Holds(tasks, last) then [last] else []
  }

  function ActiveBlockers(rows: seq<Relation>, tasks: map<TaskId, Status>, task: TaskId): seq<TaskId> {
    Holding(tasks, BlockersOf(rows, task))
  }

  method ListActiveBlockers(rows: seq<Relation>, tasks: map<TaskId, Status>, task: TaskId) returns (active: seq<TaskId>)
    ensures active == ActiveBlockers(rows, tasks, task)
    ensures forall b :: b in active <==> Edge(rows, b, task) && b in tasks && !tasks[b].Done?
    ensures active == [] <==> forall b :: Edge(rows, b, task) ==> b !in tasks || tasks[b].Done?
  {
    var blockers := BlockersOf(rows, task);
    active := [];
    for i := 0 to |blockers|
      invariant active == Holding(tasks, blockers[..i])
    {
      assert blockers[..i + 1][..i] == blockers[..i];
      if blockers[i] in tasks {
        if !tasks[blockers[i]].Done? {
          active := active + [blockers[i]];
        }
      }
    }
    assert blockers[..|blockers|] == blockers;
    if active != [] {
      assert active[0] in Holding(tasks, blockers);
    }
  }

  /** Held back now, and by nothing once `blocker` is done. */
  predicate FreedBy(rows: seq<Relation>, tasks: map<TaskId, Status>, blocker: TaskId, task: TaskId) {
    ActiveBlockers(rows, tasks, task) != [] && ActiveBlockers(rows, tasks[blocker := Done], task) == []
  }

  /** Every blocker but this one is a task that is done. */
  predicate OthersDone(rows: seq<Relation>, tasks: map<TaskId, Status>, blocker: TaskId, task: TaskId) {
    forall b :: b in BlockersOf(rows, task) && b != blocker ==> IsDone(tasks, b)
  }

  lemma OthersDoneIffFreed(rows: seq<Relation>, tasks: map<TaskId, Status>, blocker: TaskId, task: TaskId)
    requires Holds(tasks, blocker) && Edge(rows, blocker, task)
    ensures OthersDone(rows, tasks, blocker, task) <==>
              FreedBy(rows, tasks, blocker, task) && forall b :: Edge(rows, b, task) ==> b in tasks
  {
    var now, later := ActiveBlockers(rows, tasks, task), ActiveBlockers(rows, tasks[blocker := Done], task);
    assert blocker in now;
    if later != [] {
      assert later[0] in later;
    }
    forall b | b in BlockersOf(rows, task) && Holds(tasks[blocker := Done], b) ensures later != [] {
      assert b in later;
    }
  }

  lemma OthersDoneMeans(rows: seq<Relation>, tasks: map<TaskId, Status>, blocker: TaskId, task: TaskId)
    ensures OthersDone(rows, tasks, blocker, task) <==>
              forall b :: Edge(rows, b, task) && b != blocker ==> b in tasks && tasks[b].Done?
  {
    hide Edge;
    var all := BlockersOf(rows, task);
    assert forall b :: Edge(rows, b, task) <==> b in all;
  }

  lemma FreedOnlyByAnActiveBlocker(rows: seq<Relation>, tasks: map<TaskId, Status>, blocker: TaskId, task: TaskId)
    requires FreedBy(rows, tasks, blocker, task)
    ensures Holds(tasks, blocker) && Edge(rows, blocker, task)
  {
    var now, later := ActiveBlockers(rows, tasks, task), ActiveBlockers(rows, tasks[blocker := Done], task);
    assert now[0] in now;
    assert now[0] !in later;
  }

  lemma {:induction false} TargetsOnce(rows: seq<Relation>, task: TaskId)
    requires Unique(rows)
    ensures Distinct(BlocksTargets(rows, task))
  {
    if rows != [] {
      var rest, last := rows[..|rows| - 1], rows[|rows| - 1];
      TargetsOnce(rest, task);
      if Blocking(last, task) {
        var earlier := BlocksTargets(rest, task);
        forall k | 0 <= k < |earlier| ensures earlier[k] != last.target {
          assert earlier[k] in earlier;
          var i :| 0 <= i < |rest| && Blocking(rest[i], task) && rest[i].target == earlier[k];
          assert !SameLink(rows[i], last);
        }
      }
    }
  }

  predicate Distinct(tasks: seq<TaskId>) { forall i, j :: 0 <= i < j < |tasks| ==> tasks[i] != tasks[j] }

  /** Lists a task exactly when finishing `blocker` frees it and every one of its blockers still exists: when
      `blocker` holds it back and all others are done. */
  method ListDownstreamToUnblock(rows: seq<Relation>, tasks: map<TaskId, Status>, blocker: TaskId)
    returns (freed: seq<TaskId>)
    ensures forall t :: t in freed <==>
              FreedBy(rows, tasks, blocker, t) && forall b :: Edge(rows, b, t) ==> b in tasks
    ensures forall t :: t in freed <==>
              && blocker in tasks && !tasks[blocker].Done? && Edge(rows, blocker, t)
              && forall b :: Edge(rows, b, t) && b != blocker ==> b in tasks && tasks[b].Done?
    ensures Unique(rows) ==> Distinct(freed)
  {
    hide FreedBy, Edge, OthersDone, ActiveBlockers, Unique;
    freed := [];
    if !Holds(tasks, blocker) {
      forall t ensures !FreedBy(rows, tasks, blocker, t) {
        if FreedBy(rows, tasks, blocker, t) {
          FreedOnlyByAnActiveBlocker(rows, tasks, blocker, t);
        }
      }
      return;
    }
    var downstream := BlocksTargets(rows, blocker);
    if Unique(rows) {
      TargetsOnce(rows, blocker);
    }
    for i := 0 to |downstream|
      invariant forall t :: t in freed <==> t in downstream[..i] && OthersDone(rows, tasks, blocker, t)
      invariant Unique(rows) ==> Distinct(freed)
    {
      var target := downstream[i];
      var all := BlockersOf(rows, target);
      var allDone, j := true, 0;
      while j < |all| && allDone
        invariant 0 <= j <= |all|
        invariant allDone <==> forall k :: 0 <= k < j && all[k] != blocker ==> IsDone(tasks, all[k])
      {
        if all[j] != blocker && !IsDone(tasks, all[j]) {
          allDone := false;
        }
        j := j + 1;
      }
      assert allDone <==> OthersDone(rows, tasks, blocker, target) by {
        ScannedAll(rows, tasks, blocker, target, j, allDone);
      }
      if allDone {
        freed := freed + [target];
      }
      assert downstream[..i + 1] == downstream[..i] + [target];
    }
    forall t
      ensures t in freed <==> FreedBy(rows, tasks, blocker, t) && forall b :: Edge(rows, b, t) ==> b in tasks
      ensures t in freed <==> Edge(rows, blocker, t) && forall b :: Edge(rows, b, t) && b != blocker ==> b in tasks && tasks[b].Done?
    {
      if Edge(rows, blocker, t) {
        OthersDoneIffFreed(rows, tasks, blocker, t);
        OthersDoneMeans(rows, tasks, blocker, t);
      } else if FreedBy(rows, tasks, blocker, t) {
        FreedOnlyByAnActiveBlocker(rows, tasks, blocker, t);
      }
    }
  }

  lemma ScannedAll(rows: seq<Relation>, tasks: map<TaskId, Status>, blocker: TaskId, task: TaskId, n: nat, allDone: bool)
    requires var all := BlockersOf(rows, task);
             && n <= |all|
             && (allDone <==> forall k :: 0 <= k < n && all[k] != blocker ==> IsDone(tasks, all[k]))
             && (n < |all| ==> !allDone)
    ensures allDone <==> OthersDone(rows, tasks, blocker, task)
  {
    var all := BlockersOf(rows, task);
    if !allDone {
      var k :| 0 <= k < n && all[k] != blocker && !IsDone(tasks, all[k]);
      assert all[k] in all;
    }
  }

  // ------------------------------------------------------- the links over whole runs

  datatype Op =
    | Link(link: Relation)
    | Unlink(id: RelationId)
    | Finish(task: TaskId)

  predicate Free(rows: seq<Relation>, link: Relation) {
    forall i :: 0 <= i < |rows| ==> rows[i].id != link.id && !SameLink(rows[i], link)
  }

  ghost predicate MayLink(rows: seq<Relation>, link: Relation) {
    link.kind.Blocks? ==> !Reaches(rows, link.target, link.from) && |LeavingReachable(rows, link.target)| < MAX_DEPTH
  }

  function Removed(rows: seq<Relation>, id: RelationId): (left: seq<Relation>)
    ensures forall r :: r in left <==> r in rows && r.id != id
  {
    if rows == [] then []
    else
      var rest, last := rows[..|rows| - 1], rows[|rows| - 1];
      assert forall r :: r in rows <==> r in rest || r == last;
      Removed(rest, id) + if last.id == id then [] else [last]
  }

  /** The same link was retired before. */
  predicate HasTwin(rows: seq<Relation>, r: Relation) {
    exists i :: 0 <= i < |rows| && SameLink(rows[i], r.(kind := WasBlocking))
  }

  /** The first of the task's `Blocks` rows, from `i` on, that cannot be retired; the end if all can. */
  function StopAt(rows: seq<Relation>, task: TaskId, i: nat): (n: nat)
    requires i <= |rows|
    ensures i <= n <= |rows|
    ensures n == |rows| <==> forall j :: i <= j < |rows| && Blocking(rows[j], task) ==> !HasTwin(rows, rows[j])
    ensures n < |rows| ==> Blocking(rows[n], task) && HasTwin(rows, rows[n])
    ensures forall j :: i <= j < n && Blocking(rows[j], task) ==> !HasTwin(rows, rows[j])
    decreases |rows| - i
  {
    if i == |rows| then i
    else if Blocking(rows[i], task) && HasTwin(rows, rows[i]) then i
    else StopAt(rows, task, i + 1)
  }

  /** The first `n` rows, with the task's `Blocks` rows among them turned into history. */
  function Retired(rows: seq<Relation>, task: TaskId, n: nat): (r: seq<Relation>)
    ensures |r| == |rows|
    ensures forall i :: 0 <= i < |r| ==> r[i] == if i < n && Blocking(rows[i], task) then rows[i].(kind := WasBlocking) else rows[i]
  {
    seq(|rows|, i requires 0 <= i < |rows| =>
      if i < n && Blocking(rows[i], task) then rows[i].(kind := WasBlocking) else rows[i])
  }

  ghost function LinksAfter(rows: seq<Relation>, op: Op): seq<Relation> {
    match op
    case Link(link) => if MayLink(rows, link) && Free(rows, link) then rows + [link] else rows
    case Unlink(id) => Removed(rows, id)
    case Finish(task) => Retired(rows, task, StopAt(rows, task, 0))
  }

  ghost function LinksAfterAll(rows: seq<Relation>, ops: seq<Op>): seq<Relation> {
    if ops == [] then rows else LinksAfter(LinksAfterAll(rows, ops[..|ops| - 1]), ops[|ops| - 1])
  }

  lemma ReachesOn(rows: seq<Relation>, a: TaskId, b: TaskId, c: TaskId)
    requires Reaches(rows, a, b) && Reaches(rows, b, c)
    ensures Reaches(rows, a, c)
  {
    var p, q :| PathBetween(rows, p, a, b) && PathBetween(rows, q, b, c);
    var path := p + q[1..];
    forall i | 0 <= i < |path| - 1 ensures Edge(rows, path[i], path[i + 1]) {
      if i >= |p| - 1 {
        assert path[i] == q[i - |p| + 1] && path[i + 1] == q[i - |p| + 2];
      }
    }
    assert PathBetween(rows, path, a, c);
  }

  /** A path that may use the new link avoids it, or reaches its start and leaves from its end. */
  lemma {:induction false} PathsWithLink(rows: seq<Relation>, link: Relation, path: seq<TaskId>, a: TaskId, b: TaskId)
    requires PathBetween(rows + [link], path, a, b)
    ensures Reaches(rows, a, b) || (Reaches(rows, a, link.from) && Reaches(rows, link.target, b))
    decreases |path|
  {
    hide Reaches;
    if |path| == 1 {
      ReachesSelf(rows, a);
    } else {
      var init, c := path[..|path| - 1], path[|path| - 2];
      assert init[|init| - 1] == c;
      forall i | 0 <= i < |init| - 1 ensures Edge(rows + [link], init[i], init[i + 1]) {
        assert init[i + 1] == path[i + 1];
      }
      PathsWithLink(rows, link, init, a, c);
      assert Edge(rows + [link], c, b);
      EdgesGrow(rows + [link], c);
      assert (rows + [link])[..|rows|] == rows;
      if Edge(rows, c, b) {
        if Reaches(rows, a, c) {
          ReachesStep(rows, a, c, b);
        } else {
          ReachesStep(rows, link.target, c, b);
        }
      } else {
        ReachesSelf(rows, b);
      }
    }
  }

  lemma EdgesWithLink(rows: seq<Relation>, link: Relation)
    ensures forall a, b :: Edge(rows + [link], a, b) <==> Edge(rows, a, b) || (Blocking(link, a) && link.target == b)
  {
    assert (rows + [link])[..|rows|] == rows;
    forall a ensures forall b :: Edge(rows + [link], a, b) <==> Edge(rows, a, b) || (Blocking(link, a) && link.target == b) {
      hide Edge;
      EdgesGrow(rows + [link], a);
    }
  }

  /** A link keeps the graph acyclic if and only if nothing leads from its end back to its start. */
  lemma LinkKeepsAcyclicIff(rows: seq<Relation>, link: Relation)
    requires Acyclic(rows) && link.kind.Blocks?
    ensures Acyclic(rows + [link]) <==> !Reaches(rows, link.target, link.from)
  {
    hide Reaches, Edge;
    var more := rows + [link];
    EdgesWithLink(rows, link);
    if Reaches(rows, link.target, link.from) {
      ReachesWithMore(rows, more, link.target, link.from);
      assert Edge(more, link.from, link.target);
    } else {
      forall a, b | Edge(more, a, b) ensures !Reaches(more, b, a) {
        if Reaches(more, b, a) {
          LinkClosesCycle(rows, link, a, b);
        }
      }
    }
  }

  lemma LinkClosesCycle(rows: seq<Relation>, link: Relation, a: TaskId, b: TaskId)
    requires Acyclic(rows) && link.kind.Blocks?
    requires Edge(rows + [link], a, b) && Reaches(rows + [link], b, a)
    ensures Reaches(rows, link.target, link.from)
  {
    EdgesWithLink(rows, link);
    var path :| PathBetween(rows + [link], path, b, a);
    PathsWithLink(rows, link, path, b, a);
    hide Reaches, Edge;
    if Edge(rows, a, b) {
      ReachesStep(rows, link.target, a, b);
      ReachesOn(rows, link.target, b, link.from);
    }
  }

  lemma ReachesWithMore(rows: seq<Relation>, more: seq<Relation>, a: TaskId, b: TaskId)
    requires Reaches(rows, a, b) && forall x, y :: Edge(rows, x, y) ==> Edge(more, x, y)
    ensures Reaches(more, a, b)
  {
    var path :| PathBetween(rows, path, a, b);
    assert PathBetween(more, path, a, b);
  }

  lemma FewerEdgesAcyclic(rows: seq<Relation>, fewer: seq<Relation>)
    requires Acyclic(rows) && forall x, y :: Edge(fewer, x, y) ==> Edge(rows, x, y)
    ensures Acyclic(fewer)
  {
    hide Reaches, Edge;
    forall a, b | Edge(fewer, a, b) ensures !Reaches(fewer, b, a) {
      if Reaches(fewer, b, a) {
        ReachesWithMore(fewer, rows, b, a);
      }
    }
  }

  lemma RemovedEdges(rows: seq<Relation>, id: RelationId)
    ensures forall x, y :: Edge(Removed(rows, id), x, y) ==> Edge(rows, x, y)
  {
    forall x, y | Edge(Removed(rows, id), x, y) ensures Edge(rows, x, y) {
      var left := Removed(rows, id);
      var i :| 0 <= i < |left| && Blocking(left[i], x) && left[i].target == y;
      assert left[i] in left;
      var j :| 0 <= j < |rows| && rows[j] == left[i];
    }
  }

  lemma RetiredEdges(rows: seq<Relation>, task: TaskId, n: nat)
    ensures forall x, y :: Edge(Retired(rows, task, n), x, y) ==> Edge(rows, x, y)
  {
    var r := Retired(rows, task, n);
    forall x, y | Edge(r, x, y) ensures Edge(rows, x, y) {
      var i :| 0 <= i < |r| && Blocking(r[i], x) && r[i].target == y;
      assert Blocking(rows[i], x);
    }
  }

  lemma RetiredBlocksNobody(rows: seq<Relation>, task: TaskId, n: nat, y: TaskId)
    requires n >= |rows|
    ensures !Edge(Retired(rows, task, n), task, y)
  {
    var r := Retired(rows, task, n);
    forall i | 0 <= i < |r| ensures !Blocking(r[i], task) {
    }
  }

  /** Whatever is linked, unlinked and finished, no task ever comes to block itself. */
  lemma {:induction false} RunKeepsAcyclic(rows: seq<Relation>, ops: seq<Op>)
    requires Acyclic(rows)
    ensures Acyclic(LinksAfterAll(rows, ops))
  {
    hide Acyclic, Reaches, Edge;
    if ops != [] {
      RunKeepsAcyclic(rows, ops[..|ops| - 1]);
      var before, op := LinksAfterAll(rows, ops[..|ops| - 1]), ops[|ops| - 1];
      match op
      case Link(link) =>
        if link.kind.Blocks? {
          LinkKeepsAcyclicIff(before, link);
        } else {
          EdgesWithLink(before, link);
          FewerEdgesAcyclic(before, before + [link]);
        }
      case Unlink(id) =>
        RemovedEdges(before, id);
        FewerEdgesAcyclic(before, Removed(before, id));
      case Finish(task) =>
        RetiredEdges(before, task, StopAt(before, task, 0));
        FewerEdgesAcyclic(before, Retired(before, task, StopAt(before, task, 0)));
    }
  }

  lemma TwinsStay(rows: seq<Relation>, task: TaskId, n: nat, i: nat)
    requires Unique(rows) && n <= i < |rows| && Blocking(rows[i], task)
    ensures HasTwin(Retired(rows, task, n), rows[i]) <==> HasTwin(rows, rows[i])
  {
    var now, twin := Retired(rows, task, n), rows[i].(kind := WasBlocking);
    if j :| 0 <= j < |now| && SameLink(now[j], twin) {
      assert j != i ==> !SameLink(rows[j], rows[i]);
      assert SameLink(rows[j], twin) || j < n;
    }
    if j :| 0 <= j < |rows| && SameLink(rows[j], twin) {
      assert SameLink(now[j], twin);
    }
  }

  lemma RetiredUnique(rows: seq<Relation>, task: TaskId, n: nat)
    requires Unique(rows) && n <= StopAt(rows, task, 0)
    ensures Unique(Retired(rows, task, n))
  {
    var r := Retired(rows, task, n);
    forall i, j | 0 <= i < j < |r| ensures r[i].id != r[j].id && !SameLink(r[i], r[j]) {
      assert !SameLink(rows[i], rows[j]);
      if i < n && Blocking(rows[i], task) {
        assert !SameLink(rows[j], rows[i].(kind := WasBlocking));
      }
      if j < n && Blocking(rows[j], task) {
        assert !SameLink(rows[i], rows[j].(kind := WasBlocking));
      }
    }
  }

  lemma {:induction false} RemovedUnique(rows: seq<Relation>, id: RelationId)
    requires Unique(rows)
    ensures Unique(Removed(rows, id))
  {
    if rows != [] {
      var rest, last := rows[..|rows| - 1], rows[|rows| - 1];
      RemovedUnique(rest, id);
      var left := Removed(rest, id);
      forall i | 0 <= i < |left| ensures left[i].id != last.id && !SameLink(left[i], last) {
        assert left[i] in left;
        var j :| 0 <= j < |rest| && rest[j] == left[i];
        assert rest[j] == rows[j];
      }
    }
  }

  lemma {:induction false} RunKeepsUnique(rows: seq<Relation>, ops: seq<Op>)
    requires Unique(rows)
    ensures Unique(LinksAfterAll(rows, ops))
  {
    if ops != [] {
      RunKeepsUnique(rows, ops[..|ops| - 1]);
      var before := LinksAfterAll(rows, ops[..|ops| - 1]);
      match ops[|ops| - 1]
      case Link(_) =>
      case Unlink(id) => RemovedUnique(before, id);
      case Finish(task) => RetiredUnique(before, task, StopAt(before, task, 0));
    }
  }

  lemma OtherRowsStay(rows: seq<Relation>, k: nat, i: nat)
    requires Unique(rows) && k < |rows| && i < |rows| && i != k
    ensures rows[i] in Removed(rows, rows[k].id)
  {
    hide Removed;
    assert rows[i].id != rows[k].id;
    assert rows[i] in rows;
  }

  /** Taking a link away takes away that one blocker. */
  lemma UnlinkedBlockers(rows: seq<Relation>, k: nat, b: TaskId)
    requires Unique(rows) && k < |rows| && rows[k].kind.Blocks?
    ensures Edge(Removed(rows, rows[k].id), b, rows[k].target) <==> Edge(rows, b, rows[k].target) && b != rows[k].from
  {
    hide Edge, Removed, Unique;
    RemovedEdges(rows, rows[k].id);
    LinkIsGone(rows, k);
    if Edge(rows, b, rows[k].target) && b != rows[k].from {
      OtherBlockerStays(rows, k, b);
    }
  }

  lemma OtherBlockerStays(rows: seq<Relation>, k: nat, b: TaskId)
    requires Unique(rows) && k < |rows| && Edge(rows, b, rows[k].target) && b != rows[k].from
    ensures Edge(Removed(rows, rows[k].id), b, rows[k].target)
  {
    hide Removed, Unique;
    var left := Removed(rows, rows[k].id);
    var i :| 0 <= i < |rows| && Blocking(rows[i], b) && rows[i].target == rows[k].target;
    OtherRowsStay(rows, k, i);
    var j :| 0 <= j < |left| && left[j] == rows[i];
    assert Blocking(left[j], b);
  }

  lemma LinkIsGone(rows: seq<Relation>, k: nat)
    requires Unique(rows) && k < |rows| && rows[k].kind.Blocks?
    ensures !Edge(Removed(rows, rows[k].id), rows[k].from, rows[k].target)
  {
    hide Removed;
    var left, link := Removed(rows, rows[k].id), rows[k];
    forall i | 0 <= i < |left| ensures !(Blocking(left[i], link.from) && left[i].target == link.target) {
      assert left[i] in left;
      var j :| 0 <= j < |rows| && rows[j] == left[i];
      assert j != k;
      assert !SameLink(rows[j], rows[k]);
    }
  }

  /** Being freed by the end of a blocker and by the removal of its link are the same. */
  lemma UnlinkingFreesLikeFinishing(rows: seq<Relation>, tasks: map<TaskId, Status>, k: nat)
    requires Unique(rows) && k < |rows| && rows[k].kind.Blocks?
    ensures FreedBy(rows, tasks, rows[k].from, rows[k].target) <==>
              && ActiveBlockers(rows, tasks, rows[k].target) != []
              && ActiveBlockers(Removed(rows, rows[k].id), tasks, rows[k].target) == []
  {
    hide Removed, Unique, Edge;
    var link, later := rows[k], tasks[rows[k].from := Done];
    var left := Removed(rows, link.id);
    var unlinked, finished := ActiveBlockers(left, tasks, link.target), ActiveBlockers(rows, later, link.target);
    forall b ensures b in unlinked <==> b in finished {
      UnlinkedBlockers(rows, k, b);
    }
    assert unlinked != [] ==> unlinked[0] in unlinked;
    assert finished != [] ==> finished[0] in finished;
  }

  class RelationTable {
    var rows: seq<Relation>

    /** Inserts the link exactly when it closes no cycle, the search is short enough and it is new. */
    method LinkTasks(link: Relation) returns (r: Result<()>)
      modifies this
      ensures r.Success? <==> MayLink(old(rows), link) && Free(old(rows), link)
      ensures rows == LinksAfter(old(rows), Link(link))
      ensures rows == if r.Success? then old(rows) + [link] else old(rows)
      ensures r == Failure("cycle_detected") ==> link.kind.Blocks? && Reaches(rows, link.target, link.from)
      ensures r == Failure("relation_graph_too_deep") ==> link.kind.Blocks? && |LeavingReachable(rows, link.target)| >= MAX_DEPTH
      ensures r == Failure("relation_exists") <==> MayLink(rows, link) && !Free(old(rows), link)
      ensures r.Failure? ==> r.error in {"cycle_detected", "relation_graph_too_deep", "relation_exists"}
    {
      var verdict := DetectCycle(rows, link.from, link.target, link.kind);
      if verdict.CycleDetected? {
        return Failure("cycle_detected");
      }
      if verdict.GraphTooDeep? {
        return Failure("relation_graph_too_deep");
      }
      if !Free(rows, link) {
        return Failure("relation_exists");
      }
      rows := rows + [link];
      return Success(());
    }

    /** Reports the target unblocked exactly when this was the last link holding it, all its blockers existing. */
    method UnlinkTasks(id: RelationId, tasks: map<TaskId, Status>) returns (r: Result<bool>)
      requires Unique(rows)
      modifies this
      ensures Unique(rows) && rows == LinksAfter(old(rows), Unlink(id))
      ensures r.Failure? <==> forall k :: 0 <= k < |old(rows)| ==> old(rows)[k].id != id
      ensures r.Failure? ==> rows == old(rows)
      ensures forall k :: r.Success? && 0 <= k < |old(rows)| && old(rows)[k].id == id ==>
        var task := old(rows)[k].target;
        r.value <==> && old(rows)[k].kind.Blocks?
                     && ActiveBlockers(old(rows), tasks, task) != [] && ActiveBlockers(rows, tasks, task) == []
                     && forall b :: Edge(old(rows), b, task) ==> b in tasks
    {
      hide Edge, ActiveBlockers, FreedBy, Removed;
      RemovedUnique(rows, id);
      var k := 0;
      while k < |rows| && rows[k].id != id
        invariant 0 <= k <= |rows| && forall j :: 0 <= j < k ==> rows[j].id != id
      {
        k := k + 1;
      }
      if k == |rows| {
        NothingRemoved(rows, id);
        return Failure("not_found");
      }
      var unblocked := false;
      if rows[k].kind.Blocks? {
        var freed := ListDownstreamToUnblock(rows, tasks, rows[k].from);
        unblocked := rows[k].target in freed;
        UnlinkingFreesLikeFinishing(rows, tasks, k);
      }
      rows := Removed(rows, id);
      return Success(unblocked);
    }

    /** Finishing a task turns its `Blocks` links into history, up to the first that was history before. Only
        when there is none does the command go through; a refusal for one leaves the links before it retired. */
    method FinishTask(task: TaskId, tasks: map<TaskId, Status>) returns (r: Result<seq<TaskId>>)
      requires Unique(rows)
      modifies this
      ensures Unique(rows)
      ensures ActiveBlockers(old(rows), tasks, task) != [] ==> r.Failure? && rows == old(rows)
      ensures ActiveBlockers(old(rows), tasks, task) == [] ==>
        && rows == LinksAfter(old(rows), Finish(task))
        && (r.Success? <==> forall i :: 0 <= i < |old(rows)| && Blocking(old(rows)[i], task) ==> !HasTwin(old(rows), old(rows)[i]))
      ensures r.Success? ==> forall t :: t in r.value <==>
        FreedBy(old(rows), tasks, task, t) && forall b :: Edge(old(rows), b, t) ==> b in tasks
      ensures r.Success? ==> forall t :: !Edge(rows, task, t)
    {
      hide Edge, FreedBy, Unique, HasTwin;
      var active := ListActiveBlockers(rows, tasks, task);
      if active != [] {
        return Failure("task_blocked");
      }
      var freed := ListDownstreamToUnblock(rows, tasks, task);
      ghost var before := rows;
      var i := 0;
      while i < |rows|
        invariant 0 <= i <= |rows| && rows == Retired(before, task, i)
        invariant forall j :: 0 <= j < i && Blocking(before[j], task) ==> !HasTwin(before, before[j])
        decreases |rows| - i
      {
        if Blocking(rows[i], task) {
          TwinsStay(before, task, i, i);
          if HasTwin(rows, rows[i]) {
            assert StopAt(before, task, 0) == i;
            RetiredUnique(before, task, i);
            return Failure("UNIQUE constraint failed");
          }
          rows := rows[i := rows[i].(kind := WasBlocking)];
        }
        i := i + 1;
        assert rows == Retired(before, task, i);
      }
      RetiredUnique(before, task, i);
      forall t { RetiredBlocksNobody(before, task, i, t); }
      return Success(freed);
    }
  }

  predicate Has(rows: seq<Relation>, id: RelationId) { exists i :: 0 <= i < |rows| && rows[i].id == id }

  lemma {:induction false} NothingRemoved(rows: seq<Relation>, id: RelationId)
    requires !Has(rows, id)
    ensures Removed(rows, id) == rows
  {
    if rows != [] {
      var rest, last := rows[..|rows| - 1], rows[|rows| - 1];
      assert !Has(rest, id) by {
        forall i | 0 <= i < |rest| ensures rest[i].id != id {
          assert rest[i] == rows[i];
        }
      }
      assert last.id != id;
      hide Has;
      NothingRemoved(rest, id);
      assert rows == rest + [last];
    }
  }

  /** A blocker that was finished, reopened and linked again to the same task cannot be finished again: the
      row's new kind is taken. Its other links may be retired all the same. */
  lemma FinishedBlockerCannotFinishAgain(a: TaskId, b: TaskId, i: RelationId, j: RelationId)
    requires a != b && i != j
    ensures var once := LinksAfterAll([], [Link(Relation(i, a, b, Blocks)), Finish(a), Link(Relation(j, a, b, Blocks))]);
            && Unique(once) && StopAt(once, a, 0) < |once|
            && LinksAfter(once, Finish(a)) == once && Edge(once, a, b)
  {
    hide LinksAfter, LinksAfterAll, Unique, StopAt, Edge;
    var first, second := Relation(i, a, b, Blocks), Relation(j, a, b, Blocks);
    var history := first.(kind := WasBlocking);
    LinkedOnce([], first);
    assert [] + [first] == [first];
    FinishedOnce(first);
    LinkedOnce([history], second);
    var ops := [Link(first), Finish(a), Link(second)];
    RunKeepsUnique([], ops) by { NoRowsUnique(); }
    RunOfThree(Link(first), Finish(a), Link(second));
    StopsAtTwin(history, second);
  }

  lemma NoRowsUnique()
    ensures Unique([])
  {
  }

  lemma RunOfThree(p: Op, q: Op, r: Op)
    ensures LinksAfterAll([], [p, q, r]) == LinksAfter(LinksAfter(LinksAfter([], p), q), r)
  {
    hide LinksAfter;
    var ops := [p, q, r];
    assert ops[..2] == [p, q] && [p, q][..1] == [p] && [p][..0] == [];
    assert LinksAfterAll([], [p]) == LinksAfter([], p);
    assert LinksAfterAll([], [p, q]) == LinksAfter(LinksAfterAll([], [p]), q);
  }

  lemma LinkedOnce(rows: seq<Relation>, link: Relation)
    requires link.from != link.target && Free(rows, link) && forall r :: 0 <= r < |rows| ==> !rows[r].kind.Blocks?
    ensures LinksAfter(rows, Link(link)) == rows + [link]
  {
    NothingReaches(rows, link.target, link.from);
  }

  lemma FinishedOnce(link: Relation)
    requires link.kind.Blocks?
    ensures LinksAfter([link], Finish(link.from)) == [link.(kind := WasBlocking)]
  {
    assert !HasTwin([link], link);
    assert StopAt([link], link.from, 0) == 1;
  }

  lemma StopsAtTwin(history: Relation, link: Relation)
    requires link.kind.Blocks? && SameLink(history, link.(kind := WasBlocking))
    ensures var once := [history] + [link];
            && StopAt(once, link.from, 0) == 1 && LinksAfter(once, Finish(link.from)) == once
            && Edge(once, link.from, link.target)
  {
    var once := [history] + [link];
    assert SameLink(once[0], once[1].(kind := WasBlocking)) && !Blocking(once[0], link.from) && Blocking(once[1], link.from);
  }

  lemma NothingReaches(rows: seq<Relation>, x: TaskId, y: TaskId)
    requires x != y && forall r :: 0 <= r < |rows| ==> !rows[r].kind.Blocks?
    ensures !Reaches(rows, x, y) && LeavingReachable(rows, x) == {}
  {
    forall path ensures !PathBetween(rows, path, x, y) {
      if |path| > 1 {
        assert !Edge(rows, path[0], path[1]);
      }
    }
  }
}

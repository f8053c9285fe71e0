/** Which tasks of a plan can run at once: the waves, and the next task handed to an agent. */
module Fanout {
  import opened Events

  type AgentId = nat

  datatype RelationKind = Blocks | WasBlocking | RelatesTo | Duplicates

  type RelationId = nat

  datatype Relation = Relation(id: RelationId, from: TaskId, target: TaskId, kind: RelationKind)

  /** Plan tasks come ordered by position. */
  datatype PlanTask = PlanTask(task: TaskId, position: nat, dependsOn: seq<TaskId>)

  predicate OneEach(plan: seq<PlanTask>) {
    forall i, j :: 0 <= i < j < |plan| ==> plan[i].task != plan[j].task
  }

  function Members(plan: seq<PlanTask>): set<TaskId> { set i | 0 <= i < |plan| :: plan[i].task }

  predicate IsDone(rows: map<TaskId, Status>, task: TaskId) { task in rows && rows[task].Done? }

  /** Plan tasks whose row exists and is not terminal. */
  function Unfinished(plan: seq<PlanTask>, rows: map<TaskId, Status>): set<TaskId> {
    set t | t in Members(plan) && t in rows && !rows[t].IsTerminal()
  }

  /** What holds a plan task back: plan dependencies that are not done tasks of the plan, and blockers
      that are not done. */
  function Blockers(plan: seq<PlanTask>, rows: map<TaskId, Status>, relations: seq<Relation>, task: TaskId): set<TaskId> {
    (set i, k | 0 <= i < |plan| && plan[i].task == task && 0 <= k < |plan[i].dependsOn|
       && !(plan[i].dependsOn[k] in Members(plan) && IsDone(rows, plan[i].dependsOn[k])) :: plan[i].dependsOn[k])
    + (set r | 0 <= r < |relations| && relations[r].kind.Blocks? && relations[r].target == task
         && !IsDone(rows, relations[r].from) :: relations[r].from)
  }

  // ------------------------------------------------------------- waves as a least fixpoint

  /** The tasks to schedule, and what each waits for. */
  datatype Graph = Graph(tasks: set<TaskId>, waits: map<TaskId, set<TaskId>>)
  {
    function Waits(t: TaskId): set<TaskId> { if t in waits then waits[t] else {} }
  }

  function GraphOf(plan: seq<PlanTask>, rows: map<TaskId, Status>, relations: seq<Relation>): Graph {
    var tasks := Unfinished(plan, rows);
    Graph(tasks, map t | t in tasks :: Blockers(plan, rows, relations, t))
  }

  /** What `n` rounds schedule. */
  function Scheduled(g: Graph, n: nat): set<TaskId> {
    if n == 0 then {} else set t | t in g.tasks && g.Waits(t) <= Scheduled(g, n - 1)
  }

  function Wave(g: Graph, k: nat): set<TaskId> { Scheduled(g, k + 1) - Scheduled(g, k) }

  lemma {:induction false} ScheduledGrows(g: Graph, n: nat)
    ensures Scheduled(g, n) <= Scheduled(g, n + 1) <= g.tasks
  {
    if n > 0 {
      ScheduledGrows(g, n - 1);
    }
  }

  lemma {:induction false} ScheduledMonotone(g: Graph, m: nat, n: nat)
    requires m <= n
    ensures Scheduled(g, m) <= Scheduled(g, n)
    decreases n - m
  {
    if m < n {
      ScheduledMonotone(g, m, n - 1);
      ScheduledGrows(g, n - 1);
    }
  }

  /** What the rounds schedule is in every set that holds each task all of whose blockers it holds. */
  lemma {:induction false} LeastFixpoint(g: Graph, n: nat, closed: set<TaskId>)
    requires forall t :: t in g.tasks && g.Waits(t) <= closed ==> t in closed
    ensures Scheduled(g, n) <= closed
  {
    if n > 0 {
      LeastFixpoint(g, n - 1, closed);
    }
  }

  /** A task runs after all it waits for, and no later than it has to. */
  lemma WaveIsEarliest(g: Graph, k: nat, t: TaskId)
    requires t in Wave(g, k)
    ensures g.Waits(t) <= Scheduled(g, k)
    ensures k > 0 ==> exists b :: b in g.Waits(t) && b in Wave(g, k - 1)
  {
    if k > 0 {
      ScheduledGrows(g, k - 1);
      assert !(g.Waits(t) <= Scheduled(g, k - 1));
      var b :| b in g.Waits(t) && b !in Scheduled(g, k - 1);
      assert b in Wave(g, k - 1);
    }
  }

  lemma WavesDisjoint(g: Graph, k: nat, l: nat)
    requires k < l
    ensures Wave(g, k) !! Wave(g, l)
  {
    ScheduledMonotone(g, k + 1, l);
  }

  /** A chain of tasks each waiting for the next that ends in something never scheduled here, or in itself. */
  ghost predicate StuckChain(g: Graph, chain: seq<TaskId>, t: TaskId) {
    && |chain| >= 2 && chain[0] == t
    && (forall i :: 0 <= i < |chain| - 1 ==> chain[i] in g.tasks && chain[i + 1] in g.Waits(chain[i]))
    && (chain[|chain| - 1] !in g.tasks || chain[|chain| - 1] in chain[..|chain| - 1])
  }

  lemma {:induction false} ChainNeverScheduled(g: Graph, chain: seq<TaskId>, t: TaskId, n: nat, i: nat)
    requires StuckChain(g, chain, t) && i < |chain|
    ensures chain[i] !in Scheduled(g, n)
    decreases n
  {
    if n > 0 && chain[i] in g.tasks {
      var at := i;
      if i == |chain| - 1 {
        at :| 0 <= at < |chain| - 1 && chain[at] == chain[i];
      }
      ChainNeverScheduled(g, chain, t, n - 1, at + 1);
    }
  }

  /** Follow the unscheduled blockers until one is no task to schedule, or comes round again. */
  lemma ChainFrom(g: Graph, n: nat, path: seq<TaskId>) returns (chain: seq<TaskId>)
    requires Scheduled(g, n) == Scheduled(g, n + 1)
    requires path != [] && (forall i, j :: 0 <= i < j < |path| ==> path[i] != path[j])
    requires forall i :: 0 <= i < |path| ==> path[i] in g.tasks && path[i] !in Scheduled(g, n)
    requires forall i :: 0 <= i < |path| - 1 ==> path[i + 1] in g.Waits(path[i])
    ensures StuckChain(g, chain, path[0])
    decreases g.tasks - (set x | x in path)
  {
    var last := path[|path| - 1];
    assert last !in Scheduled(g, n + 1);
    var b :| b in g.Waits(last) && b !in Scheduled(g, n);
    if b in path || b !in g.tasks {
      chain := path + [b];
      assert chain[..|path|] == path;
    } else {
      assert b in g.tasks - (set x | x in path) && b !in g.tasks - (set x | x in path + [b]);
      chain := ChainFrom(g, n, path + [b]);
    }
  }

  /** Once a round schedules nothing new, what is left out is exactly what waits, through others perhaps,
      on a cycle or on something that will not be scheduled. */
  lemma LeftOutIffStuck(g: Graph, n: nat, t: TaskId)
    requires Scheduled(g, n) == Scheduled(g, n + 1) && t in g.tasks
    ensures t !in Scheduled(g, n) <==> exists chain :: StuckChain(g, chain, t)
  {
    if t !in Scheduled(g, n) {
      var chain := ChainFrom(g, n, [t]);
    }
    if chain :| StuckChain(g, chain, t) {
      ChainNeverScheduled(g, chain, t, n, 0);
    }
  }

  // -------------------------------------------------------------------------- the code

  function InPlanOrder(plan: seq<PlanTask>, chosen: set<TaskId>): seq<TaskId> {
    if plan == [] then []
    else
      var last := plan[|plan| - 1].task;
      InPlanOrder(plan[..|plan| - 1], chosen) + if last in chosen then [last] else []
  }

  lemma {:induction false} InPlanOrderMembers(plan: seq<PlanTask>, chosen: set<TaskId>, t: TaskId)
    ensures t in InPlanOrder(plan, chosen) <==> t in Members(plan) && t in chosen
  {
    if plan != [] {
      var init := plan[..|plan| - 1];
      InPlanOrderMembers(init, chosen, t);
      MembersGrow(plan);
    }
  }

  lemma MembersGrow(plan: seq<PlanTask>)
    requires plan != []
    ensures Members(plan) == Members(plan[..|plan| - 1]) + {plan[|plan| - 1].task}
  {
    var init := plan[..|plan| - 1];
    forall t ensures t in Members(plan) <==> t in Members(init) + {plan[|plan| - 1].task} {
      if t in Members(init) {
        var i :| 0 <= i < |init| && init[i].task == t;
        assert plan[i].task == t;
      }
      if t in Members(plan) {
        var i :| 0 <= i < |plan| && plan[i].task == t;
        assert i < |init| ==> init[i].task == t;
      }
    }
  }

  predicate StandsBefore(plan: seq<PlanTask>, a: TaskId, b: TaskId) {
    exists p, q :: 0 <= p < q < |plan| && plan[p].task == a && plan[q].task == b
  }

  /** Nothing is listed twice, and what is listed earlier stands earlier in the plan. */
  lemma {:induction false} InPlanOrderOnceEach(plan: seq<PlanTask>, chosen: set<TaskId>)
    requires OneEach(plan)
    ensures var listed := InPlanOrder(plan, chosen);
            forall i, j :: 0 <= i < j < |listed| ==> listed[i] != listed[j] && StandsBefore(plan, listed[i], listed[j])
  {
    if plan != [] {
      var init, last := plan[..|plan| - 1], plan[|plan| - 1].task;
      InPlanOrderOnceEach(init, chosen);
      var earlier := InPlanOrder(init, chosen);
      assert last !in Members(init);
      forall i | 0 <= i < |earlier| ensures earlier[i] != last && StandsBefore(plan, earlier[i], last) {
        InPlanOrderMembers(init, chosen, earlier[i]);
        var p :| 0 <= p < |init| && init[p].task == earlier[i];
        assert plan[p].task == earlier[i] && plan[|plan| - 1].task == last;
      }
      forall a, b | StandsBefore(init, a, b) ensures StandsBefore(plan, a, b) {
        var p, q :| 0 <= p < q < |init| && init[p].task == a && init[q].task == b;
        assert plan[p].task == a && plan[q].task == b;
      }
    }
  }

  /** What the first `n` plan tasks' dependencies put in the way. */
  function DepsOf(plan: seq<PlanTask>, rows: map<TaskId, Status>, n: nat, task: TaskId): set<TaskId>
    requires n <= |plan|
  {
    set i, k | 0 <= i < n && plan[i].task == task && 0 <= k < |plan[i].dependsOn|
       && !(plan[i].dependsOn[k] in Members(plan) && IsDone(rows, plan[i].dependsOn[k])) :: plan[i].dependsOn[k]
  }

  function BlocksOf(rows: map<TaskId, Status>, relations: seq<Relation>, n: nat, task: TaskId): set<TaskId>
    requires n <= |relations|
  {
    set r | 0 <= r < n && relations[r].kind.Blocks? && relations[r].target == task
       && !IsDone(rows, relations[r].from) :: relations[r].from
  }

  function Entry(incoming: map<TaskId, set<TaskId>>, t: TaskId): set<TaskId> { if t in incoming then incoming[t] else {} }

  method CollectDeps(plan: seq<PlanTask>, rows: map<TaskId, Status>, remaining: set<TaskId>)
    returns (incoming: map<TaskId, set<TaskId>>)
    ensures forall t :: Entry(incoming, t) == if t in remaining then DepsOf(plan, rows, |plan|, t) else {}
  {
    incoming := map[];
    for i := 0 to |plan|
      invariant forall t :: Entry(incoming, t) == if t in remaining then DepsOf(plan, rows, i, t) else {}
    {
      var task := plan[i].task;
      ghost var before := incoming;
      if task in remaining {
        var deps := plan[i].dependsOn;
        for k := 0 to |deps|
          invariant forall t :: t != task ==> Entry(incoming, t) == Entry(before, t)
          invariant Entry(incoming, task) == Entry(before, task) +
            set j | 0 <= j < k && !(deps[j] in Members(plan) && IsDone(rows, deps[j])) :: deps[j]
        {
          if !(deps[k] in Members(plan) && IsDone(rows, deps[k])) {
            incoming := incoming[task := Entry(incoming, task) + {deps[k]}];
          }
        }
      }
      forall t ensures Entry(incoming, t) == if t in remaining then DepsOf(plan, rows, i + 1, t) else {} {
        DepsStep(plan, rows, i, t);
      }
    }
  }

  lemma DepsStep(plan: seq<PlanTask>, rows: map<TaskId, Status>, i: nat, t: TaskId)
    requires i < |plan|
    ensures var deps := plan[i].dependsOn;
            DepsOf(plan, rows, i + 1, t) == DepsOf(plan, rows, i, t) +
              if plan[i].task == t then set j | 0 <= j < |deps| && !(deps[j] in Members(plan) && IsDone(rows, deps[j])) :: deps[j]
              else {}
  {
  }

  lemma BlocksStep(rows: map<TaskId, Status>, relations: seq<Relation>, r: nat, t: TaskId)
    requires r < |relations|
    ensures var rel := relations[r];
            BlocksOf(rows, relations, r + 1, t) == BlocksOf(rows, relations, r, t) +
              if rel.kind.Blocks? && rel.target == t && !IsDone(rows, rel.from) then {rel.from} else {}
  {
  }

  /** The first `r` relations have added what they put in the way. */
  ghost predicate Blocked(rows: map<TaskId, Status>, relations: seq<Relation>, remaining: set<TaskId>,
                          deps: map<TaskId, set<TaskId>>, incoming: map<TaskId, set<TaskId>>, r: nat)
    requires r <= |relations|
  {
    forall t :: Entry(incoming, t) == Entry(deps, t) + if t in remaining then BlocksOf(rows, relations, r, t) else {}
  }

  lemma BlockedOneMore(rows: map<TaskId, Status>, relations: seq<Relation>, remaining: set<TaskId>,
                       deps: map<TaskId, set<TaskId>>, incoming: map<TaskId, set<TaskId>>, r: nat)
    requires r < |relations| && Blocked(rows, relations, remaining, deps, incoming, r)
    ensures var rel := relations[r];
            var added := if rel.kind.Blocks? && rel.target in remaining && !IsDone(rows, rel.from)
                         then incoming[rel.target := Entry(incoming, rel.target) + {rel.from}] else incoming;
            Blocked(rows, relations, remaining, deps, added, r + 1)
  {
    hide BlocksOf, IsDone;
    forall t ensures BlocksOf(rows, relations, r + 1, t) == BlocksOf(rows, relations, r, t) +
        if relations[r].kind.Blocks? && relations[r].target == t && !IsDone(rows, relations[r].from) then {relations[r].from} else {}
    {
      BlocksStep(rows, relations, r, t);
    }
  }

  method CollectBlockers(rows: map<TaskId, Status>, relations: seq<Relation>, remaining: set<TaskId>,
                         deps: map<TaskId, set<TaskId>>)
    returns (incoming: map<TaskId, set<TaskId>>)
    ensures Blocked(rows, relations, remaining, deps, incoming, |relations|)
  {
    incoming := deps;
    assert Blocked(rows, relations, remaining, deps, incoming, 0);
    hide Blocked;
    for r := 0 to |relations|
      invariant Blocked(rows, relations, remaining, deps, incoming, r)
    {
      BlockedOneMore(rows, relations, remaining, deps, incoming, r);
      var rel := relations[r];
      if rel.kind.Blocks? && rel.target in remaining && !IsDone(rows, rel.from) {
        incoming := incoming[rel.target := Entry(incoming, rel.target) + {rel.from}];
      }
    }
  }

  method PickReady(plan: seq<PlanTask>, remaining: set<TaskId>, incoming: map<TaskId, set<TaskId>>)
    returns (ready: seq<TaskId>)
    ensures ready == InPlanOrder(plan, set t | t in remaining && Entry(incoming, t) == {})
  {
    ready := [];
    for i := 0 to |plan|
      invariant ready == InPlanOrder(plan[..i], set t | t in remaining && Entry(incoming, t) == {})
    {
      assert plan[..i + 1][..i] == plan[..i];
      if plan[i].task in remaining && Entry(incoming, plan[i].task) == {} {
        ready := ready + [plan[i].task];
      }
    }
    assert plan[..|plan|] == plan;
  }

  /** The state of the layering after `n` waves. */
  ghost predicate Layered(g: Graph, n: nat, remaining: set<TaskId>, incoming: map<TaskId, set<TaskId>>) {
    && remaining == g.tasks - Scheduled(g, n)
    && forall t :: t in g.tasks ==> Entry(incoming, t) == g.Waits(t) - Scheduled(g, n)
  }

  lemma ReadyIsWave(g: Graph, n: nat, remaining: set<TaskId>, incoming: map<TaskId, set<TaskId>>)
    requires Layered(g, n, remaining, incoming)
    ensures (set t | t in remaining && Entry(incoming, t) == {}) == Wave(g, n)
  {
    var ready := set t | t in remaining && Entry(incoming, t) == {};
    forall t ensures t in ready <==> t in Wave(g, n) {
      hide Scheduled;
      InNextRound(g, n, t);
      if t in remaining {
        assert Entry(incoming, t) == g.Waits(t) - Scheduled(g, n);
        NothingBeyond(g.Waits(t), Scheduled(g, n));
      }
    }
  }

  lemma NothingBeyond(a: set<TaskId>, b: set<TaskId>)
    ensures a - b == {} <==> a <= b
  {
    if a - b == {} {
      forall x | x in a ensures x in b {
        assert x !in a - b;
      }
    }
  }

  lemma InNextRound(g: Graph, n: nat, t: TaskId)
    ensures t in Scheduled(g, n + 1) <==> t in g.tasks && g.Waits(t) <= Scheduled(g, n)
  {
  }

  lemma LayerNext(g: Graph, n: nat, remaining: set<TaskId>, incoming: map<TaskId, set<TaskId>>, wave: set<TaskId>)
    requires Layered(g, n, remaining, incoming) && wave == Wave(g, n)
    ensures Layered(g, n + 1, remaining - wave, map t | t in incoming :: incoming[t] - wave)
    ensures wave <= remaining
  {
    ScheduledGrows(g, n);
  }

  /** Wave `k` holds, in plan order, what round `k` schedules, and the last round leaves nothing that another
      would schedule. */
  ghost predicate AreRounds(plan: seq<PlanTask>, g: Graph, waves: seq<seq<TaskId>>) {
    && (forall k :: 0 <= k < |waves| ==> waves[k] == InPlanOrder(plan, Wave(g, k)) && waves[k] != [])
    && Scheduled(g, |waves|) == Scheduled(g, |waves| + 1)
  }

  lemma InSomeWave(plan: seq<PlanTask>, rows: map<TaskId, Status>, relations: seq<Relation>, waves: seq<seq<TaskId>>,
                   k: nat, t: TaskId)
    requires AreRounds(plan, GraphOf(plan, rows, relations), waves) && k <= |waves|
    ensures t in Scheduled(GraphOf(plan, rows, relations), k) <==> InOneOf(waves[..k], t)
  {
    hide GraphOf, Scheduled, InPlanOrder, AreRounds;
    if k == 0 {
      NothingYet(GraphOf(plan, rows, relations));
    } else {
      InSomeWave(plan, rows, relations, waves, k - 1, t);
      InWaveIff(plan, rows, relations, waves, k - 1, t);
      ScheduledGrows(GraphOf(plan, rows, relations), k - 1);
      assert waves[..k] == waves[..k - 1] + [waves[k - 1]];
    }
  }

  lemma NothingYet(g: Graph)
    ensures Scheduled(g, 0) == {}
  {
  }

  lemma InWaveIff(plan: seq<PlanTask>, rows: map<TaskId, Status>, relations: seq<Relation>, waves: seq<seq<TaskId>>,
                  k: nat, t: TaskId)
    requires AreRounds(plan, GraphOf(plan, rows, relations), waves) && k < |waves|
    ensures t in waves[k] <==> t in Wave(GraphOf(plan, rows, relations), k)
  {
    hide GraphOf, Scheduled, InPlanOrder, Wave;
    ReadyMembers(plan, rows, relations, k, waves[k]);
    assert t in waves[k] <==> t in set x | x in waves[k];
  }

  predicate InOneOf(waves: seq<seq<TaskId>>, t: TaskId) { exists k :: 0 <= k < |waves| && t in waves[k] }

  predicate DependsOn(plan: seq<PlanTask>, t: TaskId, d: TaskId) {
    exists i :: 0 <= i < |plan| && plan[i].task == t && d in plan[i].dependsOn
  }

  predicate LinkedBehind(relations: seq<Relation>, t: TaskId, b: TaskId) {
    exists r :: 0 <= r < |relations| && relations[r].kind == Blocks && relations[r].from == b && relations[r].target == t
  }

  predicate InPlan(plan: seq<PlanTask>, t: TaskId) { exists i :: 0 <= i < |plan| && plan[i].task == t }

  /** Only tasks of the plan that are neither done nor cancelled are in a wave. */
  ghost predicate HoldUnfinished(plan: seq<PlanTask>, rows: map<TaskId, Status>, waves: seq<seq<TaskId>>) {
    forall t :: InOneOf(waves, t) ==>
      InPlan(plan, t) && t in rows && (rows[t].Inbox? || rows[t].Todo? || rows[t].InProgress? || rows[t].InReview?)
  }

  /** What a task in a wave depends on is a done task of the plan or in an earlier wave, and what blocks it is done
      or in an earlier wave. */
  ghost predicate KeepBack(plan: seq<PlanTask>, rows: map<TaskId, Status>, relations: seq<Relation>, waves: seq<seq<TaskId>>) {
    forall k, t, b :: 0 <= k < |waves| && t in waves[k] ==>
      && (DependsOn(plan, t, b) ==> InOneOf(waves[..k], b) || (InPlan(plan, b) && b in rows && rows[b].Done?))
      && (LinkedBehind(relations, t, b) ==> InOneOf(waves[..k], b) || (b in rows && rows[b].Done?))
  }

  /** A task past the first wave waits for one in the wave before it. */
  ghost predicate ComeEarly(plan: seq<PlanTask>, relations: seq<Relation>, waves: seq<seq<TaskId>>) {
    forall k, t :: 1 <= k < |waves| && t in waves[k] ==> WaitsForOneOf(plan, relations, t, waves[k - 1])
  }

  ghost predicate WaitsForOneOf(plan: seq<PlanTask>, relations: seq<Relation>, t: TaskId, wave: seq<TaskId>) {
    exists b :: b in wave && (DependsOn(plan, t, b) || LinkedBehind(relations, t, b))
  }

  /** An unfinished task of the plan in no wave waits for something unfinished that is in no wave, or for a
      dependency outside the plan. */
  ghost predicate LeaveOutHeld(plan: seq<PlanTask>, rows: map<TaskId, Status>, relations: seq<Relation>, waves: seq<seq<TaskId>>) {
    forall t :: InPlan(plan, t) && t in rows && !rows[t].Done? && !rows[t].Cancelled? && !InOneOf(waves, t) ==>
      HeldOutside(plan, rows, relations, waves, t)
  }

  ghost predicate HeldOutside(plan: seq<PlanTask>, rows: map<TaskId, Status>, relations: seq<Relation>,
                              waves: seq<seq<TaskId>>, t: TaskId)
  {
    || (exists b :: DependsOn(plan, t, b) && !(InPlan(plan, b) && b in rows && rows[b].Done?) && !InOneOf(waves, b))
    || (exists b :: LinkedBehind(relations, t, b) && !(b in rows && rows[b].Done?) && !InOneOf(waves, b))
  }

  lemma InWaveIsTask(g: Graph, k: nat, t: TaskId)
    requires t in Wave(g, k)
    ensures t in g.tasks && g.Waits(t) <= Scheduled(g, k)
  {
  }

  lemma UnfinishedIs(plan: seq<PlanTask>, rows: map<TaskId, Status>, t: TaskId)
    ensures t in Unfinished(plan, rows) <==>
              InPlan(plan, t) && t in rows && (rows[t].Inbox? || rows[t].Todo? || rows[t].InProgress? || rows[t].InReview?)
  {
  }

  lemma BlockersIs(plan: seq<PlanTask>, rows: map<TaskId, Status>, relations: seq<Relation>, t: TaskId, b: TaskId)
    ensures b in Blockers(plan, rows, relations, t) <==>
              || (DependsOn(plan, t, b) && !(InPlan(plan, b) && b in rows && rows[b].Done?))
              || (LinkedBehind(relations, t, b) && !(b in rows && rows[b].Done?))
  {
    assert b in Members(plan) <==> InPlan(plan, b);
    hide Members, InPlan;
    if DependsOn(plan, t, b) {
      var i :| 0 <= i < |plan| && plan[i].task == t && b in plan[i].dependsOn;
      var k :| 0 <= k < |plan[i].dependsOn| && plan[i].dependsOn[k] == b;
    }
  }

  lemma WavesHoldUnfinished(plan: seq<PlanTask>, rows: map<TaskId, Status>, relations: seq<Relation>, waves: seq<seq<TaskId>>)
    requires AreRounds(plan, GraphOf(plan, rows, relations), waves)
    ensures HoldUnfinished(plan, rows, waves)
  {
    hide Scheduled, InPlanOrder, Wave, AreRounds, Unfinished, InPlan;
    forall t | InOneOf(waves, t)
      ensures InPlan(plan, t) && t in rows && (rows[t].Inbox? || rows[t].Todo? || rows[t].InProgress? || rows[t].InReview?)
    {
      var k :| 0 <= k < |waves| && t in waves[k];
      InWaveIff(plan, rows, relations, waves, k, t);
      InWaveIsTask(GraphOf(plan, rows, relations), k, t);
      UnfinishedIs(plan, rows, t);
    }
  }

  lemma WavesKeepBack(plan: seq<PlanTask>, rows: map<TaskId, Status>, relations: seq<Relation>, waves: seq<seq<TaskId>>)
    requires AreRounds(plan, GraphOf(plan, rows, relations), waves)
    ensures KeepBack(plan, rows, relations, waves)
  {
    hide Scheduled, InPlanOrder, Wave, AreRounds, Unfinished, Blockers, InOneOf, DependsOn, LinkedBehind, InPlan;
    var g := GraphOf(plan, rows, relations);
    forall k, t, b | 0 <= k < |waves| && t in waves[k]
      ensures DependsOn(plan, t, b) ==> InOneOf(waves[..k], b) || (InPlan(plan, b) && b in rows && rows[b].Done?)
      ensures LinkedBehind(relations, t, b) ==> InOneOf(waves[..k], b) || (b in rows && rows[b].Done?)
    {
      InWaveIff(plan, rows, relations, waves, k, t);
      InWaveIsTask(g, k, t);
      BlockersIs(plan, rows, relations, t, b);
      InSomeWave(plan, rows, relations, waves, k, b);
    }
  }

  lemma WavesComeEarly(plan: seq<PlanTask>, rows: map<TaskId, Status>, relations: seq<Relation>, waves: seq<seq<TaskId>>)
    requires AreRounds(plan, GraphOf(plan, rows, relations), waves)
    ensures ComeEarly(plan, relations, waves)
  {
    hide Scheduled, InPlanOrder, Wave, AreRounds, Unfinished, Blockers, DependsOn, LinkedBehind, InPlan;
    var g := GraphOf(plan, rows, relations);
    forall k, t | 1 <= k < |waves| && t in waves[k]
      ensures WaitsForOneOf(plan, relations, t, waves[k - 1])
    {
      InWaveIff(plan, rows, relations, waves, k, t);
      InWaveIsTask(g, k, t);
      WaveIsEarliest(g, k, t);
      var b :| b in g.Waits(t) && b in Wave(g, k - 1);
      InWaveIff(plan, rows, relations, waves, k - 1, b);
      BlockersIs(plan, rows, relations, t, b);
    }
  }

  lemma WavesLeaveOutHeld(plan: seq<PlanTask>, rows: map<TaskId, Status>, relations: seq<Relation>, waves: seq<seq<TaskId>>)
    requires AreRounds(plan, GraphOf(plan, rows, relations), waves)
    ensures LeaveOutHeld(plan, rows, relations, waves)
  {
    hide Scheduled, InPlanOrder, Wave, Unfinished, Blockers, DependsOn, LinkedBehind, InPlan, InOneOf;
    var g, n := GraphOf(plan, rows, relations), |waves|;
    assert waves[..n] == waves;
    forall t | InPlan(plan, t) && t in rows && !rows[t].Done? && !rows[t].Cancelled? && !InOneOf(waves, t)
      ensures HeldOutside(plan, rows, relations, waves, t)
    {
      UnfinishedIs(plan, rows, t);
      InSomeWave(plan, rows, relations, waves, n, t);
      InNextRound(g, n, t);
      var b :| b in g.Waits(t) && b !in Scheduled(g, n);
      InSomeWave(plan, rows, relations, waves, n, b);
      BlockersIs(plan, rows, relations, t, b);
    }
  }

  /** The waves: every unfinished task of the plan is in the earliest wave after all that holds it back, and
      whatever is left out is held back by something that is left out, too. */
  method PlanFanout(plan: seq<PlanTask>, rows: map<TaskId, Status>, relations: seq<Relation>)
    returns (waves: seq<seq<TaskId>>)
    ensures AreRounds(plan, GraphOf(plan, rows, relations), waves)
    ensures HoldUnfinished(plan, rows, waves)
    ensures KeepBack(plan, rows, relations, waves)
    ensures ComeEarly(plan, relations, waves)
    ensures LeaveOutHeld(plan, rows, relations, waves)
  {
    hide HoldUnfinished, KeepBack, ComeEarly, LeaveOutHeld, AreRounds;
    waves := LayOut(plan, rows, relations);
    WavesHoldUnfinished(plan, rows, relations, waves);
    WavesKeepBack(plan, rows, relations, waves);
    WavesComeEarly(plan, rows, relations, waves);
    WavesLeaveOutHeld(plan, rows, relations, waves);
  }

  method LayOut(plan: seq<PlanTask>, rows: map<TaskId, Status>, relations: seq<Relation>)
    returns (waves: seq<seq<TaskId>>)
    ensures AreRounds(plan, GraphOf(plan, rows, relations), waves)
  {
    hide Scheduled, Unfinished, DepsOf, BlocksOf, Blockers, Layered, Wave, InPlanOrder, Blocked, GraphOf, Entry;
    ghost var g := GraphOf(plan, rows, relations);
    var remaining := Unfinished(plan, rows);
    var deps := CollectDeps(plan, rows, remaining);
    var incoming := CollectBlockers(rows, relations, remaining, deps);
    waves := [];
    LayeredAtFirst(plan, rows, relations, deps, incoming);
    while remaining != {}
      invariant Layered(g, |waves|, remaining, incoming)
      invariant forall k :: 0 <= k < |waves| ==> waves[k] == InPlanOrder(plan, Wave(g, k)) && waves[k] != []
      decreases remaining
    {
      var ready := PickReady(plan, remaining, incoming);
      ReadyIsWave(g, |waves|, remaining, incoming);
      ReadyMembers(plan, rows, relations, |waves|, ready);
      if ready == [] {
        NoWaveNoGrowth(g, |waves|);
        return;
      }
      var taken := set t | t in ready;
      LayerNext(g, |waves|, remaining, incoming, taken);
      assert ready[0] in taken;
      remaining := remaining - taken;
      incoming := map t | t in incoming :: incoming[t] - taken;
      waves := waves + [ready];
    }
    NothingLeft(g, |waves|, remaining, incoming);
  }

  lemma LayeredAtFirst(plan: seq<PlanTask>, rows: map<TaskId, Status>, relations: seq<Relation>,
                       deps: map<TaskId, set<TaskId>>, incoming: map<TaskId, set<TaskId>>)
    requires var tasks := Unfinished(plan, rows);
             && (forall t :: Entry(deps, t) == if t in tasks then DepsOf(plan, rows, |plan|, t) else {})
             && Blocked(rows, relations, tasks, deps, incoming, |relations|)
    ensures Layered(GraphOf(plan, rows, relations), 0, Unfinished(plan, rows), incoming)
  {
    var g := GraphOf(plan, rows, relations);
    forall t | t in g.tasks ensures Entry(incoming, t) == g.Waits(t) {
      hide Unfinished, IsDone, Members;
      assert Entry(incoming, t) == DepsOf(plan, rows, |plan|, t) + BlocksOf(rows, relations, |relations|, t);
    }
  }

  lemma NothingLeft(g: Graph, n: nat, remaining: set<TaskId>, incoming: map<TaskId, set<TaskId>>)
    requires Layered(g, n, remaining, incoming) && remaining == {}
    ensures Scheduled(g, n) == Scheduled(g, n + 1)
  {
    ScheduledGrows(g, n);
    ScheduledGrows(g, n + 1);
  }

  lemma ReadyMembers(plan: seq<PlanTask>, rows: map<TaskId, Status>, relations: seq<Relation>, k: nat, ready: seq<TaskId>)
    requires ready == InPlanOrder(plan, Wave(GraphOf(plan, rows, relations), k))
    ensures (set t | t in ready) == Wave(GraphOf(plan, rows, relations), k)
  {
    var g := GraphOf(plan, rows, relations);
    ScheduledGrows(g, k);
    forall t ensures t in (set x | x in ready) <==> t in Wave(g, k) {
      InPlanOrderMembers(plan, Wave(g, k), t);
    }
  }

  lemma NoWaveNoGrowth(g: Graph, n: nat)
    requires Wave(g, n) == {}
    ensures Scheduled(g, n) == Scheduled(g, n + 1)
  {
    ScheduledGrows(g, n);
  }
}

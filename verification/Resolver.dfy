/** The next task of a plan handed to an agent, and the waves it comes from. */
module Resolver {
  import opened Events
  import opened Fanout
  import opened Relations

  /** The agents holding a live claim on each task. */
  type Claims = set<(TaskId, AgentId)>

  predicate ClaimedByOther(claims: Claims, task: TaskId, agent: AgentId) {
    exists c :: c in claims && c.0 == task && c.1 != agent
  }

  /** What an agent may be given at all. */
  predicate Takeable(rows: map<TaskId, Status>, claims: Claims, agent: AgentId, task: TaskId) {
    task in rows && !rows[task].IsTerminal() && !rows[task].Inbox? && !ClaimedByOther(claims, task, agent)
  }

  /** The resolver's own test of a plan task. Without a relation repository links hold nobody back. */
  predicate Offered(plan: seq<PlanTask>, rows: map<TaskId, Status>, relations: Option<seq<Relation>>,
                    claims: Claims, agent: AgentId, i: nat)
    requires i < |plan|
  {
    && Takeable(rows, claims, agent, plan[i].task)
    && (forall k :: 0 <= k < |plan[i].dependsOn| ==> IsDone(rows, plan[i].dependsOn[k]))
    && (relations.Some? ==> ActiveBlockers(relations.value, rows, plan[i].task) == [])
  }

  /** A task is offered that is under way or to do, depends on nothing unfinished, is linked behind no task that
      exists and is not done, and is claimed by nobody else. */
  lemma OfferedMeans(plan: seq<PlanTask>, rows: map<TaskId, Status>, relations: Option<seq<Relation>>,
                     claims: Claims, agent: AgentId, i: nat)
    requires i < |plan|
    ensures var task := plan[i].task;
            Offered(plan, rows, relations, claims, agent, i) <==>
              && task in rows && (rows[task].Todo? || rows[task].InProgress? || rows[task].InReview?)
              && (forall d :: d in plan[i].dependsOn ==> d in rows && rows[d].Done?)
              && (relations.Some? ==> forall b :: LinkedBehind(relations.value, task, b) && b in rows ==> rows[b].Done?)
              && (forall c :: c in claims && c.0 == task ==> c.1 == agent)
  {
    hide ActiveBlockers;
    assert forall d :: d in plan[i].dependsOn ==> exists k :: 0 <= k < |plan[i].dependsOn| && plan[i].dependsOn[k] == d;
    if relations.Some? {
      NoneActiveIff(relations.value, rows, plan[i].task);
    }
  }

  lemma NoneActiveIff(relations: seq<Relation>, rows: map<TaskId, Status>, task: TaskId)
    ensures ActiveBlockers(relations, rows, task) == [] <==> forall b :: LinkedBehind(relations, task, b) && b in rows ==> rows[b].Done?
  {
    var active := ActiveBlockers(relations, rows, task);
    if active != [] {
      assert active[0] in active;
      assert LinkedBehind(relations, task, active[0]);
    }
    forall b | LinkedBehind(relations, task, b) && b in rows && !rows[b].Done? ensures b in active {
      var r :| 0 <= r < |relations| && relations[r].kind == Blocks && relations[r].from == b && relations[r].target == task;
      assert Blocking(relations[r], b);
      assert Edge(relations, b, task);
    }
  }

  /** The first plan task that passes, of an active plan; none if none does. */
  predicate IsNext(active: bool, plan: seq<PlanTask>, rows: map<TaskId, Status>, relations: Option<seq<Relation>>,
                   claims: Claims, agent: AgentId, next: Option<nat>)
  {
    match next
    case None => active ==> forall j :: 0 <= j < |plan| ==> !Offered(plan, rows, relations, claims, agent, j)
    case Some(i) =>
      && active && i < |plan| && Offered(plan, rows, relations, claims, agent, i)
      && forall j :: 0 <= j < i ==> !Offered(plan, rows, relations, claims, agent, j)
  }

  method Next(active: bool, plan: seq<PlanTask>, rows: map<TaskId, Status>, relations: Option<seq<Relation>>,
              claims: Claims, agent: AgentId) returns (next: Option<nat>)
    ensures IsNext(active, plan, rows, relations, claims, agent, next)
    ensures next.Some? ==>
              && next.value < |plan| && plan[next.value].task in rows
              && var status := rows[plan[next.value].task]; status.Todo? || status.InProgress? || status.InReview?
  {
    if !active {
      return None;
    }
    for i := 0 to |plan|
      invariant forall j :: 0 <= j < i ==> !Offered(plan, rows, relations, claims, agent, j)
    {
      var task := plan[i].task;
      if task !in rows {
        continue;
      }
      if rows[task].IsTerminal() || rows[task].Inbox? {
        continue;
      }
      var depsOk, k := true, 0;
      while k < |plan[i].dependsOn| && depsOk
        invariant 0 <= k <= |plan[i].dependsOn|
        invariant depsOk <==> forall m :: 0 <= m < k ==> IsDone(rows, plan[i].dependsOn[m])
      {
        if !IsDone(rows, plan[i].dependsOn[k]) {
          depsOk := false;
        }
        k := k + 1;
      }
      if !depsOk {
        continue;
      }
      if relations.Some? {
        var blockers := ListActiveBlockers(relations.value, rows, task);
        if blockers != [] {
          continue;
        }
      }
      if ClaimedByOther(claims, task, agent) {
        continue;
      }
      return Some(i);
    }
    return None;
  }

  predicate DepsInPlan(plan: seq<PlanTask>, i: nat)
    requires i < |plan|
  {
    forall k :: 0 <= k < |plan[i].dependsOn| ==> plan[i].dependsOn[k] in Members(plan)
  }

  predicate BlockersExist(rows: map<TaskId, Status>, relations: seq<Relation>, task: TaskId) {
    forall r :: 0 <= r < |relations| && BlockedBy(relations[r], task) ==> relations[r].from in rows
  }

  lemma FirstWave(g: Graph, t: TaskId)
    ensures t in Wave(g, 0) <==> t in g.tasks && g.Waits(t) == {}
  {
    InNextRound(g, 0, t);
    assert Scheduled(g, 0) == {};
    NothingBeyond(g.Waits(t), {});
  }

  lemma NothingInTheWayIff(plan: seq<PlanTask>, rows: map<TaskId, Status>, relations: seq<Relation>, i: nat)
    requires OneEach(plan) && i < |plan|
    ensures Blockers(plan, rows, relations, plan[i].task) == {} <==>
              && (forall k :: 0 <= k < |plan[i].dependsOn| ==> plan[i].dependsOn[k] in Members(plan) && IsDone(rows, plan[i].dependsOn[k]))
              && (forall r :: 0 <= r < |relations| && BlockedBy(relations[r], plan[i].task) ==> IsDone(rows, relations[r].from))
  {
    var task, held := plan[i].task, Blockers(plan, rows, relations, plan[i].task);
    forall k | 0 <= k < |plan[i].dependsOn| && !(plan[i].dependsOn[k] in Members(plan) && IsDone(rows, plan[i].dependsOn[k]))
      ensures held != {}
    {
      assert plan[i].dependsOn[k] in held;
    }
    forall r | 0 <= r < |relations| && BlockedBy(relations[r], task) && !IsDone(rows, relations[r].from)
      ensures held != {}
    {
      assert relations[r].from in held;
    }
  }

  /** An offered task whose dependencies are in the plan and whose blockers exist is one of the first wave that
      may be taken; and those are all the tasks of the first wave that may be taken. */
  lemma OfferedIffFirstWave(plan: seq<PlanTask>, rows: map<TaskId, Status>, relations: seq<Relation>,
                            claims: Claims, agent: AgentId, i: nat)
    requires OneEach(plan) && i < |plan|
    ensures Offered(plan, rows, Some(relations), claims, agent, i)
              && DepsInPlan(plan, i) && BlockersExist(rows, relations, plan[i].task)
            <==>
            plan[i].task in Wave(GraphOf(plan, rows, relations), 0) && Takeable(rows, claims, agent, plan[i].task)
  {
    var task, g := plan[i].task, GraphOf(plan, rows, relations);
    FirstWave(g, task);
    NothingInTheWayIff(plan, rows, relations, i);
    assert task in rows && !rows[task].IsTerminal() ==> task in g.tasks;
    BlockersAllDoneIff(rows, relations, task);
  }

  lemma BlockersAllDoneIff(rows: map<TaskId, Status>, relations: seq<Relation>, task: TaskId)
    ensures (forall r :: 0 <= r < |relations| && BlockedBy(relations[r], task) ==> IsDone(rows, relations[r].from)) <==>
              ActiveBlockers(relations, rows, task) == [] && BlockersExist(rows, relations, task)
  {
    var active := ActiveBlockers(relations, rows, task);
    if active != [] {
      assert active[0] in active;
      var r :| 0 <= r < |relations| && Blocking(relations[r], active[0]) && relations[r].target == task;
      assert BlockedBy(relations[r], task);
    }
    forall r | active == [] && 0 <= r < |relations| && BlockedBy(relations[r], task) && relations[r].from in rows
      ensures IsDone(rows, relations[r].from)
    {
      assert Blocking(relations[r], relations[r].from);
      assert Edge(relations, relations[r].from, task);
      assert relations[r].from !in active;
    }
  }

  function FirstTakeable(wave: seq<TaskId>, rows: map<TaskId, Status>, claims: Claims, agent: AgentId): Option<TaskId> {
    if wave == [] then None
    else if Takeable(rows, claims, agent, wave[0]) then Some(wave[0])
    else FirstTakeable(wave[1..], rows, claims, agent)
  }

  predicate Sound(plan: seq<PlanTask>, rows: map<TaskId, Status>, relations: seq<Relation>) {
    && OneEach(plan)
    && forall i :: 0 <= i < |plan| ==> DepsInPlan(plan, i) && BlockersExist(rows, relations, plan[i].task)
  }

  /** Scanning the plan finds what scanning the first wave, listed in plan order, finds. */
  lemma {:induction false} FirstOfWave(plan: seq<PlanTask>, rows: map<TaskId, Status>, claims: Claims, agent: AgentId,
                                       wave: set<TaskId>, i: nat)
    requires i < |plan| && plan[i].task in wave && Takeable(rows, claims, agent, plan[i].task)
    requires forall j :: 0 <= j < i ==> !(plan[j].task in wave && Takeable(rows, claims, agent, plan[j].task))
    ensures FirstTakeable(InPlanOrder(plan, wave), rows, claims, agent) == Some(plan[i].task)
  {
    var init, last := plan[..|plan| - 1], plan[|plan| - 1].task;
    if i < |init| {
      FirstOfWave(init, rows, claims, agent, wave, i);
      FirstInPrefix(InPlanOrder(init, wave), if last in wave then [last] else [], rows, claims, agent);
    } else {
      NoneInWave(init, rows, claims, agent, wave);
      FirstInPrefix(InPlanOrder(init, wave), [last], rows, claims, agent);
    }
  }

  lemma {:induction false} NoneInWave(plan: seq<PlanTask>, rows: map<TaskId, Status>, claims: Claims, agent: AgentId,
                                      wave: set<TaskId>)
    requires forall j :: 0 <= j < |plan| ==> !(plan[j].task in wave && Takeable(rows, claims, agent, plan[j].task))
    ensures FirstTakeable(InPlanOrder(plan, wave), rows, claims, agent) == None
  {
    if plan != [] {
      var init, last := plan[..|plan| - 1], plan[|plan| - 1].task;
      NoneInWave(init, rows, claims, agent, wave);
      FirstInPrefix(InPlanOrder(init, wave), if last in wave then [last] else [], rows, claims, agent);
    }
  }

  lemma {:induction false} FirstInPrefix(a: seq<TaskId>, b: seq<TaskId>, rows: map<TaskId, Status>, claims: Claims, agent: AgentId)
    ensures FirstTakeable(a + b, rows, claims, agent) ==
            if FirstTakeable(a, rows, claims, agent).Some? then FirstTakeable(a, rows, claims, agent)
            else FirstTakeable(b, rows, claims, agent)
  {
    if a == [] {
      assert a + b == b;
    } else {
      assert (a + b)[1..] == a[1..] + b;
      FirstInPrefix(a[1..], b, rows, claims, agent);
    }
  }

  /** What the resolver hands out for an active plan is the first task of the first wave, in plan order, that
      may be taken, and nothing exactly when there is none. */
  lemma NextIsFirstOfFirstWave(plan: seq<PlanTask>, rows: map<TaskId, Status>, relations: seq<Relation>,
                               claims: Claims, agent: AgentId, next: Option<nat>)
    requires Sound(plan, rows, relations) && IsNext(true, plan, rows, Some(relations), claims, agent, next)
    ensures var first := FirstTakeable(InPlanOrder(plan, Wave(GraphOf(plan, rows, relations), 0)), rows, claims, agent);
            match next
            case None => first == None
            case Some(i) => first == Some(plan[i].task)
  {
    hide Wave, GraphOf, Offered, Takeable, DepsInPlan, BlockersExist;
    var wave := Wave(GraphOf(plan, rows, relations), 0);
    forall j | 0 <= j < |plan|
      ensures Offered(plan, rows, Some(relations), claims, agent, j) <==>
              plan[j].task in wave && Takeable(rows, claims, agent, plan[j].task)
    {
      OfferedIffFirstWave(plan, rows, relations, claims, agent, j);
    }
    match next
    case None => NoneInWave(plan, rows, claims, agent, wave);
    case Some(i) => FirstOfWave(plan, rows, claims, agent, wave, i);
  }
}

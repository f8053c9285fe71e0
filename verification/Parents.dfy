/** Plans inside plans: the guard on a plan's parent. */
module Parents {
  import opened Events
  import opened Chains

  const MAX_PARENT_DEPTH := 3

  datatype ParentVerdict = ParentFine | ParentCycle

  predicate Above(ups: Ups, plan: Node, from: Node) { exists k :: 0 <= k <= MAX_PARENT_DEPTH && Meets(ups, from, plan, k) }

  /** Accepts a parent exactly when its own chain of parents ends within `MAX_PARENT_DEPTH` plans, none of them
      the plan itself. */
  method DetectParentCycle(ups: Ups, plan: Node, candidate: Node) returns (verdict: ParentVerdict)
    ensures verdict.ParentFine? <==> Walk(ups, candidate, MAX_PARENT_DEPTH).None? && !Above(ups, plan, candidate)
  {
    if candidate == plan {
      assert Meets(ups, candidate, plan, 0);
      return ParentCycle;
    }
    var current, hops := candidate, 0;
    while true
      invariant 0 <= hops <= MAX_PARENT_DEPTH && Walk(ups, candidate, hops) == Some(current)
      invariant forall k :: 0 <= k <= hops ==> !Meets(ups, candidate, plan, k)
      decreases MAX_PARENT_DEPTH - hops
    {
      hops := hops + 1;
      if hops > MAX_PARENT_DEPTH {
        return ParentCycle;
      }
      if current !in ups {
        forall k | hops <= k <= MAX_PARENT_DEPTH ensures Walk(ups, candidate, k).None? {
          NothingAboveTheEnd(ups, candidate, hops, k);
        }
        return ParentFine;
      }
      if ups[current] == plan {
        assert Meets(ups, candidate, plan, hops);
        return ParentCycle;
      }
      current := ups[current];
    }
  }

  /** Among plans without cycles, a new parent closes one exactly when the plan is above that parent already; it
      does not matter whether the plan had another parent. */
  lemma NewParentKeepsAcyclicIff(ups: Ups, plan: Node, parent: Node)
    requires Acyclic(ups)
    ensures Acyclic(ups[plan := parent]) <==> forall k: nat :: !Meets(ups, parent, plan, k)
  {
    var now := ups[plan := parent];
    if k: nat :| Meets(ups, parent, plan, k) {
      FirstMeeting(ups, now, plan, parent, k);
    } else {
      forall k: nat ensures Walk(now, parent, k) == Walk(ups, parent, k) {
        SameWalk(ups, now, parent, k);
      }
      AcyclicEnds(ups, parent);
      EndsBelow(now, plan, |ups| + 1);
      OneChainDecidesAll(ups, now, plan);
    }
  }

  lemma EndsBelow(now: Ups, plan: Node, k: nat)
    requires plan in now && Walk(now, now[plan], k).None?
    ensures Ends(now, plan)
  {
    assert Walk(now, plan, 1) == Some(now[plan]);
    WalkOn(now, plan, 1, k);
  }

  lemma OneChainDecidesAll(ups: Ups, now: Ups, plan: Node)
    requires Acyclic(ups) && Ends(now, plan) && plan in now && now == ups[plan := now[plan]]
    ensures Acyclic(now)
  {
    assert Meets(now, plan, plan, 0);
    OneChainDecides(ups, now, plan);
  }

  /** The shortest way from the parent up to the plan does not use the plan's own link. */
  lemma {:induction false} FirstMeeting(ups: Ups, now: Ups, plan: Node, parent: Node, k: nat)
    requires now == ups[plan := parent] && Meets(ups, parent, plan, k)
    ensures !Acyclic(now)
  {
    if j: nat :| j < k && Meets(ups, parent, plan, j) {
      FirstMeeting(ups, now, plan, parent, j);
    } else {
      SameWalk(ups, now, parent, k);
      assert Walk(now, plan, 1) == Some(parent);
      WalkOn(now, plan, 1, k);
      assert Meets(now, plan, plan, k + 1);
    }
  }

  /** Setting a parent the guard accepted keeps plans without cycles. */
  lemma AcceptedParentKeepsAcyclic(ups: Ups, plan: Node, parent: Node)
    requires Acyclic(ups) && Walk(ups, parent, MAX_PARENT_DEPTH).None? && !Above(ups, plan, parent)
    ensures Acyclic(ups[plan := parent])
  {
    forall k: nat ensures !Meets(ups, parent, plan, k) {
      if k > MAX_PARENT_DEPTH {
        NothingAboveTheEnd(ups, parent, MAX_PARENT_DEPTH, k);
      }
    }
    NewParentKeepsAcyclicIff(ups, plan, parent);
  }

  /** No plan has more than `MAX_PARENT_DEPTH` plans above it. */
  ghost predicate Shallow(ups: Ups) { forall n: Node :: !Deep(ups, n) }

  predicate Deep(ups: Ups, n: Node) { Walk(ups, n, MAX_PARENT_DEPTH + 1).Some? }

  /** The guard looks at the moved plan only: plans stay as shallow as they should exactly when the new parent's
      chain is short enough for every plan below the moved one too. */
  lemma DepthKeptIff(ups: Ups, plan: Node, parent: Node)
    requires Shallow(ups) && Acyclic(ups)
    requires forall k: nat :: !Meets(ups, parent, plan, k)
    ensures Shallow(ups[plan := parent]) <==>
            forall n: Node, j: nat :: j <= MAX_PARENT_DEPTH && Meets(ups, n, plan, j) ==>
              Walk(ups, parent, MAX_PARENT_DEPTH - j).None?
  {
    var now := ups[plan := parent];
    forall n: Node, j: nat | j <= MAX_PARENT_DEPTH && Meets(ups, n, plan, j)
      ensures Deep(now, n) <==> Walk(ups, parent, MAX_PARENT_DEPTH - j).Some?
    {
      WalkThroughPlan(ups, plan, parent, n, j);
    }
    forall n: Node | forall j: nat :: j <= MAX_PARENT_DEPTH ==> !Meets(ups, n, plan, j)
      ensures !Deep(now, n)
    {
      assert !Deep(ups, n);
      SameWalk(ups, now, n, MAX_PARENT_DEPTH + 1);
    }
  }

  lemma WalkThroughPlan(ups: Ups, plan: Node, parent: Node, n: Node, j: nat)
    requires Acyclic(ups) && j <= MAX_PARENT_DEPTH && Meets(ups, n, plan, j)
    requires forall k: nat :: !Meets(ups, parent, plan, k)
    ensures Walk(ups[plan := parent], n, MAX_PARENT_DEPTH + 1) == Walk(ups, parent, MAX_PARENT_DEPTH - j)
  {
    var now := ups[plan := parent];
    forall i: nat | i < j ensures !Meets(ups, n, plan, i) {
      if Meets(ups, n, plan, i) {
        SeenTwice(ups, n, i, j);
        assert false;
      }
    }
    SameWalk(ups, now, n, j);
    assert Walk(now, n, j + 1) == Some(parent);
    WalkOn(now, n, j + 1, MAX_PARENT_DEPTH - j);
    SameWalk(ups, now, parent, MAX_PARENT_DEPTH - j);
  }

  /** An accepted parent can nest plans too deep, when the moved plan has plans below it. */
  lemma AcceptedParentCanNestTooDeep()
    ensures exists ups, plan, parent ::
              && Acyclic(ups) && Shallow(ups)
              && Walk(ups, parent, MAX_PARENT_DEPTH).None? && !Above(ups, plan, parent)
              && !Shallow(ups[plan := parent])
  {
    var ups: Ups := map[1 := 2, 2 := 3, 11 := 12];
    forall n: Node ensures Ends(ups, n) {
      StepsUp(ups, n);
      assert Walk(ups, n, 3).None?;
    }
    forall n: Node ensures !Deep(ups, n) {
      StepsUp(ups, n);
    }
    forall n: Node, k: nat | k > 0 ensures !Meets(ups, n, n, k) {
      if Meets(ups, n, n, k) {
        CycleNeverEnds(ups, n, 0, n, k);
        assert false;
      }
    }
    StepsUp(ups[12 := 1], 11);
    assert Deep(ups[12 := 1], 11);
    StepsUp(ups, 1);
    assert Acyclic(ups) && Shallow(ups) && !Above(ups, 12, 1);
  }

  lemma StepsUp(ups: Ups, n: Node)
    ensures Walk(ups, n, 1) == if n in ups then Some(ups[n]) else None
    ensures Walk(ups, n, 2) == match Walk(ups, n, 1) case None => None case Some(m) => if m in ups then Some(ups[m]) else None
    ensures Walk(ups, n, 3) == match Walk(ups, n, 2) case None => None case Some(m) => if m in ups then Some(ups[m]) else None
    ensures Walk(ups, n, 4) == match Walk(ups, n, 3) case None => None case Some(m) => if m in ups then Some(ups[m]) else None
  {
  }
}

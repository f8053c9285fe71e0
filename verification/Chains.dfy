/** Chains in which every node has at most one node above it. */
module Chains {
  import opened Events
  import opened Sets

  type Node = nat

  /** The node above each node that has one. */
  type Ups = map<Node, Node>

  /** The node `k` steps up. */
  function Walk(ups: Ups, from: Node, k: nat): Option<Node> {
    if k == 0 then Some(from)
    else match Walk(ups, from, k - 1)
      case None => None
      case Some(n) => if n in ups then Some(ups[n]) else None
  }

  predicate Meets(ups: Ups, from: Node, n: Node, k: nat) { Walk(ups, from, k) == Some(n) }

  /** Nothing is above itself. */
  ghost predicate Acyclic(ups: Ups) { forall n: Node, k: nat :: k > 0 ==> !Meets(ups, n, n, k) }

  ghost predicate Ends(ups: Ups, from: Node) { exists k: nat :: Walk(ups, from, k).None? }

  lemma {:induction false} WalkOn(ups: Ups, from: Node, j: nat, k: nat)
    requires Walk(ups, from, j).Some?
    ensures Walk(ups, from, j + k) == Walk(ups, Walk(ups, from, j).value, k)
  {
    if k > 0 {
      WalkOn(ups, from, j, k - 1);
    }
  }

  lemma {:induction false} NothingAboveTheEnd(ups: Ups, from: Node, j: nat, k: nat)
    requires Walk(ups, from, j).None? && j <= k
    ensures Walk(ups, from, k).None?
    decreases k - j
  {
    if j < k {
      NothingAboveTheEnd(ups, from, j, k - 1);
    }
  }

  /** A chain that comes back to a node goes round for ever. */
  lemma {:induction false} RoundForEver(ups: Ups, n: Node, k: nat, times: nat)
    requires k > 0 && Meets(ups, n, n, k)
    ensures Meets(ups, n, n, times * k)
  {
    if times > 0 {
      RoundForEver(ups, n, k, times - 1);
      WalkOn(ups, n, (times - 1) * k, k);
      assert (times - 1) * k + k == times * k;
    }
  }

  lemma CycleNeverEnds(ups: Ups, from: Node, j: nat, n: Node, k: nat)
    requires Meets(ups, from, n, j) && k > 0 && Meets(ups, n, n, k)
    ensures !Ends(ups, from)
  {
    if m: nat :| Walk(ups, from, m).None? {
      RoundForEver(ups, n, k, m);
      WalkOn(ups, from, j, m * k);
      assert m <= j + m * k by { TimesAtLeast(m, k); }
      NothingAboveTheEnd(ups, from, m, j + m * k);
    }
  }

  lemma TimesAtLeast(m: nat, k: nat)
    requires k > 0
    ensures m * k >= m
  {
    assert m * k == m * (k - 1) + m;
  }

  /** Whoever meets a node twice meets it again and again. */
  lemma SeenTwice(ups: Ups, from: Node, j: nat, k: nat)
    requires j < k && Walk(ups, from, j).Some? && Walk(ups, from, j) == Walk(ups, from, k)
    ensures Meets(ups, Walk(ups, from, j).value, Walk(ups, from, j).value, k - j)
    ensures !Ends(ups, from)
  {
    var n := Walk(ups, from, j).value;
    WalkOn(ups, from, j, k - j);
    CycleNeverEnds(ups, from, j, n, k - j);
  }

  /** Where two sets of links agree along a walk, it is the same walk. */
  lemma {:induction false} SameWalk(ups: Ups, other: Ups, from: Node, k: nat)
    requires forall j: nat, n: Node :: j < k && Meets(ups, from, n, j) ==>
               (n in ups <==> n in other) && (n in ups ==> ups[n] == other[n])
    ensures Walk(ups, from, k) == Walk(other, from, k)
  {
    if k > 0 {
      SameWalk(ups, other, from, k - 1);
      var at := Walk(ups, from, k - 1);
      assert at.Some? ==> Meets(ups, from, at.value, k - 1);
    }
  }

  /** New links only lengthen a walk. */
  lemma {:induction false} LongerWalk(ups: Ups, more: Ups, from: Node, k: nat)
    requires (forall n :: n in ups ==> n in more && more[n] == ups[n]) && Walk(ups, from, k).Some?
    ensures Walk(more, from, k) == Walk(ups, from, k)
  {
    if k > 0 {
      LongerWalk(ups, more, from, k - 1);
    }
  }

  lemma FewerLinksAcyclic(ups: Ups, more: Ups)
    requires (forall n :: n in ups ==> n in more && more[n] == ups[n]) && Acyclic(more)
    ensures Acyclic(ups)
  {
    forall n: Node, k: nat | k > 0 ensures !Meets(ups, n, n, k) {
      assert !Meets(more, n, n, k);
      if Walk(ups, n, k).Some? {
        LongerWalk(ups, more, n, k);
      }
    }
  }

  /** When every changed link lies on the chain of one node, that chain decides whether all stay acyclic. */
  lemma OneChainDecides(ups: Ups, now: Ups, first: Node)
    requires Acyclic(ups)
    requires forall n :: n in now && !(n in ups && ups[n] == now[n]) ==> exists j: nat :: Meets(now, first, n, j)
    ensures Ends(now, first) ==> Acyclic(now)
  {
    if Ends(now, first) {
      forall n: Node, k: nat | k > 0 ensures !Meets(now, n, n, k) {
        if Meets(now, n, n, k) {
          NewLinkOnCycle(ups, now, first, n, k);
        }
      }
    }
  }

  lemma NewLinkOnCycle(ups: Ups, now: Ups, first: Node, n: Node, k: nat)
    requires Acyclic(ups) && k > 0 && Meets(now, n, n, k)
    requires forall m :: m in now && !(m in ups && ups[m] == now[m]) ==> exists j: nat :: Meets(now, first, m, j)
    ensures !Ends(now, first)
  {
    if j: nat, m: Node :| j < k && Meets(now, n, m, j) && !(m in ups && m in now && ups[m] == now[m]) {
      OnTheWayRound(now, n, k, j);
      var i: nat :| Meets(now, first, m, i);
      CycleNeverEnds(now, first, i, m, k);
    } else {
      assert !Meets(ups, n, n, k);
      SameWalk(now, ups, n, k);
    }
  }

  /** Every node of a cycle is on it. */
  lemma OnTheWayRound(ups: Ups, n: Node, k: nat, j: nat)
    requires Meets(ups, n, n, k) && j < k
    ensures Walk(ups, n, j).Some?
    ensures Walk(ups, n, j).value in ups && Meets(ups, Walk(ups, n, j).value, Walk(ups, n, j).value, k)
  {
    if Walk(ups, n, j).None? {
      NothingAboveTheEnd(ups, n, j, k);
      assert false;
    }
    if Walk(ups, n, j + 1).None? {
      NothingAboveTheEnd(ups, n, j + 1, k);
      assert false;
    }
    WalkOn(ups, n, j, k);
    WalkOn(ups, n, k, j);
  }

  /** Without cycles every chain ends, in at most as many steps as there are links. */
  lemma {:induction false} AcyclicEnds(ups: Ups, from: Node)
    requires Acyclic(ups)
    ensures Walk(ups, from, |ups| + 1).None?
  {
    assert |ups.Keys| == |ups|;
    if Walk(ups, from, |ups| + 1).Some? {
      var met := Met(ups, from, |ups| + 1);
      assert |met| == |ups| + 1 by { AllDifferent(ups, from, |ups| + 1); }
      forall n | n in met ensures n in ups.Keys {
        var j: nat :| j < |ups| + 1 && Meets(ups, from, n, j);
        if Walk(ups, from, j + 1).None? {
          NothingAboveTheEnd(ups, from, j + 1, |ups| + 1);
          assert false;
        }
      }
      SubsetNoLarger(met, ups.Keys);
      assert false;
    }
  }

  ghost function Met(ups: Ups, from: Node, k: nat): (met: set<Node>)
    ensures forall n :: n in met <==> exists j: nat :: j < k && Meets(ups, from, n, j)
  {
    if k == 0 then {}
    else
      var rest := Met(ups, from, k - 1);
      assert forall n: Node, j: nat :: j < k && Meets(ups, from, n, j) ==> j < k - 1 || Walk(ups, from, k - 1) == Some(n);
      match Walk(ups, from, k - 1)
      case None => rest
      case Some(n) => assert Meets(ups, from, n, k - 1); rest + {n}
  }

  lemma {:induction false} AllDifferent(ups: Ups, from: Node, k: nat)
    requires Acyclic(ups) && Walk(ups, from, k).Some?
    ensures |Met(ups, from, k)| == k
  {
    if k > 0 {
      var last := Walk(ups, from, k - 1);
      AllDifferent(ups, from, k - 1);
      if last.value in Met(ups, from, k - 1) {
        var j: nat :| j < k - 1 && Meets(ups, from, last.value, j);
        SeenTwice(ups, from, j, k - 1);
        assert false;
      }
    }
  }
}

/** Every step of a run keeps the invariant. */
module ReplicaSteps {
  import opened Events
  import opened Traces
  import opened Replica
  import opened Orders
  import opened ReplicaRuns

  // --------------------------------------------------------------- the local command

  lemma PrefixIds(events: seq<Event>, n: nat)
    requires n <= |events|
    ensures Ids(events[..n]) <= Ids(events)
  {
    assert events == events[..n] + events[n..];
    IdsSplit(events[..n], events[n..]);
  }

  lemma CommitIsNew(w: World, batch: seq<Event>)
    requires Sound(w) && Fresh(w, batch)
    ensures New(w.Scene(), batch) && Ids(w.dev.log + batch) == Ids(w.dev.log) + Ids(batch)
    ensures DistinctIds(w.dev.log + batch) && SameIdSameEvent(w.dev.log + batch, w.server)
  {
    PrefixIds(w.server, w.Cursor());
    IdsSplit(w.dev.log, batch);
    AppendDistinct(w.dev.log, batch);
    forall p, i | 0 <= p < |w.dev.log + batch| && 0 <= i < |w.server| && (w.dev.log + batch)[p].id == w.server[i].id
      ensures (w.dev.log + batch)[p] == w.server[i]
    {
    }
  }

  lemma CommitKeeps(w: World, batch: seq<Event>)
    requires Inv(w) && Enabled(w, Commit(batch))
    ensures Inv(Do(w, Commit(batch)))
  {
    hide Ordered, Covered, Fold;
    var w' := Do(w, Commit(batch));
    var s, s' := w.Scene(), w'.Scene();
    CommitIsNew(w, batch);
    assert s' == s.(log := s.log + batch);
    assert batch[0].id in Ids(batch);
    assert w.Ahead() == w.trace && w'.Ahead() == w.trace + batch;
    assert RunningLogged(w') by { assert w'.dev.log[w'.at..w'.at + |batch|] == batch; }
    if Trusted(w') {
      assert w.dev.unprojected == {};
      LoggedKeepsOrder(s, w.trace, batch);
      CoveredLater(s, w.dev.orderedLocalSeq, w'.dev.log, w'.dev.orderedLocalSeq);
    }
  }

  lemma ProjectKeepsRunning(w: World)
    requires Sound(w) && RunningLogged(w) && w.done < |w.running|
    ensures Sound(Do(w, Project)) && RunningLogged(Do(w, Project))
    ensures Do(w, Project).Ahead() == w.Ahead() && Do(w, Project).Scene() == w.Scene()
    ensures w.at + w.done < |w.dev.log| && w.running[w.done] == w.dev.log[w.at + w.done]
    ensures w.Inflight() == w.dev.log[w.at + w.done..w.at + |w.running|]
  {
    hide Fold, Apply, DistinctIds, SameIdSameEvent;
    var w' := Do(w, Project);
    assert w.Inflight() == [w.running[w.done]] + w'.Inflight();
    assert w.Ahead() == w'.Ahead();
  }

  lemma RunningInLog(w: World)
    requires Sound(w) && RunningLogged(w)
    ensures DistinctIds(w.running)
    ensures forall b :: 0 <= b < |w.running| ==> w.running[b] in w.dev.log
  {
    forall a, b | 0 <= a < b < |w.running| ensures w.running[a].id != w.running[b].id {
      assert w.running[a] == w.dev.log[w.at + a] && w.running[b] == w.dev.log[w.at + b];
    }
  }

  lemma ProjectKeepsSettled(w: World)
    requires Sound(w) && RunningLogged(w) && Vouched(w) && Settled(w) && w.done < |w.running| && Sound(Do(w, Project))
    ensures Settled(Do(w, Project))
  {
    hide Fold, Apply, Before, Ordered, SameIdSameEvent;
    ProjectKeepsRunning(w);
    RerunKeepsOrder(w.Scene(), w.trace, w.Inflight(), w.Rerun());
    ProjectReverses(w);
  }

  lemma ProjectReverses(w: World)
    requires Sound(w) && RunningLogged(w) && Settled(w) && w.done < |w.running|
    ensures Reversed(w.trace + [w.running[w.done]], w.running, w.redo, w.done + 1)
  {
    hide Fold, Apply, Before, SameIdSameEvent;
    RunningInLog(w);
    forall b | 0 <= b < |w.running| ensures w.running[b] in w.trace {
      assert w.running[b] == w.dev.log[w.at + b];
    }
    RerunReverses(w.trace, w.running, w.redo, w.done);
  }

  lemma ProjectKeeps(w: World)
    requires Inv(w) && Enabled(w, Project)
    ensures Inv(Do(w, Project))
  {
    hide Settled, Apply, Ordered, Covered;
    ProjectKeepsRunning(w);
    if Trusted(w) {
      FoldAppend(w.trace, w.running[w.done]);
    }
    if w.dev.Verified() && w.dev.unprojected == {} {
      ProjectKeepsSettled(w);
    }
  }

  lemma FinishKeeps(w: World)
    requires Inv(w) && Enabled(w, Finish)
    ensures Inv(Do(w, Finish))
  {
    hide Ordered, Covered, Fold;
    var w' := Do(w, Finish);
    assert w.Inflight() == [] && w'.Inflight() == [];
    assert w.Ahead() == w.trace == w'.Ahead();
    assert w'.Scene() == w.Scene();
    assert Ids([]) == {};
    if w'.dev.Verified() && w'.dev.unprojected == {} {
      assert Trusted(w) by {
        forall id | id in w.dev.unprojected ensures id in Ids(w.running) {
          assert id !in w.dev.unprojected - Ids(w.running);
        }
      }
      SettledOrder(w.Scene(), w.trace, w'.Rerun());
    }
  }

  lemma SettledOrder(s: Scene, tr: seq<Event>, gap: Gap)
    requires Ordered(s, tr, NoGap)
    ensures Ordered(s, tr, gap)
  {
    hide Before, Owed;
    forall x, y | Owed(s, x, y) ensures Before(tr, x, y) {
      NoGapSpansNothing(s, x, y);
    }
  }

  /** A crash leaves the rows in order, or leaves something for the next sync to find. */
  lemma CrashKeeps(w: World)
    requires Inv(w) && Enabled(w, Crash)
    ensures Inv(Do(w, Crash))
  {
    hide Ordered, Covered, Fold;
    var w' := Do(w, Crash);
    assert w'.Ahead() == w.trace && w'.Scene() == w.Scene();
    if Trusted(w') {
      UntornOrder(w);
      SettledOrder(w.Scene(), w.trace, w'.Rerun());
    }
  }

  lemma SpannedIsTorn(w: World, x: Event, y: Event)
    requires w.base <= w.Cursor() <= |w.server|
    requires RunningLogged(w) && Spans(w.Scene(), w.Rerun(), x, y) && Owed(w.Scene(), x, y)
    ensures Torn(w)
  {
    hide Owed, Waits, RunningLogged;
    var s := w.Scene();
    var p, q :| 0 <= p < q < |s.log| && Across(w.Rerun(), p, q) && s.log[p] == x && s.log[q] == y;
    RunningAt(w, p);
    RunningAt(w, q);
  }

  lemma RunningAt(w: World, p: nat)
    requires w.Cursor() <= |w.server| && RunningLogged(w) && w.at <= p < w.at + |w.running|
    ensures p < |w.dev.log| && w.running[p - w.at] == w.dev.log[p]
  {
    hide Waits;
  }

  lemma UntornOrder(w: World)
    requires Sound(w) && RunningLogged(w) && Ordered(w.Scene(), w.trace, w.Rerun()) && !Torn(w)
    ensures Ordered(w.Scene(), w.trace, NoGap)
  {
    hide Before, Owed, Torn;
    var s := w.Scene();
    forall x, y | Owed(s, x, y) ensures Before(w.trace, x, y) {
      if Spans(s, w.Rerun(), x, y) {
        SpannedIsTorn(w, x, y);
      }
    }
  }

  // ----------------------------------------------------------------------- the server

  lemma ServerGrowsKeeps(w: World, e: Event)
    requires Inv(w) && e.id !in Ids(w.server)
    requires forall p :: 0 <= p < |w.dev.log| && w.dev.log[p].id == e.id ==> w.dev.log[p] == e
    ensures Inv(w.(server := w.server + [e]))
  {
    hide Ordered, Covered, Fold;
    var w' := w.(server := w.server + [e]);
    IdsOne(e);
    AppendDistinct(w.server, [e]);
    assert w'.server[..w.Cursor()] == w.server[..w.Cursor()];
    assert w'.Scene() == w.Scene() && w'.Ahead() == w.Ahead();
  }

  lemma ServerStepKeeps(w: World, step: Step)
    requires Inv(w) && Enabled(w, step) && (step.Push? || step.OtherWrite?)
    ensures Inv(Do(w, step))
  {
    match step
    case Push(p) => ServerGrowsKeeps(w, w.dev.log[p]);
    case OtherWrite(e) =>
      IdsOne(e);
      ServerGrowsKeeps(w, e);
  }

  // ------------------------------------------------------------------- one server event

  lemma NextWaits(w: World)
    requires Sound(w) && w.Cursor() < |w.server|
    ensures Waits(w.Scene(), w.server[w.Cursor()])
    ensures w.server[..w.Cursor() + 1] == w.server[..w.Cursor()] + [w.server[w.Cursor()]]
  {
    if !Waits(w.Scene(), w.server[w.Cursor()]) {
      var i := FromIds(w.server[..w.Cursor()], w.server[w.Cursor()].id);
    }
  }

  /** A logged event at or below the cursor changes nothing at all when it is delivered again. */
  lemma RedeliveredIsNothing(w: World, n: nat)
    requires Sound(w) && 1 <= n <= w.Cursor() && w.server[n - 1].id in Ids(w.dev.log)
    ensures Land(w.dev, Envelope(n, w.server[n - 1])) == w.dev
  {
    assert w.server[..w.Cursor()][n - 1] == w.server[n - 1];
    InIds(w.server[..w.Cursor()], w.server[n - 1]);
    assert w.dev.unechoed - {w.server[n - 1].id} == w.dev.unechoed;
  }

  ghost predicate Echoed(w: World, z: Event) {
    && Sound(w) && w.Cursor() < |w.server| && z == w.server[w.Cursor()]
    && z.id in Ids(w.dev.log)
  }

  lemma EchoKeepsSound(w: World, z: Event)
    requires Echoed(w, z)
    ensures var w' := Do(w, Deliver(w.Cursor() + 1));
            Sound(w') && w'.Scene() == w.Scene().(passed := w.Scene().passed + [z])
  {
    hide Overtaken;
    NextWaits(w);
    IdsAppend(w.server[..w.Cursor()], z);
  }

  lemma EchoKeepsCover(w: World, z: Event, p: nat)
    requires Echoed(w, z) && Covered(w.Scene(), w.dev.orderedLocalSeq) && Find(w.dev.log, z.id) == Some(p)
    ensures Covered(w.Scene().(passed := w.Scene().passed + [z]), Max(w.dev.orderedLocalSeq, p + 1))
  {
    var s, o := w.Scene(), Max(w.dev.orderedLocalSeq, p + 1);
    assert w.dev.log[p] == z;
    CoveredLater(s, w.dev.orderedLocalSeq, s.log, o);
    assert LoggedWithin(s.log, o, z);
    CoveredNext(s, o, z);
  }

  lemma EchoAt(w: World, z: Event) returns (p: nat)
    requires Echoed(w, z)
    ensures Find(w.dev.log, z.id) == Some(p) && w.dev.log[p] == z
  {
    hide Fold, Before, Overtaken, Enabled;
    p := Find(w.dev.log, z.id).value;
  }

  lemma EchoKeepsVouched(w: World, z: Event)
    requires Echoed(w, z) && RunningLogged(w) && Vouched(w)
    requires Sound(Do(w, Deliver(w.Cursor() + 1))) && Do(w, Deliver(w.Cursor() + 1)).dev.Verified()
    ensures Vouched(Do(w, Deliver(w.Cursor() + 1)))
  {
    hide Fold, Before, Overtaken, Ordered, Covered, DistinctIds, SameIdSameEvent;
    var p := EchoAt(w, z);
    NextWaits(w);
    WellFormedScene(w);
    EchoKeepsOrder(w.Scene(), w.Ahead(), NoGap, w.dev.unechoed, w.dev.orderedLocalSeq, p);
    EchoKeepsCover(w, z, p);
  }

  lemma EchoKeepsSettled(w: World, z: Event)
    requires Echoed(w, z) && RunningLogged(w) && Vouched(w) && Settled(w)
    requires Sound(Do(w, Deliver(w.Cursor() + 1))) && Do(w, Deliver(w.Cursor() + 1)).dev.Verified()
    ensures Settled(Do(w, Deliver(w.Cursor() + 1)))
  {
    hide Fold, Before, Overtaken, Ordered, Covered, DistinctIds, SameIdSameEvent, Reversed, RunningLogged;
    EchoKeepsSound(w, z);
    var p := EchoAt(w, z);
    NextWaits(w);
    WellFormedScene(w);
    EchoKeepsOrder(w.Scene(), w.trace, w.Rerun(), w.dev.unechoed, w.dev.orderedLocalSeq, p);
  }

  lemma EchoKeeps(w: World)
    requires Inv(w) && w.Cursor() < |w.server| && Enabled(w, Deliver(w.Cursor() + 1))
    requires w.server[w.Cursor()].id in Ids(w.dev.log)
    ensures Inv(Do(w, Deliver(w.Cursor() + 1)))
  {
    hide Vouched, Settled, Overtaken, Sound, RunningLogged;
    var z := w.server[w.Cursor()];
    var w' := Do(w, Deliver(w.Cursor() + 1));
    EchoKeepsSound(w, z);
    EchoKeepsRunning(w, z);
    if w'.dev.Verified() && Trusted(w) {
      EchoKeepsVouched(w, z);
      if w.dev.unprojected == {} {
        EchoKeepsSettled(w, z);
      }
    }
  }

  /** The cursor moves on by one event. */
  lemma RunningAcross(w: World, w': World)
    requires Sound(w) && RunningLogged(w) && w.Cursor() < |w.server|
    requires w'.running == w.running && w'.at == w.at && w'.redo == w.redo && w'.done == w.done
    requires w'.server == w.server && w'.Cursor() == w.Cursor() + 1
    requires w'.dev.log == w.dev.log || w'.dev.log == w.dev.log + [w.server[w.Cursor()]]
    ensures RunningLogged(w')
  {
    hide Ids, Fold, DistinctIds, SameIdSameEvent;
    NextWaits(w);
    IdsAppend(w.server[..w.Cursor()], w.server[w.Cursor()]);
    assert w.running != [] ==> w'.dev.log[w.at..w.at + |w.running|] == w.dev.log[w.at..w.at + |w.running|];
  }

  lemma EchoKeepsRunning(w: World, z: Event)
    requires Echoed(w, z) && RunningLogged(w)
    ensures RunningLogged(Do(w, Deliver(w.Cursor() + 1)))
  {
    hide Apply, Overtaken, Ids, Fold, DistinctIds, SameIdSameEvent;
    RunningAcross(w, Do(w, Deliver(w.Cursor() + 1)));
  }

  ghost predicate Unseen(w: World, r: Event) {
    && Sound(w) && w.Cursor() < |w.server| && r == w.server[w.Cursor()]
    && r.id !in Ids(w.dev.log)
  }

  lemma WellFormedScene(w: World)
    requires Sound(w)
    ensures WellFormed(w.Scene())
  {
  }

  lemma LandScene(w: World, r: Event)
    requires Unseen(w, r)
    ensures Do(w, Deliver(w.Cursor() + 1)).Scene() == Landed(w.Scene(), r)
  {
  }

  lemma LandKeepsSound(w: World, r: Event)
    requires Unseen(w, r)
    ensures Sound(Do(w, Deliver(w.Cursor() + 1)))
  {
    hide Fold, Apply, Overtaken;
    NextWaits(w);
    IdsAppend(w.server[..w.Cursor()], r);
    IdsAppend(w.dev.log, r);
    IdsOne(r);
    AppendDistinct(w.dev.log, [r]);
  }

  lemma LandKeepsVouched(w: World, r: Event)
    requires Unseen(w, r) && RunningLogged(w) && Vouched(w) && Sound(Do(w, Deliver(w.Cursor() + 1)))
    requires MakesWay(w.Scene(), w.Inflight(), r)
    ensures Vouched(Do(w, Deliver(w.Cursor() + 1)))
  {
    hide Before, Apply, Ordered, MakesWay;
    LandScene(w, r);
    var w' := Do(w, Deliver(w.Cursor() + 1));
    var s := w.Scene();
    NextWaits(w);
    LandedKeepsOrderIff(s, w.trace, w.Inflight(), r, NoGap);
    assert w'.Ahead() == w.trace + [r] + w.Inflight();
    FoldAppend(w.trace, r);
    CoveredLater(s, w.dev.orderedLocalSeq, w'.dev.log, w'.dev.orderedLocalSeq);
    assert w'.dev.log[|w.dev.log|] == r;
    assert LoggedWithin(w'.dev.log, w'.dev.orderedLocalSeq, r);
    CoveredNext(s.(log := w'.dev.log), w'.dev.orderedLocalSeq, r);
  }

  lemma LandKeepsSettled(w: World, r: Event)
    requires Unseen(w, r) && RunningLogged(w) && Settled(w) && Sound(Do(w, Deliver(w.Cursor() + 1)))
    ensures Settled(Do(w, Deliver(w.Cursor() + 1)))
  {
    hide Before, Apply, Fold, Ordered;
    LandScene(w, r);
    NextWaits(w);
    assert w.trace + [] == w.trace && w.trace + [r] + [] == w.trace + [r];
    RunningInLog(w);
    NotLogged(w.dev.log, r);
    LandingKeepsReversed(w.trace, w.running, w.redo, w.done, r);
    LandedKeepsOrderIff(w.Scene(), w.trace, [], r, w.Rerun());
  }

  lemma LandKeeps(w: World)
    requires Inv(w) && w.Cursor() < |w.server| && Enabled(w, Deliver(w.Cursor() + 1))
    requires w.server[w.Cursor()].id !in Ids(w.dev.log)
    ensures Inv(Do(w, Deliver(w.Cursor() + 1)))
  {
    hide Vouched, Settled, Sound, RunningLogged;
    var r := w.server[w.Cursor()];
    LandKeepsSound(w, r);
    LandKeepsRunning(w, r);
    if Trusted(w) {
      LandKeepsVouched(w, r);
    }
    if w.dev.Verified() && w.dev.unprojected == {} {
      LandKeepsSettled(w, r);
    }
  }

  lemma LandKeepsRunning(w: World, r: Event)
    requires Unseen(w, r) && RunningLogged(w)
    ensures RunningLogged(Do(w, Deliver(w.Cursor() + 1)))
  {
    hide Apply, Overtaken, Ids, Fold, DistinctIds, SameIdSameEvent;
    RunningAcross(w, Do(w, Deliver(w.Cursor() + 1)));
  }

  lemma DeliverKeeps(w: World, n: nat)
    requires Inv(w) && Enabled(w, Deliver(n))
    ensures Inv(Do(w, Deliver(n)))
  {
    hide Vouched, Settled, Land, RunningLogged, MakesWay, RunsOn, Torn;
    if n <= w.Cursor() {
      RedeliveredIsNothing(w, n);
      assert Do(w, Deliver(n)) == w;
    } else if w.server[n - 1].id in Ids(w.dev.log) {
      EchoKeeps(w);
    } else {
      LandKeeps(w);
    }
  }

  // ------------------------------------------------------------------ starts and repairs

  lemma NothingOrdered(s: Scene)
    requires s.passed == [] && s.log == [] && s.base == 0
    ensures Ordered(s, [], NoGap)
  {
  }

  lemma StartAtZeroKeeps(w: World)
    requires Inv(w) && Enabled(w, StartAtZero)
    ensures Inv(Do(w, StartAtZero))
  {
    hide Before, Fold, DistinctIds, SameIdSameEvent, Ordered, Related;
    var w' := Do(w, StartAtZero);
    RunningStays(w, w');
    assert w'.Scene() == w.Scene() && w'.Ahead() == w.Ahead();
    if !w.dev.Verified() {
      NothingOrdered(w.Scene());
      EmptyRepair(w.server);
      assert w.running == [] && w'.Ahead() == [];
      SettledOrder(w.Scene(), [], w'.Rerun());
    }
  }

  lemma BaselineOrdered(server: seq<Event>, k: nat)
    requires DistinctIds(server) && k <= |server|
    ensures Ordered(Scene(server[..k], k, []), server[..k], NoGap)
  {
    hide Before, Related;
    var s := Scene(server[..k], k, []);
    forall x, y | Owed(s, x, y) ensures Before(server[..k], x, y) {
      var i, j :| 0 <= i < j < |s.passed| && s.passed[i] == x && s.passed[j] == y;
      BeforeByIndex(server[..k], i, j);
    }
  }

  lemma StartOnSnapshotKeeps(w: World, k: nat)
    requires Inv(w) && Enabled(w, StartOnSnapshot(k))
    ensures Inv(Do(w, StartOnSnapshot(k)))
  {
    var w' := Do(w, StartOnSnapshot(k));
    assert w.running == [];
    assert map[] + Fold(w.server[..k]) == Fold(w.server[..k]);
    BaselineOrdered(w.server, k);
    assert w'.Ahead() == w'.trace;
    SettledOrder(w'.Scene(), w'.trace, w'.Rerun());
  }

  lemma RestIsRest(w: World)
    requires Sound(w) && RunningLogged(w)
    ensures exists lo, hi :: IsRest(w.Scene(), w.Inflight(), lo, hi)
    ensures IsRest(w.Scene(), [], |w.dev.log|, |w.dev.log|)
  {
    if w.running == [] {
      assert IsRest(w.Scene(), w.Inflight(), |w.dev.log|, |w.dev.log|);
    } else {
      assert w.Inflight() == w.dev.log[w.at + w.done..w.at + |w.running|];
      assert IsRest(w.Scene(), w.Inflight(), w.at + w.done, w.at + |w.running|);
    }
  }

  lemma RunningStays(w: World, w': World)
    requires Sound(w) && RunningLogged(w)
    requires w'.running == w.running && w'.at == w.at && w'.done == w.done && w'.redo <= w'.done
    requires w.running == [] ==> w'.redo == 0
    requires w'.dev.log == w.dev.log && w'.Cursor() == w.Cursor() && w'.server == w.server
    ensures RunningLogged(w') && w'.Inflight() == w.Inflight()
  {
    assert w'.Scene() == w.Scene().(base := w'.base);
    assert forall e :: Waits(w'.Scene(), e) == Waits(w.Scene(), e);
  }

  lemma RepairKeepsSound(w: World, readAt: nat)
    requires Sound(w) && RunningLogged(w) && CanHappen(w, Repair(readAt)) && !w.dev.Verified()
    ensures Sound(Do(w, Repair(readAt))) && RunningLogged(Do(w, Repair(readAt)))
    ensures Do(w, Repair(readAt)).dev.Verified() ==> readAt == w.Cursor()
    ensures Do(w, Repair(readAt)).Scene() == w.Scene().(base := readAt)
    ensures Do(w, Repair(readAt)).Inflight() == w.Inflight()
  {
    hide Fold, RepairTrace;
    var w' := Do(w, Repair(readAt));
    assert w'.Cursor() == w.Cursor();
    RunningStays(w, w');
    if w.dev.log == [] && w.Cursor() == 0 {
      EmptyRepair(w.server);
    }
  }

  lemma EmptyRepair(server: seq<Event>)
    ensures RepairTrace(server, 0, []) == [] && Fold([]) == map[]
  {
  }

  lemma RepairVouches(w: World, readAt: nat)
    requires Sound(w) && RunningLogged(w) && CanHappen(w, Repair(readAt)) && !w.dev.Verified()
    requires var w' := Do(w, Repair(readAt)); Sound(w') && RunningLogged(w') && w'.dev.Verified()
    ensures var w' := Do(w, Repair(readAt)); Vouched(w') <==> RunsOn(w'.Scene(), w.Inflight())
  {
    hide Before, Fold, Ordered, Apply, RunsOn;
    var w' := Do(w, Repair(readAt));
    var s := w'.Scene();
    RepairKeepsSound(w, readAt);
    RestIsRest(w);
    var lo, hi :| IsRest(w.Scene(), w.Inflight(), lo, hi);
    assert IsRest(s, w.Inflight(), lo, hi);
    hide IsRest, RunningLogged;
    RepairOrdersIff(s, w.Inflight(), lo, hi);
    assert w'.Ahead() == RepairRun(s, w.Inflight());
  }

  lemma RepairSettles(w: World, readAt: nat)
    requires Sound(w) && RunningLogged(w) && CanHappen(w, Repair(readAt)) && !w.dev.Verified()
    requires var w' := Do(w, Repair(readAt)); Sound(w') && RunningLogged(w') && w'.dev.Verified()
    ensures Settled(Do(w, Repair(readAt)))
  {
    hide Before, Fold, Ordered, Apply, RunningLogged;
    var w' := Do(w, Repair(readAt));
    var s := w'.Scene();
    RepairKeepsSound(w, readAt);
    RestIsRest(w);
    assert IsRest(s, [], |s.log|, |s.log|);
    hide IsRest;
    RepairOrdersIff(s, [], |s.log|, |s.log|);
    assert w'.trace == RepairRun(s, []);
    SettledOrder(s, w'.trace, w'.Rerun());
  }

  /** A repair whose cursor nothing moved puts every event in its place, and keeps a command that is still
      running in its place too. */
  lemma RepairKeeps(w: World, readAt: nat)
    requires Inv(w) && Enabled(w, Repair(readAt)) && !w.dev.Verified()
    ensures Inv(Do(w, Repair(readAt)))
  {
    hide Sound, RunningLogged, Vouched, Settled, RunsOn;
    RepairKeepsSound(w, readAt);
    if Do(w, Repair(readAt)).dev.Verified() {
      RepairVouches(w, readAt);
      RepairSettles(w, readAt);
    }
  }

  lemma CheckKeeps(w: World)
    requires Inv(w)
    ensures Inv(Do(w, Check))
  {
    hide Ordered, Covered, Fold;
    var w' := Do(w, Check);
    assert w'.Scene() == w.Scene();
    RunningStays(w, w');
    if w'.dev.Verified() {
      assert w' == w;
    }
  }

  lemma StepKeepsInv(w: World, step: Step)
    requires Inv(w) && Enabled(w, step)
    ensures Inv(Do(w, step))
  {
    hide Inv, Land, Rebuild;
    match step
    case Commit(batch) => CommitKeeps(w, batch);
    case Project => ProjectKeeps(w);
    case Finish => FinishKeeps(w);
    case Crash => CrashKeeps(w);
    case Push(_) => ServerStepKeeps(w, step);
    case OtherWrite(_) => ServerStepKeeps(w, step);
    case Deliver(n) => DeliverKeeps(w, n);
    case Check => CheckKeeps(w);
    case StartAtZero => StartAtZeroKeeps(w);
    case StartOnSnapshot(k) => StartOnSnapshotKeeps(w, k);
    case Repair(readAt) => if !w.dev.Verified() { RepairKeeps(w, readAt); }
  }

  lemma {:induction false} RunKeepsInv(w: World, steps: seq<Step>)
    requires Inv(w) && Possible(w, steps)
    ensures Inv(Run(w, steps))
    decreases |steps|
  {
    if steps != [] {
      StepKeepsInv(w, steps[0]);
      RunKeepsInv(Do(w, steps[0]), steps[1..]);
    }
  }
}

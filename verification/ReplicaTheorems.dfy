/** What every run of a replica ends with. */
module ReplicaTheorems {
  import opened Events
  import opened Traces
  import opened Replica
  import opened Orders
  import opened ReplicaRuns
  import opened ReplicaSteps

  // ------------------------------------------------------------------- order soundness

  /** In every reachable state whose flags are all on, with nothing a stopped command left unprojected, the rows
      are the replay of an order in which any two events of the server on one task or project, both at or below the
      cursor, stand as they stand on the server; and so do any two that clash on a row without sharing a subject,
      unless the device logged them the other way round. What a running command has yet to project takes its place
      when the command is through. */
  lemma OrderSoundness(start: World, steps: seq<Step>)
    requires Start(start) && Possible(start, steps) && Trusted(Run(start, steps))
    ensures
      var w := Run(start, steps);
      && w.Cursor() <= |w.server| && w.done <= |w.running| && w.dev.rows == Fold(w.trace)
      && forall i, j | 0 <= i < j < w.Cursor() &&
           (SameSubject(w.server[i], w.server[j])
            || (Clash(w.server[i], w.server[j]) && !Inverted(w.Scene(), w.server[i], w.server[j]))) ::
           && Before(w.Ahead(), w.server[i], w.server[j])
           && (w.server[i] !in w.Inflight() && w.server[j] !in w.Inflight() ==>
                 Before(w.trace, w.server[i], w.server[j]))
  {
    hide Before, Clash, Settled;
    var w := Run(start, steps);
    StartGivesInv(start);
    RunKeepsInv(start, steps);
    forall i, j | 0 <= i < j < w.Cursor() &&
        (SameSubject(w.server[i], w.server[j])
         || (Clash(w.server[i], w.server[j]) && !Inverted(w.Scene(), w.server[i], w.server[j])))
      ensures Before(w.Ahead(), w.server[i], w.server[j])
      ensures w.server[i] !in w.Inflight() && w.server[j] !in w.Inflight() ==> Before(w.trace, w.server[i], w.server[j])
    {
      PassedBefore(w, i, j);
    }
  }

  lemma PassedBefore(w: World, i: nat, j: nat)
    requires Sound(w) && RunningLogged(w) && Vouched(w) && i < j < w.Cursor()
    requires Related(w.server[i], w.server[j]) && !Inverted(w.Scene(), w.server[i], w.server[j])
    ensures Before(w.Ahead(), w.server[i], w.server[j])
    ensures w.server[i] !in w.Inflight() && w.server[j] !in w.Inflight() ==> Before(w.trace, w.server[i], w.server[j])
  {
    hide Before, Related, Inverted, Fold, Covered;
    var s := w.Scene();
    assert s.passed[i] == w.server[i] && s.passed[j] == w.server[j];
    assert PassedFirst(s, w.server[i], w.server[j]);
    NoGapSpansNothing(s, w.server[i], w.server[j]);
    if w.server[i] !in w.Inflight() && w.server[j] !in w.Inflight() {
      BeforeUntouched(w.trace, w.Inflight(), w.server[i], w.server[j]);
    }
  }

  // ----------------------------------------------------------------------- convergence

  /** Every event the rows can come from. */
  function Met(w: World): set<Event>
    requires w.Cursor() <= |w.server|
  {
    (set e | e in w.dev.log) + (set e | e in w.server[..w.Cursor()])
  }

  /** Nothing that can do anything to this row is still to be passed or to be projected, and nothing that clashes on
      it was logged the other way round. */
  ghost predicate RowSettled(w: World, key: Key)
    requires w.Cursor() <= |w.server| && w.done <= |w.running|
  {
    && (forall e | e in w.dev.log && Fires(e, key, Met(w)) :: !Waits(w.Scene(), e))
    && (forall e | e in w.Inflight() :: !Fires(e, key, Met(w)))
    && (forall x, y :: PassedFirst(w.Scene(), x, y) && Inverted(w.Scene(), x, y) ==> CommuteOn(x, y, key))
  }

  lemma LoggedAndPassed(w: World, e: Event)
    requires Sound(w) && e in w.dev.log && !Waits(w.Scene(), e)
    ensures e in w.server[..w.Cursor()]
  {
    hide Fold;
    var i := FromIds(w.server[..w.Cursor()], e.id);
    var p :| 0 <= p < |w.dev.log| && w.dev.log[p] == e;
    assert w.server[i] == w.server[..w.Cursor()][i];
  }

  lemma RanIsMet(w: World, e: Event)
    requires Sound(w) && RunningLogged(w) && Vouched(w) && e in w.trace
    ensures e in w.dev.log || e in w.server[..w.Cursor()]
  {
    hide Before, Fold, Covered, Owed;
    assert e in w.Ahead();
  }

  lemma RanWhatPassed(w: World, key: Key, e: Event)
    requires Sound(w) && RunningLogged(w) && Vouched(w) && RowSettled(w, key) && Fires(e, key, Met(w))
    ensures e in w.trace <==> e in w.server[..w.Cursor()]
  {
    hide Before, Fold, Covered, Fires, Owed, Inverted;
    if e in w.server[..w.Cursor()] {
      assert e in w.Ahead();
      assert e !in w.Inflight();
    }
    if e in w.trace {
      RanIsMet(w, e);
      if e in w.dev.log {
        LoggedAndPassed(w, e);
      }
    }
  }

  /** Of two events that clash on a settled row, neither is still to be projected. */
  lemma ClashesAreDone(w: World, key: Key, x: Event, y: Event)
    requires w.Cursor() <= |w.server| && w.done <= |w.running| && RowSettled(w, key)
    requires !CommuteOn(x, y, key) && x in Met(w) && y in Met(w)
    ensures x !in w.Inflight() && y !in w.Inflight()
  {
    hide Fires, AfterEvent, Waits;
    if x in w.Inflight() {
      IdleCommutes(x, y, key, Met(w));
    }
    if y in w.Inflight() {
      IdleCommutes(y, x, key, Met(w));
    }
  }

  lemma KeepsPassedOrder(w: World, key: Key, x: Event, y: Event)
    requires Sound(w) && RunningLogged(w) && Vouched(w) && RowSettled(w, key)
    requires !CommuteOn(x, y, key) && Before(w.server[..w.Cursor()], x, y) && x in w.trace && y in w.trace
    ensures Before(w.trace, x, y)
  {
    hide Before, Fold, Covered, Fires, CommuteOn, Inverted;
    RanIsMet(w, x);
    RanIsMet(w, y);
    ClashesAreDone(w, key, x, y);
    var passed := w.server[..w.Cursor()];
    BeforeMembers(passed, x, y);
    var i :| 0 <= i < |passed| && passed[i] == x;
    var j :| 0 <= j < |passed| && passed[j] == y;
    IndexByBefore(passed, i, j);
    assert PassedFirst(w.Scene(), x, y);
    assert Clash(x, y);
    PassedBefore(w, i, j);
  }

  /** Row by row, without waiting for the rest of the device to come to rest: a row nothing local is still pending
      on holds what the server's log up to the cursor says. */
  lemma RowFollowsServer(w: World, key: Key)
    requires Inv(w) && Trusted(w) && RowSettled(w, key)
    ensures Row(w.dev.rows, key) == Row(Fold(w.server[..w.Cursor()]), key)
  {
    hide Before, Settled, Fires, CommuteOn, Covered, AfterEvent, RowSettled;
    var passed := w.server[..w.Cursor()];
    RowAgrees(w, key);
    SameOrderSameRow(w.trace, passed, key, Met(w));
    FoldIsRowwise(w.trace, key);
    FoldIsRowwise(passed, key);
  }

  lemma RowAgrees(w: World, key: Key)
    requires Sound(w) && RunningLogged(w) && Vouched(w) && RowSettled(w, key)
    ensures AgreeOn(w.trace, w.server[..w.Cursor()], key, Met(w))
  {
    hide Before, Fires, CommuteOn, Vouched, Fold;
    var passed := w.server[..w.Cursor()];
    forall e | e in w.trace ensures e in Met(w) {
      RanIsMet(w, e);
    }
    forall e | Fires(e, key, Met(w)) ensures e in w.trace <==> e in passed {
      RanWhatPassed(w, key, e);
    }
    forall x, y | !CommuteOn(x, y, key) && Before(passed, x, y) && x in w.trace && y in w.trace ensures Before(w.trace, x, y) {
      KeepsPassedOrder(w, key, x, y);
    }
  }

  /** No two events that clash without sharing a subject were passed in one order since the last baseline and logged
      in the other. */
  ghost predicate NothingInverted(s: Scene) {
    forall x, y :: PassedFirst(s, x, y) && Inverted(s, x, y) ==> !Clash(x, y)
  }

  lemma ConvergedState(w: World)
    requires Inv(w) && Trusted(w) && w.done == |w.running| && NothingInverted(w.Scene())
    requires w.Cursor() == |w.server| && Ids(w.dev.log) <= Ids(w.server)
    ensures w.dev.rows == Fold(w.server)
  {
    hide Fires, Before, Settled, Vouched, Inverted, PassedFirst;
    assert w.server[..w.Cursor()] == w.server;
    forall key ensures Row(w.dev.rows, key) == Row(Fold(w.server), key) {
      forall e | e in w.dev.log ensures !Waits(w.Scene(), e) {
        InIds(w.dev.log, e);
      }
      assert w.Inflight() == [];
      RowFollowsServer(w, key);
    }
    RowsEqual(w.dev.rows, Fold(w.server));
  }

  /** A trusted replica at the tip of its server's log, with nothing of its own the server lacks or the rows lack,
      holds the plain replay of that log, unless it logged two clashing events of different subjects the other way
      round since its last baseline. */
  lemma Convergence(start: World, steps: seq<Step>)
    requires Start(start) && Possible(start, steps)
    requires var w := Run(start, steps);
             && Trusted(w) && w.done == |w.running| && w.Cursor() == |w.server| && Ids(w.dev.log) <= Ids(w.server)
             && NothingInverted(w.Scene())
    ensures var w := Run(start, steps); w.dev.rows == Fold(w.server)
  {
    StartGivesInv(start);
    RunKeepsInv(start, steps);
    ConvergedState(Run(start, steps));
  }

  /** Only a split and a create whose slug is taken can be so inverted: where every event keeps to the rows of the
      subject it names and no two projects share a slug, nothing is. */
  lemma KeyedNeverInverted(s: Scene)
    requires forall e | e in s.passed :: Keyed(e)
    requires forall x, y | x in s.passed && y in s.passed :: !SlugTaken(x, y)
    ensures NothingInverted(s)
  {
    hide Clash;
    forall x, y | PassedFirst(s, x, y) && Inverted(s, x, y) ensures !Clash(x, y) {
      UnrelatedClashIffSlugTaken(x, y);
    }
  }

  // --------------------------------------------------------- what a stop can leave behind

  /** After any stop whatever, between a commit and its projectors or between two transactions of a sync, either the
      replica shows that it needs repair, or its rows are sound. */
  lemma CrashSafety(start: World, steps: seq<Step>)
    requires Start(start) && Possible(start, steps) && Enabled(Run(start, steps), Crash)
    ensures
      var w := Do(Run(start, steps), Crash);
      || !w.dev.Verified()
      || w.dev.unprojected != {}
      || (w.Cursor() <= |w.server| && w.base <= w.Cursor() && w.dev.rows == Fold(w.trace)
          && Ordered(w.Scene(), w.trace, NoGap))
  {
    hide Ordered, Fold, Covered;
    StartGivesInv(start);
    RunKeepsInv(start, steps);
    StepKeepsInv(Run(start, steps), Crash);
    var w := Do(Run(start, steps), Crash);
    assert w.Ahead() == w.trace;
  }

  // ------------------------------------------------------------------ exactly-once effect

  function Deliveries(ns: seq<nat>): seq<Step> {
    seq(|ns|, i requires 0 <= i < |ns| => Deliver(ns[i]))
  }

  /** The deliveries that take the cursor from `from` to `upTo`, each once and in order. */
  function Straight(from: nat, upTo: nat): seq<nat>
    requires from <= upTo
  {
    seq(upTo - from, i => from + i + 1)
  }

  /** What is delivered at or below the cursor is in the log. */
  ghost predicate KnownAgain(w: World, ns: seq<nat>) {
    forall n | n in ns && 1 <= n <= w.Cursor() && n <= |w.server| :: w.server[n - 1].id in Ids(w.dev.log)
  }

  lemma DeliverOne(w: World, n: nat)
    requires Sound(w) && CanHappen(w, Deliver(n)) && KnownAgain(w, [n])
    ensures var w' := Do(w, Deliver(n));
            && Sound(w') && w'.server == w.server && Ids(w.dev.log) <= Ids(w'.dev.log)
            && if n <= w.Cursor() then w' == w else w'.Cursor() == n == w.Cursor() + 1 && w.server[n - 1].id in Ids(w'.dev.log)
  {
    hide Fold, Apply, Overtaken, DistinctIds, SameIdSameEvent, Waits;
    assert n in [n];
    var e := w.server[n - 1];
    if n <= w.Cursor() {
      RedeliveredIsNothing(w, n);
    } else if e.id in Ids(w.dev.log) {
      EchoKeepsSound(w, e);
    } else {
      LandKeepsSound(w, e);
      IdsAppend(w.dev.log, e);
    }
  }

  lemma KnownLater(w: World, n: nat, ns: seq<nat>)
    requires Sound(w) && CanHappen(w, Deliver(n)) && KnownAgain(w, [n] + ns)
    ensures KnownAgain(w, [n]) && KnownAgain(Do(w, Deliver(n)), ns)
  {
    hide Sound, Do;
    assert forall k :: k in [n] || k in ns ==> k in [n] + ns;
    DeliverOne(w, n);
    forall k | k in ns && 1 <= k <= Do(w, Deliver(n)).Cursor() && k <= |w.server|
      ensures w.server[k - 1].id in Ids(Do(w, Deliver(n)).dev.log)
    {
      assert k <= w.Cursor() || k == n;
    }
  }

  /** However pages overlap, repeat or come late, they leave what each event delivered once and in order leaves, and
      the cursor never goes back. */
  lemma {:induction false} PagesCollapse(w: World, ns: seq<nat>)
    requires Sound(w) && Happens(w, Deliveries(ns)) && KnownAgain(w, ns)
    ensures var w' := Outcome(w, Deliveries(ns));
            && w.Cursor() <= w'.Cursor()
            && Happens(w, Deliveries(Straight(w.Cursor(), w'.Cursor())))
            && Outcome(w, Deliveries(Straight(w.Cursor(), w'.Cursor()))) == w'
    decreases |ns|
  {
    hide Sound, Do, CanHappen, KnownAgain;
    if ns == [] {
      assert Straight(w.Cursor(), w.Cursor()) == [];
    } else {
      var w' := Do(w, Deliver(ns[0]));
      assert Deliveries(ns)[0] == Deliver(ns[0]) && Deliveries(ns)[1..] == Deliveries(ns[1..]);
      assert ns == [ns[0]] + ns[1..];
      KnownLater(w, ns[0], ns[1..]);
      DeliverOne(w, ns[0]);
      PagesCollapse(w', ns[1..]);
      var end := Outcome(w, Deliveries(ns)).Cursor();
      if w' != w {
        var all := Straight(w.Cursor(), end);
        assert all[0] == ns[0] && all[1..] == Straight(w'.Cursor(), end);
        assert Deliveries(all)[0] == Deliver(ns[0]) && Deliveries(all)[1..] == Deliveries(all[1..]);
      }
    }
  }

  /** Delivering an event at or below the cursor again changes nothing exactly when it is in the log. */
  lemma RedeliveryIsHarmlessIffLogged(w: World, n: nat)
    requires Sound(w) && 1 <= n <= w.Cursor()
    ensures Land(w.dev, Envelope(n, w.server[n - 1])) == w.dev <==> w.server[n - 1].id in Ids(w.dev.log)
  {
    if w.server[n - 1].id in Ids(w.dev.log) {
      RedeliveredIsNothing(w, n);
    } else {
      assert |Land(w.dev, Envelope(n, w.server[n - 1])).log| == |w.dev.log| + 1;
    }
  }

  // ---------------------------------------------------------------------- a whole repair

  /** The order a repair replays: the server's events up to the cursor it read, as they stand there, then
      every other logged event as they stand in the log, each once. */
  lemma RepairReplaysEachOnce(server: seq<Event>, cursor: nat, log: seq<Event>)
    requires DistinctIds(server) && DistinctIds(log) && SameIdSameEvent(log, server) && cursor <= |server|
    ensures var tr := RepairTrace(server, cursor, log);
            && DistinctIds(tr) && server[..cursor] <= tr
            && (forall x :: x in tr <==> x in server[..cursor] || x in log)
            && (forall p, q | 0 <= p < q < |log| && log[q].id !in Ids(server[..cursor]) :: Before(tr, log[p], log[q]))
  {
    var s := Scene(server[..cursor], cursor, log);
    var tr := RepairTrace(server, cursor, log);
    assert tr == RepairRun(s, []);
    RepairComplete(s, []);
    LocalOnlyDistinct(log, Ids(s.passed));
    AppendDistinct(s.passed, LocalOnly(log, Ids(s.passed)));
    forall p, q | 0 <= p < q < |log| && log[q].id !in Ids(server[..cursor]) ensures Before(tr, log[p], log[q]) {
      RepairLogOrder(s, p, q);
    }
  }

  lemma {:induction false} LocalOnlyDistinct(log: seq<Event>, ids: set<EventId>)
    requires DistinctIds(log)
    ensures DistinctIds(LocalOnly(log, ids)) && Ids(LocalOnly(log, ids)) !! ids
  {
    if log != [] {
      var init, last := log[..|log| - 1], log[|log| - 1];
      var kept := LocalOnly(init, ids);
      LocalOnlyDistinct(init, ids);
      if last.id in ids {
        assert kept + [] == kept;
      } else {
        IdsOne(last);
        IdsAppend(kept, last);
        forall i | 0 <= i < |kept| ensures kept[i].id != last.id {
          LocalOnlyMembers(init, ids, kept[i]);
          var j :| 0 <= j < |init| && init[j] == kept[i];
          assert log[j] == kept[i];
        }
        AppendDistinct(kept, [last]);
      }
    }
  }

  // -------------------------------------------------------------------- a whole catch-up

  lemma {:induction false} RunBoth(w: World, a: seq<Step>, b: seq<Step>)
    requires Possible(w, a) && Possible(Run(w, a), b)
    ensures Possible(w, a + b) && Run(w, a + b) == Run(Run(w, a), b)
    decreases |a|
  {
    hide CanHappen, Orderly, Do;
    if a == [] {
      assert a + b == b;
    } else {
      assert Possible(Do(w, a[0]), a[1..]);
      RunBoth(Do(w, a[0]), a[1..], b);
      assert (a + b)[1..] == a[1..] + b;
    }
  }

  lemma RunOne(w: World, step: Step)
    requires Enabled(w, step)
    ensures Possible(w, [step]) && Run(w, [step]) == Do(w, step)
  {
    assert [step][1..] == [];
  }

  /** A sync of a device that is running no command, against a server that stands still. */
  ghost predicate Calm(w: World) { Inv(w) && w.running == [] }

  ghost predicate ReachedBy(w: World, w': World, steps: seq<Step>) {
    Possible(w, steps) && Run(w, steps) == w' && Calm(w') && w'.server == w.server
  }

  lemma ReachOne(w: World, step: Step)
    requires Calm(w) && Enabled(w, step) && !step.Commit? && !step.Push? && !step.OtherWrite?
    ensures ReachedBy(w, Do(w, step), [step])
  {
    RunOne(w, step);
    StepKeepsInv(w, step);
  }

  lemma ReachBoth(w: World, w1: World, w2: World, a: seq<Step>, b: seq<Step>)
    requires ReachedBy(w, w1, a) && ReachedBy(w1, w2, b)
    ensures ReachedBy(w, w2, a + b)
  {
    RunBoth(w, a, b);
  }

  lemma ReachNext(w: World)
    requires Calm(w) && w.Cursor() < |w.server|
    ensures var n := w.Cursor() + 1;
            CanHappen(w, Deliver(n)) && ReachedBy(w, Do(w, Deliver(n)), [Deliver(n)])
            && Do(w, Deliver(n)).dev == Land(w.dev, Envelope(n, w.server[n - 1])) && Do(w, Deliver(n)).Cursor() == n
  {
    hide Vouched, Settled, Sound, Overtaken, Apply;
    NextIsEnabled(w);
    ReachOne(w, Deliver(w.Cursor() + 1));
  }

  lemma NextIsEnabled(w: World)
    requires Calm(w) && w.Cursor() < |w.server|
    ensures Enabled(w, Deliver(w.Cursor() + 1))
  {
    hide Vouched, Settled;
    assert w.Inflight() == [];
  }

  /** The page of a sync, one transaction per event. */
  lemma {:induction false} ReachDelivered(w: World, upTo: nat) returns (w': World)
    requires Calm(w) && w.Cursor() <= upTo <= |w.server|
    ensures ReachedBy(w, w', Deliveries(Straight(w.Cursor(), upTo)))
    ensures w'.Cursor() == upTo
    ensures w'.dev == LandAll(w.dev, PageOf(w.server, w.Cursor(), upTo - w.Cursor()))
    decreases upTo
  {
    hide Inv, Land, LandAll, PageOf, CanHappen, Do, Calm, ReachedBy;
    if upTo == w.Cursor() {
      w' := w;
      ReachNowhere(w);
    } else {
      var w1 := ReachDelivered(w, upTo - 1);
      ReachedStands(w, w1, Deliveries(Straight(w.Cursor(), upTo - 1)));
      ReachNext(w1);
      w' := Do(w1, Deliver(upTo));
      var before, after := Straight(w.Cursor(), upTo - 1), Straight(w.Cursor(), upTo);
      assert Deliveries(after) == Deliveries(before) + [Deliver(upTo)];
      ReachBoth(w, w1, w', Deliveries(before), [Deliver(upTo)]);
      LandOneMore(w.dev, w.server, w.Cursor(), upTo);
    }
  }

  lemma ReachNowhere(w: World)
    requires Calm(w)
    ensures ReachedBy(w, w, Deliveries(Straight(w.Cursor(), w.Cursor())))
    ensures w.dev == LandAll(w.dev, PageOf(w.server, w.Cursor(), 0))
  {
    hide Calm;
    assert Deliveries(Straight(w.Cursor(), w.Cursor())) == [];
    assert PageOf(w.server, w.Cursor(), 0) == [];
  }

  lemma ReachedStands(w: World, w': World, steps: seq<Step>)
    requires ReachedBy(w, w', steps)
    ensures Calm(w') && w'.server == w.server
  {
  }

  /** A snapshot the server may hand out: rows of a replay of its log, and never over a log of one's own. */
  ghost predicate Serves(w: World, snapshot: Option<Snapshot>) {
    snapshot.Some? && snapshot.value.consistent ==>
      && snapshot.value.seq_ <= |w.server| && snapshot.value.rows == Fold(w.server[..snapshot.value.seq_])
      && (w.Cursor() == 0 ==> w.dev.log == [])
  }

  lemma ReachOpened(w: World, snapshot: Option<Snapshot>) returns (w': World, steps: seq<Step>)
    requires Calm(w) && Serves(w, snapshot)
    ensures ReachedBy(w, w', steps) && w'.dev == Opened(w.dev, w.server, snapshot)
    ensures w'.dev.Verified() && w'.dev.unprojected == {}
  {
    ReachOne(w, Check);
    var w1, w2 := Do(w, Check), Do(w, Check);
    steps := [Check];
    if NeedsRepair(w1.dev) {
      ReachOne(w1, Repair(w1.Cursor()));
      w2 := Do(w1, Repair(w1.Cursor()));
      ReachBoth(w, w1, w2, steps, [Repair(w1.Cursor())]);
      steps := steps + [Repair(w1.Cursor())];
    } else {
      assert w1.dev.Verified() || w1.dev.log == [];
      assert w1.dev.unprojected == {} by {
        if !w1.dev.Verified() {
          assert Ids(w1.dev.log) == {};
        }
      }
    }
    assert w2.dev == Repaired(w1.dev, w.server);
    w' := w2;
    if w2.Cursor() == 0 {
      var first := StartAtZero;
      if snapshot.Some? && snapshot.value.consistent {
        first := StartOnSnapshot(snapshot.value.seq_);
        assert w2.dev.rows + snapshot.value.rows == snapshot.value.rows;
      }
      ReachOne(w2, first);
      w' := Do(w2, first);
      ReachBoth(w, w2, w', steps, [first]);
      steps := steps + [first];
    }
  }

  /** An uninterrupted sync without errors is a run, and it ends verified with nothing unprojected, whatever
      state of the replica it started from. */
  lemma CatchUpRepairs(w: World, snapshot: Option<Snapshot>, limit: nat) returns (w': World, steps: seq<Step>)
    requires Calm(w) && Serves(w, snapshot)
    ensures ReachedBy(w, w', steps)
    ensures w'.dev == CaughtUp(w.dev, w.server, snapshot, limit)
    ensures w'.dev.Verified() && w'.dev.unprojected == {}
  {
    var w1, steps1 := ReachOpened(w, snapshot);
    var upTo := if w1.Cursor() < |w.server| then w1.Cursor() + Min(limit, |w.server| - w1.Cursor()) else w1.Cursor();
    var w2 := ReachDelivered(w1, upTo);
    assert PageOf(w.server, w1.Cursor(), upTo - w1.Cursor()) == PageOf(w.server, w1.Cursor(), limit);
    var delivered := Deliveries(Straight(w1.Cursor(), upTo));
    ReachBoth(w, w1, w2, steps1, delivered);
    steps := steps1 + delivered;
    w' := w2;
    LandingProjectsAll(w1.dev, PageOf(w.server, w1.Cursor(), limit));
    if !w2.dev.Verified() {
      ReachOne(w2, Repair(w2.Cursor()));
      w' := Do(w2, Repair(w2.Cursor()));
      ReachBoth(w, w2, w', steps, [Repair(w2.Cursor())]);
      steps := steps + [Repair(w2.Cursor())];
    }
  }

  lemma {:induction false} LandingProjectsAll(st: ReplicaState, page: seq<Envelope>)
    ensures LandAll(st, page).unprojected == st.unprojected
  {
    if page != [] {
      LandingProjectsAll(st, page[..|page| - 1]);
    }
  }

  /** One such sync that reaches the tip leaves the server's rows, if the device has nothing of its own left. */
  lemma CatchUpConverges(w: World, snapshot: Option<Snapshot>, limit: nat)
    requires Calm(w) && Serves(w, snapshot)
    requires var dev := CaughtUp(w.dev, w.server, snapshot, limit);
             && dev.serverSeq == |w.server| && Ids(dev.log) <= Ids(w.server)
             && NothingInverted(Scene(w.server, 0, dev.log))
    ensures CaughtUp(w.dev, w.server, snapshot, limit).rows == Fold(w.server)
  {
    hide CaughtUp, Vouched, Settled, Fold;
    var w', steps := CatchUpRepairs(w, snapshot, limit);
    AgreeingNeverInverted(w'.dev.log, w.server, w'.Scene());
    ConvergedState(w');
  }

  /** So many syncs of one device, one after the other. */
  function Synced(st: ReplicaState, server: seq<Event>, snapshot: Option<Snapshot>, limit: nat, n: nat): ReplicaState {
    if n == 0 then st else CaughtUp(Synced(st, server, snapshot, limit, n - 1), server, snapshot, limit)
  }

  /** However small the pages, as many syncs as the server has events reach its tip, with every event of it past the
      start in the log. */
  lemma {:induction false} SyncsReachTheTip(st: ReplicaState, server: seq<Event>, snapshot: Option<Snapshot>, limit: nat, n: nat)
    requires limit > 0 && st.serverSeq <= |server|
    requires snapshot.Some? && snapshot.value.consistent ==> snapshot.value.seq_ <= |server|
    ensures var synced := Synced(st, server, snapshot, limit, n);
            && st.serverSeq <= synced.serverSeq <= |server| && Min(n, |server|) <= synced.serverSeq
            && st.log <= synced.log && Ids(synced.log) <= Ids(st.log) + Ids(server)
            && (st.serverSeq != 0 || !(snapshot.Some? && snapshot.value.consistent) ==>
                  forall i :: st.serverSeq <= i < synced.serverSeq ==> server[i].id in Ids(synced.log))
  {
    hide CaughtUp, Ids;
    if n > 0 {
      SyncsReachTheTip(st, server, snapshot, limit, n - 1);
      CaughtUpIs(Synced(st, server, snapshot, limit, n - 1), server, snapshot, limit);
      LogKeeps(Synced(st, server, snapshot, limit, n - 1), Synced(st, server, snapshot, limit, n));
    }
  }

  lemma LogKeeps(st: ReplicaState, st': ReplicaState)
    requires st.log <= st'.log
    ensures Ids(st.log) <= Ids(st'.log)
  {
    forall id | id in Ids(st.log) ensures id in Ids(st'.log) {
      var i := FromIds(st.log, id);
      assert st'.log[i].id == id;
    }
  }

  lemma OneMoreSync(w: World, snapshot: Option<Snapshot>, limit: nat) returns (w': World)
    requires Calm(w) && Serves(w, snapshot) && limit > 0
    ensures Calm(w') && Serves(w', snapshot) && w'.server == w.server
    ensures w'.dev == CaughtUp(w.dev, w.server, snapshot, limit) && w'.dev.Clean()
  {
    hide CaughtUp, Ids, Fold, Inv;
    var steps;
    w', steps := CatchUpRepairs(w, snapshot, limit);
    CaughtUpIs(w.dev, w.server, snapshot, limit);
    if w'.Cursor() == 0 && w'.dev.log != [] {
      InIds(w'.dev.log, w'.dev.log[0]);
      assert Ids(w.server) == {} by { NoIds(w.server); }
      NoIds(w.dev.log);
    }
  }

  lemma {:induction false} ReachSynced(w: World, snapshot: Option<Snapshot>, limit: nat, n: nat) returns (w': World)
    requires Calm(w) && Serves(w, snapshot) && limit > 0
    ensures Calm(w') && Serves(w', snapshot) && w'.server == w.server
    ensures w'.dev == Synced(w.dev, w.server, snapshot, limit, n) && (n > 0 ==> w'.dev.Clean())
  {
    hide CaughtUp, Calm, Serves;
    w' := w;
    if n > 0 {
      var before := ReachSynced(w, snapshot, limit, n - 1);
      w' := OneMoreSync(before, snapshot, limit);
    }
  }

  /** Whatever state a replica is in and however small its pages, once it has synced at least as often as the server
      has events, it holds the plain replay of the server's log, if it had nothing of its own the server lacks and
      logged no two clashing events of different subjects the other way round. */
  lemma SyncsConverge(w: World, snapshot: Option<Snapshot>, limit: nat, n: nat)
    requires Calm(w) && Serves(w, snapshot) && limit > 0 && n >= |w.server| && n > 0
    requires Ids(w.dev.log) <= Ids(w.server)
    requires NothingInverted(Scene(w.server, 0, Synced(w.dev, w.server, snapshot, limit, n).log))
    ensures Synced(w.dev, w.server, snapshot, limit, n).rows == Fold(w.server)
    ensures Synced(w.dev, w.server, snapshot, limit, n).serverSeq == |w.server|
  {
    hide CaughtUp, Synced, Vouched, Settled, Fold, Ids;
    var w' := ReachSynced(w, snapshot, limit, n);
    SyncsReachTheTip(w.dev, w.server, snapshot, limit, n);
    AgreeingNeverInverted(w'.dev.log, w.server, w'.Scene());
    ConvergedState(w');
  }

  lemma AgreeingNeverInverted(log: seq<Event>, server: seq<Event>, s: Scene)
    requires NothingInverted(Scene(server, 0, log)) && s.log == log && s.passed <= server
    ensures NothingInverted(s)
  {
    hide Clash, SameSubject;
    var all := Scene(server, 0, log);
    forall x, y | PassedFirst(s, x, y) && Inverted(s, x, y) ensures !Clash(x, y) {
      var i, j :| 0 <= i < j < |s.passed| && s.passed[i] == x && s.passed[j] == y;
      assert server[i] == x && server[j] == y;
      assert PassedFirst(all, x, y) && Inverted(all, x, y);
    }
  }
}

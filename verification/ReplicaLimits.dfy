/** Where the replica's order gives way: for each condition the runs of ReplicaRuns are held to, that the order holds
    after the step exactly when the condition does; and runs that end with every flag on and rows the server's log
    does not give. */
module ReplicaLimits {
  import opened Events
  import opened Traces
  import opened Replica
  import opened Orders
  import opened ReplicaRuns
  import opened ReplicaSteps

  // --------------------------------------------------------------- the three conditions

  /** An unseen event can land next without harm exactly when the cursor has passed nothing that a running command
      has yet to project and that belongs before it. */
  lemma LandingIsSafeIff(w: World)
    requires Sound(w) && RunningLogged(w) && Vouched(w) && w.Cursor() < |w.server|
    requires w.server[w.Cursor()].id !in Ids(w.dev.log)
    ensures var w' := Do(w, Deliver(w.Cursor() + 1));
            && w'.Cursor() <= |w'.server|
            && (Ordered(w'.Scene(), w'.Ahead(), NoGap) <==> MakesWay(w.Scene(), w.Inflight(), w.server[w.Cursor()]))
  {
    hide Before, Fold, Covered, Ordered, MakesWay;
    var r := w.server[w.Cursor()];
    LandScene(w, r);
    NextWaits(w);
    LandedKeepsOrderIff(w.Scene(), w.trace, w.Inflight(), r, NoGap);
    assert Do(w, Deliver(w.Cursor() + 1)).Ahead() == w.trace + [r] + w.Inflight();
  }

  /** A repair leaves the order in place, for a command it overlaps too, exactly when nothing that the rest of the
      command belongs before stays behind. */
  lemma RepairIsSafeIff(w: World)
    requires Sound(w) && RunningLogged(w) && !w.dev.Verified()
    ensures var w' := Do(w, Repair(w.Cursor()));
            && w'.Cursor() <= |w'.server| && w'.done <= |w'.running| && w'.base <= w'.Cursor()
            && (Ordered(w'.Scene(), w'.Ahead(), NoGap) <==> RunsOn(w'.Scene(), w.Inflight()))
  {
    hide Before, Fold, Ordered, RunsOn, IsRest, Rebuild, RepairTrace, RepairRun;
    RepairKeepsSound(w, w.Cursor());
    var w' := Do(w, Repair(w.Cursor()));
    RestAfterRepair(w);
    RunsRepairThenRest(w);
    WellFormedScene(w');
    var lo, hi :| IsRest(w'.Scene(), w.Inflight(), lo, hi);
    RepairOrdersIff(w'.Scene(), w.Inflight(), lo, hi);
  }

  lemma RestAfterRepair(w: World)
    requires Sound(w) && RunningLogged(w) && !w.dev.Verified()
    ensures var w' := Do(w, Repair(w.Cursor()));
            w'.Cursor() <= |w'.server| && exists lo, hi :: IsRest(w'.Scene(), w.Inflight(), lo, hi)
  {
    hide Fold, RepairTrace;
    RepairKeepsSound(w, w.Cursor());
    RestIsRest(w);
    var lo, hi :| IsRest(w.Scene(), w.Inflight(), lo, hi);
    assert IsRest(Do(w, Repair(w.Cursor())).Scene(), w.Inflight(), lo, hi);
  }

  lemma RunsRepairThenRest(w: World)
    requires Sound(w) && RunningLogged(w) && !w.dev.Verified()
    ensures var w' := Do(w, Repair(w.Cursor()));
            && w'.Cursor() <= |w'.server| && w'.done <= |w'.running|
            && w'.Ahead() == RepairRun(w'.Scene(), w.Inflight())
  {
    hide Fold, LocalOnly;
    RepairKeepsSound(w, w.Cursor());
  }

  /** A crash nothing will notice leaves the rows in order exactly when the command had not run one event and yet to
      run another that belongs after it, since the last repair. */
  lemma CrashIsSafeIffNotTorn(w: World)
    requires Inv(w) && w.dev.Verified() && w.dev.unprojected == {}
    ensures Ordered(w.Scene(), w.trace, NoGap) <==> !Torn(w)
  {
    hide Inv, Ordered, Torn;
    SettledHolds(w);
    if Torn(w) {
      TornIsOutOfOrder(w);
    } else {
      UntornOrder(w);
    }
  }

  lemma SettledHolds(w: World)
    requires Inv(w) && w.dev.Verified() && w.dev.unprojected == {}
    ensures Sound(w) && RunningLogged(w) && Ordered(w.Scene(), w.trace, w.Rerun())
    ensures Reversed(w.trace, w.running, w.redo, w.done)
  {
    hide Ordered, Fold, Covered, Reversed;
  }

  lemma TornIsOutOfOrder(w: World)
    requires Sound(w) && Reversed(w.trace, w.running, w.redo, w.done) && Torn(w)
    ensures !Ordered(w.Scene(), w.trace, NoGap)
  {
    hide Before, Owed, Fold, DistinctIds, SameIdSameEvent;
    var a, b :| w.redo <= a < w.done <= b < |w.running| && Owed(w.Scene(), w.running[a], w.running[b]);
    NoGapSpansNothing(w.Scene(), w.running[a], w.running[b]);
    BeforeAntisymmetric(w.trace, w.running[a], w.running[b]);
  }

  // --------------------------------------------------------------------- runs that go wrong

  lemma Then(w: World, step: Step, rest: seq<Step>)
    requires CanHappen(w, step) && Happens(Do(w, step), rest)
    ensures Happens(w, [step] + rest) && Outcome(w, [step] + rest) == Outcome(Do(w, step), rest)
  {
    assert ([step] + rest)[1..] == rest;
  }

  /** The end of a run no later sync will find anything wrong with, whose rows are not the server's. */
  ghost predicate SilentlyDiverged(w: World) {
    && w.dev.Verified() && w.dev.unprojected == {} && w.running == []
    && w.Cursor() == |w.server| && Ids(w.dev.log) <= Ids(w.server)
    && w.dev.rows != Fold(w.server)
  }

  lemma IdsTwo(a: Event, b: Event)
    ensures Ids([a, b]) == {a.id, b.id}
  {
    IdsOne(a);
    IdsAppend([a], b);
    assert [a] + [b] == [a, b];
  }

  /** A world in which the three flags agree and a command has `done` of its events on the rows. */
  function At(server: seq<Event>, log: seq<Event>, trace: seq<Event>, cursor: nat, ordered: nat, verified: bool,
              unechoed: set<EventId>, unprojected: set<EventId>, running: seq<Event>, done: nat): World
  {
    World(server,
          ReplicaState(log, Fold(trace), cursor, ordered, verified, verified, verified, unechoed, unprojected),
          trace, running, 0, 0, done, 0)
  }

  const NewDevice := At([], [], [], 0, 0, false, {}, {}, [], 0)

  lemma NewDeviceStarts()
    ensures Start(NewDevice)
  {
    assert Ids([]) == {};
  }

  predicate Steps(w: World, step: Step, w': World) { CanHappen(w, step) && Do(w, step) == w' }

  lemma FoldOne(e: Event)
    ensures Fold([e]) == Apply(map[], e)
  {
    assert [e][..0] == [];
  }

  lemma FindsBoth(a: Event, b: Event)
    requires a.id != b.id
    ensures Find([a], a.id) == Some(0) && Find([a], b.id) == None
    ensures Find([a, b], a.id) == Some(0) && Find([a, b], b.id) == Some(1)
  {
    IdsOne(a);
    IdsTwo(a, b);
  }

  // ---------------------------------------------------- a command stalled before its projectors

  /** `a` is committed and pushed, a repair takes it in, its echo passes, another device's `b` lands, and only then do
      the projectors of `a` run. */
  function StalledRun(a: Event, b: Event): seq<Step> {
    [Commit([a]), Push(0), Check, Repair(0), StartAtZero, Deliver(1), OtherWrite(b), Deliver(2), Project, Finish]
  }

  lemma StalledUntilRepair(a: Event)
    ensures Steps(NewDevice, Commit([a]), At([], [a], [], 0, 0, false, {a.id}, {a.id}, [a], 0))
    ensures Steps(At([], [a], [], 0, 0, false, {a.id}, {a.id}, [a], 0), Push(0),
                  At([a], [a], [], 0, 0, false, {a.id}, {a.id}, [a], 0))
    ensures Steps(At([a], [a], [], 0, 0, false, {a.id}, {a.id}, [a], 0), Check,
                  At([a], [a], [], 0, 0, false, {a.id}, {a.id}, [a], 0))
  {
    hide Apply, Fold;
    IdsOne(a);
    assert Ids([]) == {} && [] + [a] == [a];
  }

  lemma StalledRepair(a: Event)
    ensures Steps(At([a], [a], [], 0, 0, false, {a.id}, {a.id}, [a], 0), Repair(0),
                  At([a], [a], [a], 0, 0, true, {a.id}, {}, [a], 0))
    ensures Steps(At([a], [a], [a], 0, 0, true, {a.id}, {}, [a], 0), StartAtZero,
                  At([a], [a], [a], 0, 0, true, {a.id}, {}, [a], 0))
  {
    hide Apply, Fold;
    IdsOne(a);
    assert Ids([]) == {} && [] + [a] == [a];
    assert UpTo([a], 0) == [];
    LocalOnlyOfNothing([a]);
    assert RepairTrace([a], 0, [a]) == [a];
  }

  lemma StalledEcho(a: Event)
    ensures Steps(At([a], [a], [a], 0, 0, true, {a.id}, {}, [a], 0), Deliver(1),
                  At([a], [a], [a], 1, 1, true, {}, {}, [a], 0))
  {
    hide Apply, Fold;
    IdsOne(a);
    assert Find([a], a.id) == Some(0);
    assert !Overtaken([a], {a.id}, 0, 0);
    assert {a.id} - {a.id} == {};
  }

  lemma StalledAfterEcho(a: Event, b: Event)
    requires a.id != b.id
    ensures Steps(At([a], [a], [a], 1, 1, true, {}, {}, [a], 0), OtherWrite(b),
                  At([a, b], [a], [a], 1, 1, true, {}, {}, [a], 0))
    ensures Steps(At([a, b], [a], [a], 1, 1, true, {}, {}, [a], 0), Deliver(2),
                  At([a, b], [a, b], [a, b], 2, 2, true, {}, {}, [a], 0))
  {
    hide Apply, Fold;
    IdsOne(a);
    IdsOne(b);
    FindsBoth(a, b);
    FoldAppend([a], b);
    assert [a] + [b] == [a, b];
  }

  lemma StalledEnd(a: Event, b: Event)
    ensures Steps(At([a, b], [a, b], [a, b], 2, 2, true, {}, {}, [a], 0), Project,
                  At([a, b], [a, b], [a, b, a], 2, 2, true, {}, {}, [a], 1))
    ensures Steps(At([a, b], [a, b], [a, b, a], 2, 2, true, {}, {}, [a], 1), Finish,
                  At([a, b], [a, b], [a, b, a], 2, 2, true, {}, {}, [], 0))
  {
    hide Apply, Fold;
    FoldAppend([a, b], a);
    assert [a, b] + [a] == [a, b, a];
  }

  lemma StalledOutcome(a: Event, b: Event)
    requires a.id != b.id
    ensures Happens(NewDevice, StalledRun(a, b))
    ensures Outcome(NewDevice, StalledRun(a, b)) == At([a, b], [a, b], [a, b, a], 2, 2, true, {}, {}, [], 0)
  {
    hide CanHappen, Do, At, Fold;
    StalledUntilRepair(a);
    StalledRepair(a);
    StalledEcho(a);
    StalledAfterEcho(a, b);
    StalledEnd(a, b);
    var steps := StalledRun(a, b);
    assert Happens(At([a, b], [a, b], [a, b, a], 2, 2, true, {}, {}, [], 0), []);
    Then(At([a, b], [a, b], [a, b, a], 2, 2, true, {}, {}, [a], 1), Finish, []);
    Then(At([a, b], [a, b], [a, b], 2, 2, true, {}, {}, [a], 0), Project, steps[9..]);
    Then(At([a, b], [a], [a], 1, 1, true, {}, {}, [a], 0), Deliver(2), steps[8..]);
    Then(At([a], [a], [a], 1, 1, true, {}, {}, [a], 0), OtherWrite(b), steps[7..]);
    Then(At([a], [a], [a], 0, 0, true, {a.id}, {}, [a], 0), Deliver(1), steps[6..]);
    Then(At([a], [a], [a], 0, 0, true, {a.id}, {}, [a], 0), StartAtZero, steps[5..]);
    Then(At([a], [a], [], 0, 0, false, {a.id}, {a.id}, [a], 0), Repair(0), steps[4..]);
    Then(At([a], [a], [], 0, 0, false, {a.id}, {a.id}, [a], 0), Check, steps[3..]);
    Then(At([], [a], [], 0, 0, false, {a.id}, {a.id}, [a], 0), Push(0), steps[2..]);
    Then(NewDevice, Commit([a]), steps[1..]);
  }

  /** The comment on `catch_up` takes a command that is still running to be safe, since what it runs again is in the
      rebuilt rows already. With another device's event in between, the rows are wrong for good unless running `a` again changes nothing. */
  lemma StalledCommandDivergesIff(a: Event, b: Event)
    requires a.id != b.id
    ensures Start(NewDevice) && Happens(NewDevice, StalledRun(a, b))
    ensures SilentlyDiverged(Outcome(NewDevice, StalledRun(a, b))) <==> Fold([a, b, a]) != Fold([a, b])
  {
    hide Happens, Do, CanHappen, Fold;
    NewDeviceStarts();
    StalledOutcome(a, b);
    IdsTwo(a, b);
  }

  const Mine := Event(1, TaskCreated(7, None, map[Title := Text("mine")]))
  const Theirs := Event(2, TaskUpdated(7, map[Title := Text("theirs")]))

  lemma StalledCommandDiverges()
    ensures Happens(NewDevice, StalledRun(Mine, Theirs))
    ensures SilentlyDiverged(Outcome(NewDevice, StalledRun(Mine, Theirs)))
  {
    hide Happens, Do, CanHappen, Outcome, SilentlyDiverged, StalledRun;
    StalledCommandDivergesIff(Mine, Theirs);
    MineWins();
    RerunWins(Mine, Theirs, TaskRow(7));
  }

  lemma MineWins()
    ensures var row := AfterEvent(AfterEvent(None, Mine, TaskRow(7)), Theirs, TaskRow(7)); AfterEvent(row, Mine, TaskRow(7)) != row
  {
    var key := TaskRow(7);
    assert AfterEvent(None, Mine, key) == Some(map[Title := Text("mine")]);
    var both := map[Title := Text("mine")] + map[Title := Text("theirs")];
    assert AfterEvent(AfterEvent(None, Mine, key), Theirs, key) == Some(both);
    assert both[Title] == Text("theirs") && Text("theirs") != Text("mine") by { assert |"theirs"| != |"mine"|; }
  }

  /** A row two events leave differently keeps what the one that runs last says. */
  lemma RerunWins(first: Event, second: Event, key: Key)
    requires var row := AfterEvent(AfterEvent(None, first, key), second, key); AfterEvent(row, first, key) != row
    ensures Fold([first, second, first]) != Fold([first, second])
  {
    hide AfterEvent, Apply, Fold;
    RowOfTwo(first, second, key);
    FoldAppend([first, second], first);
    assert [first, second] + [first] == [first, second, first];
    ApplyRow(Fold([first, second]), first, key);
  }

  lemma RowOfTwo(first: Event, second: Event, key: Key)
    ensures Row(Fold([first, second]), key) == AfterEvent(AfterEvent(None, first, key), second, key)
  {
    hide AfterEvent, Apply;
    FoldOne(first);
    FoldAppend([first], second);
    assert [first] + [second] == [first, second];
    ApplyRow(map[], first, key);
    ApplyRow(Fold([first]), second, key);
  }

  // ------------------------------------------------------------ a command that dies half way

  /** `[x, y]` is committed, a repair takes it in, the projectors run `x` and die; then it is pushed and echoed. */
  function TornRun(x: Event, y: Event): seq<Step> {
    [Commit([x, y]), Repair(0), Project, Crash, Push(0), Push(1), Check, StartAtZero, Deliver(1), Deliver(2)]
  }

  lemma TornUntilCrash(x: Event, y: Event)
    requires x.id != y.id
    ensures var both, ids := [x, y], {x.id, y.id};
            && Steps(NewDevice, Commit(both), At([], both, [], 0, 0, false, ids, ids, both, 0))
            && Steps(At([], both, [], 0, 0, false, ids, ids, both, 0), Repair(0),
                     At([], both, both, 0, 0, true, ids, {}, both, 0))
  {
    hide Apply;
    var both := [x, y];
    IdsTwo(x, y);
    assert Ids([]) == {} && [] + both == both;
    assert UpTo([], 0) == [];
    LocalOnlyOfNothing(both);
    assert RepairTrace([], 0, both) == both;
  }

  lemma TornCrash(x: Event, y: Event)
    ensures var both, ids := [x, y], {x.id, y.id};
            && Steps(At([], both, both, 0, 0, true, ids, {}, both, 0), Project,
                     At([], both, both + [x], 0, 0, true, ids, {}, both, 1))
            && Steps(At([], both, both + [x], 0, 0, true, ids, {}, both, 1), Crash,
                     At([], both, both + [x], 0, 0, true, ids, {}, [], 0))
  {
    hide Apply, Fold;
    FoldAppend([x, y], x);
  }

  lemma TornPushes(x: Event, y: Event)
    requires x.id != y.id
    ensures var both, ids := [x, y], {x.id, y.id};
            && Steps(At([], both, both + [x], 0, 0, true, ids, {}, [], 0), Push(0),
                     At([x], both, both + [x], 0, 0, true, ids, {}, [], 0))
            && Steps(At([x], both, both + [x], 0, 0, true, ids, {}, [], 0), Push(1),
                     At(both, both, both + [x], 0, 0, true, ids, {}, [], 0))
  {
    hide Apply, Fold;
    assert Ids([]) == {} && [] + [x] == [x] && [x] + [y] == [x, y];
    IdsOne(x);
  }

  lemma TornRestarts(x: Event, y: Event)
    ensures var both, ids := [x, y], {x.id, y.id};
            && Steps(At(both, both, both + [x], 0, 0, true, ids, {}, [], 0), Check,
                     At(both, both, both + [x], 0, 0, true, ids, {}, [], 0))
            && Steps(At(both, both, both + [x], 0, 0, true, ids, {}, [], 0), StartAtZero,
                     At(both, both, both + [x], 0, 0, true, ids, {}, [], 0))
  {
    hide Apply, Fold;
  }

  lemma TornEchoes(x: Event, y: Event)
    requires x.id != y.id
    ensures var both, ids := [x, y], {x.id, y.id};
            && Steps(At(both, both, both + [x], 0, 0, true, ids, {}, [], 0), Deliver(1),
                     At(both, both, both + [x], 1, 1, true, {y.id}, {}, [], 0))
            && Steps(At(both, both, both + [x], 1, 1, true, {y.id}, {}, [], 0), Deliver(2),
                     At(both, both, both + [x], 2, 2, true, {}, {}, [], 0))
  {
    hide Apply, Fold;
    var both := [x, y];
    IdsTwo(x, y);
    FindsBoth(x, y);
    assert both[..1] == [x];
    assert !Overtaken(both, {x.id, y.id}, 0, 0) && !Overtaken(both, {y.id}, 1, 1);
    assert {x.id, y.id} - {x.id} == {y.id} && {y.id} - {y.id} == {};
  }

  lemma TornOutcome(x: Event, y: Event)
    requires x.id != y.id
    ensures Happens(NewDevice, TornRun(x, y))
    ensures Outcome(NewDevice, TornRun(x, y)) == At([x, y], [x, y], [x, y] + [x], 2, 2, true, {}, {}, [], 0)
  {
    hide CanHappen, Do, At, Fold;
    TornUntilCrash(x, y);
    TornCrash(x, y);
    TornPushes(x, y);
    TornRestarts(x, y);
    TornEchoes(x, y);
    var both, ids, steps := [x, y], {x.id, y.id}, TornRun(x, y);
    assert Happens(At(both, both, both + [x], 2, 2, true, {}, {}, [], 0), []);
    Then(At(both, both, both + [x], 1, 1, true, {y.id}, {}, [], 0), Deliver(2), []);
    Then(At(both, both, both + [x], 0, 0, true, ids, {}, [], 0), Deliver(1), steps[9..]);
    Then(At(both, both, both + [x], 0, 0, true, ids, {}, [], 0), StartAtZero, steps[8..]);
    Then(At(both, both, both + [x], 0, 0, true, ids, {}, [], 0), Check, steps[7..]);
    Then(At([x], both, both + [x], 0, 0, true, ids, {}, [], 0), Push(1), steps[6..]);
    Then(At([], both, both + [x], 0, 0, true, ids, {}, [], 0), Push(0), steps[5..]);
    Then(At([], both, both + [x], 0, 0, true, ids, {}, both, 1), Crash, steps[4..]);
    Then(At([], both, both, 0, 0, true, ids, {}, both, 0), Project, steps[3..]);
    Then(At([], both, [], 0, 0, false, ids, ids, both, 0), Repair(0), steps[2..]);
    Then(NewDevice, Commit(both), steps[1..]);
  }

  /** A command that a repair took in and that dies after the first of its events loses the second for good, unless
      the two can change places. */
  lemma HalfReplayedCommandDivergesIff(x: Event, y: Event)
    requires x.id != y.id
    ensures Start(NewDevice) && Happens(NewDevice, TornRun(x, y))
    ensures SilentlyDiverged(Outcome(NewDevice, TornRun(x, y))) <==> Fold([x, y, x]) != Fold([x, y])
  {
    hide Happens, Do, CanHappen, Fold;
    NewDeviceStarts();
    TornOutcome(x, y);
    IdsTwo(x, y);
    assert [x, y] + [x] == [x, y, x];
  }

  /** A split and the create of one of its subtasks, as the command that splits a task logs them: they share no
      subject, and the row of the subtask tells which ran last. */
  lemma HalfReplayedSplitDiverges(parent: TaskId, subtask: TaskId)
    requires parent != subtask
    ensures var split := Event(1, TaskSplitGenerated(parent, map[subtask := map[SourceEvent := Number(1)]]));
            var created := Event(2, TaskCreated(subtask, None, map[SourceEvent := Null]));
            && !SameSubject(split, created) && Happens(NewDevice, TornRun(split, created))
            && SilentlyDiverged(Outcome(NewDevice, TornRun(split, created)))
  {
    hide Happens, Do, CanHappen, Outcome, SilentlyDiverged, TornRun;
    var split := Event(1, TaskSplitGenerated(parent, map[subtask := map[SourceEvent := Number(1)]]));
    var created := Event(2, TaskCreated(subtask, None, map[SourceEvent := Null]));
    var key := TaskRow(subtask);
    assert split.payload.EffectOn(key) == Some(Put(map[SourceEvent := Number(1)]));
    assert created.payload.EffectOn(key) == Some(Put(map[SourceEvent := Null]));
    assert AfterEvent(AfterEvent(None, split, key), created, key).value[SourceEvent] == Null;
    assert AfterEvent(AfterEvent(AfterEvent(None, split, key), created, key), split, key).value[SourceEvent] == Number(1);
    RerunWins(split, created, key);
    HalfReplayedCommandDivergesIff(split, created);
  }

  // ---------------------------------------------------- two events of different subjects inverted

  /** `a` is made here and projected, another device's `b` lands, and only then is `a` pushed and echoed. */
  function InvertedRun(a: Event, b: Event): seq<Step> {
    [StartAtZero, Commit([a]), Project, Finish, OtherWrite(b), Deliver(1), Push(0), Deliver(2)]
  }

  lemma InvertedCommand(a: Event)
    ensures Steps(NewDevice, StartAtZero, At([], [], [], 0, 0, true, {}, {}, [], 0))
    ensures Steps(At([], [], [], 0, 0, true, {}, {}, [], 0), Commit([a]),
                  At([], [a], [], 0, 0, true, {a.id}, {a.id}, [a], 0))
    ensures Steps(At([], [a], [], 0, 0, true, {a.id}, {a.id}, [a], 0), Project,
                  At([], [a], [a], 0, 0, true, {a.id}, {a.id}, [a], 1))
    ensures Steps(At([], [a], [a], 0, 0, true, {a.id}, {a.id}, [a], 1), Finish,
                  At([], [a], [a], 0, 0, true, {a.id}, {}, [], 0))
  {
    hide Apply;
    IdsOne(a);
    FoldOne(a);
    assert Ids([]) == {} && [] + [a] == [a];
    assert {a.id} - {a.id} == {};
  }

  lemma InvertedLanding(a: Event, b: Event)
    requires a.id != b.id
    ensures Steps(At([], [a], [a], 0, 0, true, {a.id}, {}, [], 0), OtherWrite(b),
                  At([b], [a], [a], 0, 0, true, {a.id}, {}, [], 0))
    ensures Steps(At([b], [a], [a], 0, 0, true, {a.id}, {}, [], 0), Deliver(1),
                  At([b], [a, b], [a, b], 1, 2, true, {a.id}, {}, [], 0))
  {
    hide Apply, Fold, Overtaken;
    IdsOne(a);
    IdsOne(b);
    FindsBoth(a, b);
    FoldAppend([a], b);
    assert Ids([]) == {} && [] + [b] == [b] && [a] + [b] == [a, b];
  }

  lemma InvertedPush(a: Event, b: Event)
    requires a.id != b.id
    ensures Steps(At([b], [a, b], [a, b], 1, 2, true, {a.id}, {}, [], 0), Push(0),
                  At([b, a], [a, b], [a, b], 1, 2, true, {a.id}, {}, [], 0))
  {
    hide Apply, Fold;
    IdsOne(b);
    assert [b] + [a] == [b, a];
  }

  function InvertedEnd(a: Event, b: Event): World {
    var w := At([b, a], [a, b], [a, b], 2, 2, true, {}, {}, [], 0);
    w.(dev := w.dev.(orderVerified := !SameSubject(a, b)))
  }

  lemma InvertedEcho(a: Event, b: Event)
    requires a.id != b.id
    ensures Steps(At([b, a], [a, b], [a, b], 1, 2, true, {a.id}, {}, [], 0), Deliver(2), InvertedEnd(a, b))
  {
    hide Apply, Fold, SameSubject;
    IdsTwo(a, b);
    FindsBoth(a, b);
    assert {a.id} - {a.id} == {};
    assert Overtaken([a, b], {a.id}, 0, 2) <==> SameSubject(a, b) by {
      assert [a, b][1] == b;
    }
  }

  lemma InvertedOutcome(a: Event, b: Event)
    requires a.id != b.id
    ensures Happens(NewDevice, InvertedRun(a, b)) && Outcome(NewDevice, InvertedRun(a, b)) == InvertedEnd(a, b)
  {
    hide CanHappen, Do, At, Fold, InvertedEnd;
    InvertedCommand(a);
    InvertedLanding(a, b);
    InvertedPush(a, b);
    InvertedEcho(a, b);
    var steps := InvertedRun(a, b);
    assert Happens(InvertedEnd(a, b), []);
    Then(At([b, a], [a, b], [a, b], 1, 2, true, {a.id}, {}, [], 0), Deliver(2), []);
    Then(At([b], [a, b], [a, b], 1, 2, true, {a.id}, {}, [], 0), Push(0), steps[7..]);
    Then(At([b], [a], [a], 0, 0, true, {a.id}, {}, [], 0), Deliver(1), steps[6..]);
    Then(At([], [a], [a], 0, 0, true, {a.id}, {}, [], 0), OtherWrite(b), steps[5..]);
    Then(At([], [a], [a], 0, 0, true, {a.id}, {a.id}, [a], 1), Finish, steps[4..]);
    Then(At([], [a], [], 0, 0, true, {a.id}, {a.id}, [a], 0), Project, steps[3..]);
    Then(At([], [], [], 0, 0, true, {}, {}, [], 0), Commit([a]), steps[2..]);
    Then(NewDevice, StartAtZero, steps[1..]);
  }

  /** An event made here before another device's lands, and echoed after it, leaves the rows wrong for good exactly
      when the two leave different rows in the other order and the code does not take them for related. */
  lemma InvertedPairDivergesIff(a: Event, b: Event)
    requires a.id != b.id
    ensures Start(NewDevice) && Happens(NewDevice, InvertedRun(a, b))
    ensures SilentlyDiverged(Outcome(NewDevice, InvertedRun(a, b))) <==>
              !SameSubject(a, b) && Fold([a, b]) != Fold([b, a])
  {
    hide Happens, Do, CanHappen, Fold, SameSubject;
    NewDeviceStarts();
    InvertedOutcome(a, b);
    IdsTwo(a, b);
    IdsTwo(b, a);
  }

  /** Two devices create a project of one slug: the one whose event the server has second keeps its own copy only,
      the server the other. */
  lemma SlugTakenDiverges(a: Event, b: Event)
    requires a.id != b.id && SlugTaken(a, b)
    ensures Happens(NewDevice, InvertedRun(a, b)) && SilentlyDiverged(Outcome(NewDevice, InvertedRun(a, b)))
  {
    hide Happens, Do, CanHappen, Outcome, SilentlyDiverged, InvertedRun, Fold;
    var key := ProjectRow(a.payload.project);
    RowOfTwo(a, b, key);
    RowOfTwo(b, a, key);
    assert AfterEvent(AfterEvent(None, a, key), b, key) == None;
    assert AfterEvent(AfterEvent(None, b, key), a, key).Some?;
    InvertedPairDivergesIff(a, b);
  }

  // ---------------------------------------------------------------- what an echo is flagged for

  /** On a replica whose every logged event waits for its echo or is passed, an echo asks for a repair only
      if something on its subject that the server put first was logged after it, and whenever such a thing
      came since the last baseline. */
  lemma FlaggedForAnOvertaker(w: World, p: nat)
    requires Inv(w) && Trusted(w) && p < |w.dev.log|
    requires forall q | 0 <= q < |w.dev.log| :: w.dev.log[q].id in w.dev.unechoed || !Waits(w.Scene(), w.dev.log[q])
    ensures Overtaken(w.dev.log, w.dev.unechoed, p, w.dev.orderedLocalSeq) ==>
              exists i, j | 0 <= i < w.Cursor() && p < j < |w.dev.log| ::
                w.dev.log[j] == w.server[i] && SameSubject(w.dev.log[p], w.server[i])
    ensures (exists i, j | w.base <= i < w.Cursor() && p < j < |w.dev.log| ::
               w.dev.log[j] == w.server[i] && SameSubject(w.dev.log[p], w.server[i]))
            ==> Overtaken(w.dev.log, w.dev.unechoed, p, w.dev.orderedLocalSeq)
  {
    hide SameSubject, Fold, Ordered, Settled;
    if Overtaken(w.dev.log, w.dev.unechoed, p, w.dev.orderedLocalSeq) {
      OvertakerPassed(w, p);
    }
    if i, j :| w.base <= i < w.Cursor() && p < j < |w.dev.log| && w.dev.log[j] == w.server[i]
               && SameSubject(w.dev.log[p], w.server[i])
    {
      PassedOvertakes(w, p, i, j);
    }
  }

  lemma OvertakerPassed(w: World, p: nat)
    requires Sound(w) && p < |w.dev.log| && Overtaken(w.dev.log, w.dev.unechoed, p, w.dev.orderedLocalSeq)
    requires forall q | 0 <= q < |w.dev.log| :: w.dev.log[q].id in w.dev.unechoed || !Waits(w.Scene(), w.dev.log[q])
    ensures exists i, j | 0 <= i < w.Cursor() && p < j < |w.dev.log| ::
              w.dev.log[j] == w.server[i] && SameSubject(w.dev.log[p], w.server[i])
  {
    hide SameSubject, Fold;
    var s := w.Scene();
    var j :| p < j < |w.dev.log| && j < w.dev.orderedLocalSeq && SameSubject(w.dev.log[p], w.dev.log[j])
             && w.dev.log[j].id !in w.dev.unechoed;
    var i := FromIds(s.passed, w.dev.log[j].id);
    assert s.passed[i] == w.server[i];
    assert w.dev.log[j] == w.server[i];
  }

  lemma PassedOvertakes(w: World, p: nat, i: nat, j: nat)
    requires Sound(w) && Covered(w.Scene(), w.dev.orderedLocalSeq)
    requires w.base <= i < w.Cursor() && p < j < |w.dev.log| && w.dev.log[j] == w.server[i]
    requires SameSubject(w.dev.log[p], w.server[i])
    ensures Overtaken(w.dev.log, w.dev.unechoed, p, w.dev.orderedLocalSeq)
  {
    hide SameSubject, Fold;
    var s := w.Scene();
    assert s.passed[i] == w.server[i];
    assert LoggedWithin(s.log, w.dev.orderedLocalSeq, s.passed[i]);
    var m :| 0 <= m < |s.log| && m < w.dev.orderedLocalSeq && s.log[m] == s.passed[i];
    assert m == j;
    InIds(s.passed, s.passed[i]);
    assert w.dev.log[j].id !in w.dev.unechoed;
  }
}

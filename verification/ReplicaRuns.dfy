/** Whole runs of one device against its server: local commands, crashes between a commit and its
    projectors, pushes, other devices' writes, syncs that overlap, and repairs with all of that between
    their two phases. */
module ReplicaRuns {
  import opened Events
  import opened Traces
  import opened Replica
  import opened Orders

  /** `trace` lists what ran on the rows. `running` is the batch of the local command now being projected:
      `log[at..]` starts with it, its first `done` events have been projected, and the last repair, if one
      came since, found `redo` of them projected. `base` is how much of the server's log the last baseline
      took in. */
  datatype World = World(
    server: seq<Event>,
    dev: ReplicaState,
    trace: seq<Event>,
    running: seq<Event>,
    at: nat,
    redo: nat,
    done: nat,
    base: nat)
  {
    function Cursor(): nat { dev.serverSeq }

    function Inflight(): seq<Event>
      requires done <= |running|
    {
      running[done..]
    }

    /** What will have run on the rows once the running command is through. */
    function Ahead(): seq<Event>
      requires done <= |running|
    {
      trace + Inflight()
    }

    function Scene(): Scene
      requires Cursor() <= |server|
    {
      Orders.Scene(server[..Cursor()], base, dev.log)
    }

    /** The stretch of the log the running command has run, or has yet to run, since the last repair. */
    function Rerun(): Gap { Gap(at + redo, at + done, at + |running|) }
  }

  datatype Step =
    | Commit(batch: seq<Event>)
    | Project
    | Finish
    | Crash
    | Push(position: nat)
    | OtherWrite(event: Event)
    | Deliver(serverSeq: nat)
    | Check
    | StartAtZero
    | StartOnSnapshot(upTo: nat)
    | Repair(readAt: nat)

  // ------------------------------------------------------------------------ the steps

  predicate Fresh(w: World, batch: seq<Event>) {
    DistinctIds(batch) && Ids(batch) !! Ids(w.dev.log) && Ids(batch) !! Ids(w.server)
  }

  /** When a step can happen at all. A page may be stale or overlap another, but it never leaves a gap. */
  predicate CanHappen(w: World, step: Step) {
    match step
    case Commit(batch) => batch != [] && w.running == [] && Fresh(w, batch)
    case Project => w.done < |w.running|
    case Finish => w.running != [] && w.done == |w.running|
    case Crash => true
    case Push(p) => p < |w.dev.log| && w.dev.log[p].id !in Ids(w.server)
    case OtherWrite(e) => Fresh(w, [e])
    case Deliver(n) => 1 <= n <= |w.server| && n <= w.Cursor() + 1
    case Check => true
    case StartAtZero => w.Cursor() == 0 && (w.dev.Verified() || w.dev.log == [])
    case StartOnSnapshot(k) => w.Cursor() == 0 && w.dev.log == [] && k <= |w.server|
    case Repair(readAt) => readAt <= w.Cursor() <= |w.server|
  }

  /** An event the command ran after the last repair, and one it has yet to run, that belongs after it. */
  ghost predicate Torn(w: World)
    requires w.Cursor() <= |w.server| && w.base <= w.Cursor()
  {
    exists a, b :: w.redo <= a < w.done <= b < |w.running| && Owed(w.Scene(), w.running[a], w.running[b])
  }

  /** What the order of a run depends on. A command whose events a repair has taken in does not die torn; an unseen
      event does not land where one that the command has yet to run, and that the cursor has passed, belongs before
      it; no repair runs while what is left of the command would end up behind what it belongs before; and nothing a
      snapshot covered is delivered again. A step that does not keep to the first three leaves the order broken
      (`CrashIsSafeIffNotTorn`, `LandingIsSafeIff` and `RepairIsSafeIff` of ReplicaLimits), one that does not keep
      to the last runs an event again (`RedeliveryIsHarmlessIffLogged` of ReplicaTheorems). */
  ghost predicate Orderly(w: World, step: Step)
    requires w.Cursor() <= |w.server| && w.base <= w.Cursor() && w.done <= |w.running|
  {
    match step
    case Crash => w.dev.Verified() && w.dev.unprojected == {} ==> !Torn(w)
    case Deliver(n) =>
      1 <= n <= |w.server| ==>
        && (n <= w.Cursor() ==> w.server[n - 1].id in Ids(w.dev.log))
        && (n == w.Cursor() + 1 && w.server[n - 1].id !in Ids(w.dev.log) && Trusted(w) ==>
              MakesWay(w.Scene(), w.Inflight(), w.server[n - 1]))
    case Repair(readAt) =>
      readAt == w.Cursor() && !w.dev.Verified() ==> RunsOn(w.Scene().(base := readAt), w.Inflight())
    case _ => true
  }

  ghost predicate Enabled(w: World, step: Step) {
    && CanHappen(w, step)
    && w.Cursor() <= |w.server| && w.base <= w.Cursor() && w.done <= |w.running| && Orderly(w, step)
  }

  function Do(w: World, step: Step): World
    requires CanHappen(w, step)
  {
    match step
    case Commit(batch) =>
      w.(dev := w.dev.(log := w.dev.log + batch,
                       unprojected := w.dev.unprojected + Ids(batch),
                       unechoed := w.dev.unechoed + Ids(batch)),
         running := batch, at := |w.dev.log|, redo := 0, done := 0)
    case Project =>
      var e := w.running[w.done];
      w.(dev := w.dev.(rows := Apply(w.dev.rows, e)), trace := w.trace + [e], done := w.done + 1)
    case Finish =>
      w.(dev := w.dev.(unprojected := w.dev.unprojected - Ids(w.running)), running := [], redo := 0, done := 0)
    case Crash => w.(running := [], redo := 0, done := 0)
    case Push(p) => w.(server := w.server + [w.dev.log[p]])
    case OtherWrite(e) => w.(server := w.server + [e])
    case Deliver(n) =>
      var e := w.server[n - 1];
      w.(dev := Land(w.dev, Envelope(n, e)),
         trace := if e.id in Ids(w.dev.log) then w.trace else w.trace + [e])
    case Check => w.(dev := CheckUnprojected(w.dev))
    case StartAtZero => w.(dev := MarkVerifiedBaseline(w.dev, 0), base := 0)
    case StartOnSnapshot(k) =>
      w.(dev := Bootstrap(w.dev, Snapshot(k, Fold(w.server[..k]), true)), trace := w.server[..k], base := k)
    case Repair(readAt) =>
      if w.dev.Verified() then w
      else w.(dev := Rebuild(w.dev, w.server, readAt), trace := RepairTrace(w.server, readAt, w.dev.log),
              base := readAt, redo := w.done)
  }

  ghost predicate Possible(w: World, steps: seq<Step>)
    decreases |steps|
  {
    steps == [] || (Enabled(w, steps[0]) && Possible(Do(w, steps[0]), steps[1..]))
  }

  ghost function Run(w: World, steps: seq<Step>): World
    requires Possible(w, steps)
    decreases |steps|
  {
    if steps == [] then w else Run(Do(w, steps[0]), steps[1..])
  }

  // ------------------------------------------------------- runs of any steps that can happen

  ghost predicate Happens(w: World, steps: seq<Step>)
    decreases |steps|
  {
    steps == [] || (CanHappen(w, steps[0]) && Happens(Do(w, steps[0]), steps[1..]))
  }

  ghost function Outcome(w: World, steps: seq<Step>): World
    requires Happens(w, steps)
    decreases |steps|
  {
    if steps == [] then w else Outcome(Do(w, steps[0]), steps[1..])
  }

  // -------------------------------------------------------------------- the invariant

  ghost predicate Sound(w: World) {
    && DistinctIds(w.server) && DistinctIds(w.dev.log) && SameIdSameEvent(w.dev.log, w.server)
    && w.Cursor() <= |w.server| && w.base <= w.Cursor()
    && w.dev.unechoed <= Ids(w.dev.log) && w.dev.unechoed !! Ids(w.server[..w.Cursor()])
    && w.dev.unprojected <= Ids(w.dev.log)
    && (w.dev.log == [] && w.Cursor() == 0 ==> w.dev.rows == map[] && w.trace == [])
  }

  /** Where a run can begin: nothing is known of a replica that is not verified, except that its log is a
      log, that what waits for an echo is logged and not behind the cursor, and that an empty replica is
      empty. A new device and one an older binary left behind are both such. */
  ghost predicate Start(w: World) {
    Sound(w) && w.running == [] && w.redo == w.done == 0 && !w.dev.Verified()
  }

  /** The running batch is a stretch of the log, and what was logged after it came from the server. */
  ghost predicate RunningLogged(w: World)
    requires w.Cursor() <= |w.server|
  {
    && w.redo <= w.done <= |w.running|
    && (w.running == [] ==> w.done == 0)
    && (w.running != [] ==>
          && w.at + |w.running| <= |w.dev.log|
          && w.running == w.dev.log[w.at..w.at + |w.running|]
          && (forall q :: w.at + |w.running| <= q < |w.dev.log| ==> !Waits(w.Scene(), w.dev.log[q])))
  }

  /** The flags vouch for the rows, and nothing a stopped command left behind says otherwise. */
  predicate Trusted(w: World) {
    w.dev.Verified() && w.dev.unprojected <= Ids(w.running)
  }

  /** The rows are a replay that, once the running command is through, has run in the order that is owed. */
  ghost predicate Vouched(w: World)
    requires w.Cursor() <= |w.server| && w.done <= |w.running|
  {
    && w.dev.rows == Fold(w.trace)
    && Covered(w.Scene(), w.dev.orderedLocalSeq)
    && Ordered(w.Scene(), w.Ahead(), NoGap)
  }

  /** The same without the rest of the command, but for an event run again and one still to be run again: those two
      are the wrong way round. */
  ghost predicate Settled(w: World)
    requires w.Cursor() <= |w.server|
  {
    && Ordered(w.Scene(), w.trace, w.Rerun())
    && Reversed(w.trace, w.running, w.redo, w.done)
  }

  ghost predicate Inv(w: World) {
    && Sound(w) && RunningLogged(w)
    && (Trusted(w) ==> Vouched(w))
    && (w.dev.Verified() && w.dev.unprojected == {} ==> Settled(w))
  }

  lemma StartGivesInv(w: World)
    requires Start(w)
    ensures Inv(w)
  {
  }
}

/** What the rows of a trusted replica owe to the server's order, and how one event more changes it. */
module Orders {
  import opened Events
  import opened Traces
  import opened Replica

  /** What the order of a trace is judged by: the part of the server's log the cursor passed, how much of
      it the last baseline took in, and the local log. A gap is a stretch of the log, a command, of which
      `lo..mid` ran again and `mid..hi` did not. */
  datatype Scene = Scene(passed: seq<Event>, base: nat, log: seq<Event>)

  datatype Gap = Gap(lo: nat, mid: nat, hi: nat)

  const NoGap := Gap(0, 0, 0)

  ghost predicate WellFormed(s: Scene) {
    && DistinctIds(s.passed) && DistinctIds(s.log) && s.base <= |s.passed|
    && SameIdSameEvent(s.log, s.passed)
  }

  ghost predicate SameIdSameEvent(log: seq<Event>, server: seq<Event>) {
    forall p, i :: 0 <= p < |log| && 0 <= i < |server| && log[p].id == server[i].id ==> log[p] == server[i]
  }

  predicate Waits(s: Scene, e: Event) { e.id !in Ids(s.passed) }

  predicate Across(gap: Gap, p: nat, q: nat) { gap.lo <= p < gap.mid <= q < gap.hi }

  /** The two events a gap holds, one on either side. */
  predicate Spans(s: Scene, gap: Gap, x: Event, y: Event) {
    exists p, q :: 0 <= p < q < |s.log| && Across(gap, p, q) && s.log[p] == x && s.log[q] == y
  }

  /** Two events that can change each other's outcome, or that the code takes for such. */
  ghost predicate Related(x: Event, y: Event) { SameSubject(x, y) || Clash(x, y) }

  predicate PassedFirst(s: Scene, x: Event, y: Event) {
    exists i, j :: 0 <= i < j < |s.passed| && s.passed[i] == x && s.passed[j] == y
  }

  /** The last baseline took in `x`, and `y` is still to be passed. */
  predicate BasedFirst(s: Scene, x: Event, y: Event)
    requires s.base <= |s.passed|
  {
    Waits(s, y) && y in s.log && x in s.passed[..s.base]
  }

  /** `x` was logged before `y`, which is still to be passed. */
  predicate LoggedFirst(s: Scene, x: Event, y: Event) {
    Waits(s, y) && exists p, q :: 0 <= p < q < |s.log| && s.log[p] == x && s.log[q] == y
  }

  /** `x` was passed since the last baseline, and logged after `y`, with which it shares no subject: nothing the
      code looks at when the echo of `y` passes. */
  predicate Inverted(s: Scene, x: Event, y: Event) {
    && !SameSubject(x, y)
    && (exists i :: s.base <= i < |s.passed| && s.passed[i] == x)
    && exists p, m :: 0 <= p < m < |s.log| && s.log[p] == y && s.log[m] == x
  }

  /** The rows owe it to the server's order, or to the log's for what is still to be passed, that `x` ran before
      `y`. */
  ghost predicate Owed(s: Scene, x: Event, y: Event)
    requires s.base <= |s.passed|
  {
    && Related(x, y)
    && ((PassedFirst(s, x, y) && !Inverted(s, x, y)) || BasedFirst(s, x, y) || LoggedFirst(s, x, y))
  }

  /** `tr` ran every logged and every passed event, and nothing else. */
  ghost predicate Complete(s: Scene, tr: seq<Event>) {
    forall x :: x in tr <==> x in s.log || x in s.passed
  }

  /** `tr` ran everything, and in the order that is owed, but for what the gap spans. */
  ghost predicate Ordered(s: Scene, tr: seq<Event>, gap: Gap) {
    && WellFormed(s) && Complete(s, tr)
    && forall x, y :: Owed(s, x, y) && !Spans(s, gap, x, y) ==> Before(tr, x, y)
  }

  lemma OwedIsRun(s: Scene, tr: seq<Event>, x: Event, y: Event)
    requires WellFormed(s) && Complete(s, tr) && Owed(s, x, y)
    ensures x in tr && y in tr && x != y
  {
    if BasedFirst(s, x, y) {
      var i :| 0 <= i < s.base && s.passed[..s.base][i] == x;
      assert s.passed[i] == x;
    }
  }

  lemma NoGapSpansNothing(s: Scene, x: Event, y: Event)
    ensures !Spans(s, NoGap, x, y)
  {
  }

  // ------------------------------------------------------------------------ small facts

  lemma InIds(events: seq<Event>, e: Event)
    requires e in events
    ensures e.id in Ids(events)
  {
    var i :| 0 <= i < |events| && events[i] == e;
  }

  lemma IdsOne(e: Event)
    ensures Ids([e]) == {e.id}
  {
    IdsAppend([], e);
    assert [] + [e] == [e];
  }

  lemma FromIds(events: seq<Event>, id: EventId) returns (i: nat)
    requires id in Ids(events)
    ensures i < |events| && events[i].id == id
  {
    i :| 0 <= i < |events| && events[i].id == id;
  }

  lemma IdsSplit(a: seq<Event>, b: seq<Event>)
    ensures Ids(a + b) == Ids(a) + Ids(b)
  {
    var c := a + b;
    forall id ensures id in Ids(c) <==> id in Ids(a) + Ids(b) {
      if id in Ids(a) {
        var i := FromIds(a, id);
        assert c[i].id == id;
      }
      if id in Ids(b) {
        var i := FromIds(b, id);
        assert c[|a| + i].id == id;
      }
      if id in Ids(c) {
        var i := FromIds(c, id);
        assert if i < |a| then c[i] == a[i] else c[i] == b[i - |a|];
      }
    }
  }

  lemma AppendDistinct(a: seq<Event>, b: seq<Event>)
    requires DistinctIds(a) && DistinctIds(b) && Ids(a) !! Ids(b)
    ensures DistinctIds(a + b)
  {
    forall i, j | 0 <= i < j < |a + b| ensures (a + b)[i].id != (a + b)[j].id {
      if i < |a| <= j {
        assert a[i].id in Ids(a) && b[j - |a|].id in Ids(b);
      }
    }
  }

  lemma NotLogged(events: seq<Event>, e: Event)
    requires e.id !in Ids(events)
    ensures e !in events
  {
    if e in events {
      InIds(events, e);
    }
  }

  // ------------------------------------------------------------- a command is logged

  ghost predicate New(s: Scene, batch: seq<Event>) {
    DistinctIds(batch) && Ids(batch) !! Ids(s.log) && Ids(batch) !! Ids(s.passed)
  }

  lemma NewIsNew(s: Scene, batch: seq<Event>, e: Event)
    requires New(s, batch) && e in batch
    ensures e !in s.log && e !in s.passed && Waits(s, e)
  {
    InIds(batch, e);
    NotLogged(s.log, e);
    NotLogged(s.passed, e);
  }

  lemma NotNew(s: Scene, batch: seq<Event>, e: Event)
    requires New(s, batch) && (e in s.log || e in s.passed)
    ensures e !in batch
  {
    if e in batch {
      NewIsNew(s, batch, e);
    }
  }

  lemma SpansLater(s: Scene, s': Scene, gap: Gap, x: Event, y: Event)
    requires s.log <= s'.log && Spans(s, gap, x, y)
    ensures Spans(s', gap, x, y)
  {
    var p, q :| 0 <= p < q < |s.log| && Across(gap, p, q) && s.log[p] == x && s.log[q] == y;
    assert s'.log[p] == x && s'.log[q] == y;
  }

  lemma InvertedLater(s: Scene, s': Scene, x: Event, y: Event)
    requires s.log <= s'.log && s.passed <= s'.passed && s'.base == s.base && Inverted(s, x, y)
    ensures Inverted(s', x, y)
  {
    var i :| s.base <= i < |s.passed| && s.passed[i] == x;
    var p, m :| 0 <= p < m < |s.log| && s.log[p] == y && s.log[m] == x;
    assert s'.passed[i] == x && s'.log[p] == y && s'.log[m] == x;
  }

  lemma InEither(log: seq<Event>, batch: seq<Event>, q: nat)
    requires q < |log + batch|
    ensures q < |log| || (log + batch)[q] in batch
  {
  }

  lemma InFirst(log: seq<Event>, batch: seq<Event>, q: nat)
    requires q < |log + batch|
    ensures |log| <= q || (log + batch)[q] in log
  {
  }

  /** What is owed of events the batch does not hold was owed before. */
  lemma OwedWithoutBatch(s: Scene, batch: seq<Event>, x: Event, y: Event)
    requires New(s, batch) && s.base <= |s.passed| && y !in batch
    requires Owed(s.(log := s.log + batch), x, y)
    ensures Owed(s, x, y) && x !in batch
  {
    hide Related;
    var s' := s.(log := s.log + batch);
    if PassedFirst(s', x, y) && !Inverted(s', x, y) {
      NotNew(s, batch, x);
      if Inverted(s, x, y) { InvertedLater(s, s', x, y); }
    } else if BasedFirst(s', x, y) {
      NotNew(s, batch, x);
    } else {
      var p, q :| 0 <= p < q < |s'.log| && s'.log[p] == x && s'.log[q] == y;
      InEither(s.log, batch, q);
      assert s.log[p] == x && s.log[q] == y;
      NotNew(s, batch, x);
    }
  }

  /** What is owed of an event of the batch is owed by what stood before the batch, or before it in the batch. */
  lemma OwedInBatch(s: Scene, tr: seq<Event>, batch: seq<Event>, x: Event, y: Event)
    requires New(s, batch) && WellFormed(s) && Complete(s, tr) && y in batch
    requires Owed(s.(log := s.log + batch), x, y)
    ensures Before(tr + batch, x, y)
  {
    hide Related, Before;
    var s' := s.(log := s.log + batch);
    NewIsNew(s, batch, y);
    if LoggedFirst(s', x, y) {
      var p, q :| 0 <= p < q < |s'.log| && s'.log[p] == x && s'.log[q] == y;
      LoggedInBatch(s, tr, batch, p, q);
    } else {
      assert x in s.passed;
      NotNew(s, batch, x);
      BeforeAcross(tr, batch, x, y);
    }
  }

  lemma LoggedInBatch(s: Scene, tr: seq<Event>, batch: seq<Event>, p: nat, q: nat)
    requires New(s, batch) && Complete(s, tr) && p < q < |s.log + batch| && (s.log + batch)[q] !in s.log
    ensures Before(tr + batch, (s.log + batch)[p], (s.log + batch)[q])
  {
    hide Before;
    var log := s.log + batch;
    InFirst(s.log, batch, q);
    assert log[q] == batch[q - |s.log|];
    if p < |s.log| {
      assert s.log[p] == log[p];
      NotNew(s, batch, log[p]);
      BeforeAcross(tr, batch, log[p], log[q]);
    } else {
      BeforeByIndex(batch, p - |s.log|, q - |s.log|);
      BeforeSuffix(tr, batch, log[p], log[q]);
    }
  }

  lemma LoggedWellFormed(s: Scene, batch: seq<Event>)
    requires New(s, batch) && WellFormed(s)
    ensures WellFormed(s.(log := s.log + batch))
  {
    AppendDistinct(s.log, batch);
    var log := s.log + batch;
    forall p, i | 0 <= p < |log| && 0 <= i < |s.passed| && log[p].id == s.passed[i].id
      ensures log[p] == s.passed[i]
    {
      if |s.log| <= p { NewIsNew(s, batch, batch[p - |s.log|]); }
    }
  }

  lemma LoggedKeepsOrder(s: Scene, tr: seq<Event>, batch: seq<Event>)
    requires New(s, batch) && Ordered(s, tr, NoGap)
    ensures Ordered(s.(log := s.log + batch), tr + batch, NoGap)
  {
    hide Before, Related, PassedFirst, BasedFirst, LoggedFirst, Inverted;
    var s' := s.(log := s.log + batch);
    LoggedWellFormed(s, batch);
    forall x, y | Owed(s', x, y) ensures Before(tr + batch, x, y) {
      if y in batch {
        OwedInBatch(s, tr, batch, x, y);
      } else {
        OwedWithoutBatch(s, batch, x, y);
        NoGapSpansNothing(s, x, y);
        BeforeUntouched(tr, batch, x, y);
      }
    }
  }

  // ----------------------------------------------- a command runs an event once more

  /** Running an event again moves it behind what its command has yet to run. What else is owed to it was owed to
      the order the command will end with. */
  lemma RerunKeepsOrder(s: Scene, tr: seq<Event>, tail: seq<Event>, gap: Gap)
    requires Ordered(s, tr + tail, NoGap) && Ordered(s, tr, gap)
    requires gap.lo <= gap.mid < gap.hi <= |s.log| && tail == s.log[gap.mid..gap.hi]
    ensures Ordered(s, tr + [s.log[gap.mid]], gap.(mid := gap.mid + 1))
  {
    hide Before, Owed;
    var e, gap' := s.log[gap.mid], gap.(mid := gap.mid + 1);
    assert tail[0] == e && e in s.log;
    forall x, y | Owed(s, x, y) && !Spans(s, gap', x, y) ensures Before(tr + [e], x, y) {
      OwedIsRun(s, tr, x, y);
      BeforeAppend(tr, e, x, y);
      if x == e {
        OwedAfterRerun(s, tr, tail, gap, y);
        assert false;
      } else if y != e {
        SpansShifted(s, gap, x, y);
      }
    }
  }

  /** Whatever the rerun event is owed to run before comes later in its own command. */
  lemma OwedAfterRerun(s: Scene, tr: seq<Event>, tail: seq<Event>, gap: Gap, y: Event)
    requires Ordered(s, tr + tail, NoGap) && gap.lo <= gap.mid < gap.hi <= |s.log| && tail == s.log[gap.mid..gap.hi]
    requires Owed(s, s.log[gap.mid], y)
    ensures Spans(s, gap.(mid := gap.mid + 1), s.log[gap.mid], y)
  {
    hide Before, Owed;
    var e := s.log[gap.mid];
    assert tail[0] == e;
    NoGapSpansNothing(s, e, y);
    BeforeInTail(tr, tail, e, y);
    BeforeMembers(tail, e, y);
    var k :| 0 <= k < |tail| && tail[k] == y;
    assert s.log[gap.mid + k] == y && Across(gap.(mid := gap.mid + 1), gap.mid, gap.mid + k);
  }

  lemma SpansShifted(s: Scene, gap: Gap, x: Event, y: Event)
    requires gap.mid < |s.log| && x != s.log[gap.mid] && y != s.log[gap.mid]
    ensures Spans(s, gap, x, y) ==> Spans(s, gap.(mid := gap.mid + 1), x, y)
  {
    if p, q :| 0 <= p < q < |s.log| && Across(gap, p, q) && s.log[p] == x && s.log[q] == y {
      assert Across(gap.(mid := gap.mid + 1), p, q);
    }
  }

  /** Of a command, `lo..mid` ran again after everything of `mid..` last did. */
  ghost predicate Reversed(tr: seq<Event>, command: seq<Event>, lo: nat, mid: nat) {
    forall a, b | lo <= a < mid <= b < |command| :: Before(tr, command[b], command[a])
  }

  lemma RerunReverses(tr: seq<Event>, command: seq<Event>, lo: nat, mid: nat)
    requires DistinctIds(command) && mid < |command| && Reversed(tr, command, lo, mid)
    requires forall b :: mid <= b < |command| ==> command[b] in tr
    ensures Reversed(tr + [command[mid]], command, lo, mid + 1)
  {
    forall a, b | lo <= a < mid + 1 <= b < |command| ensures Before(tr + [command[mid]], command[b], command[a]) {
      BeforeAppend(tr, command[mid], command[b], command[a]);
      assert command[b].id != command[mid].id;
      assert a < mid ==> command[a].id != command[mid].id;
    }
  }

  lemma LandingKeepsReversed(tr: seq<Event>, command: seq<Event>, lo: nat, mid: nat, r: Event)
    requires Reversed(tr, command, lo, mid) && r !in command
    ensures Reversed(tr + [r], command, lo, mid)
  {
    forall a, b | lo <= a < mid <= b < |command| ensures Before(tr + [r], command[b], command[a]) {
      BeforeAppend(tr, r, command[b], command[a]);
    }
  }

  // ------------------------------------------------------------- an unseen event lands

  function Landed(s: Scene, r: Event): Scene { s.(passed := s.passed + [r], log := s.log + [r]) }

  lemma LandedWellFormed(s: Scene, r: Event)
    requires WellFormed(s) && r.id !in Ids(s.log) && r.id !in Ids(s.passed)
    ensures WellFormed(Landed(s, r))
  {
    IdsOne(r);
    AppendDistinct(s.passed, [r]);
    AppendDistinct(s.log, [r]);
    var log, passed := s.log + [r], s.passed + [r];
    forall p, i | 0 <= p < |log| && 0 <= i < |passed| && log[p].id == passed[i].id
      ensures log[p] == passed[i]
    {
    }
  }

  lemma OwedWithoutLanded(s: Scene, r: Event, x: Event, y: Event)
    requires s.base <= |s.passed| && r !in s.log && r !in s.passed && y != r && Owed(Landed(s, r), x, y)
    ensures Owed(s, x, y) && x != r
  {
    hide Related;
    var s' := Landed(s, r);
    IdsAppend(s.passed, r);
    if PassedFirst(s', x, y) && !Inverted(s', x, y) {
      var i, j :| 0 <= i < j < |s'.passed| && s'.passed[i] == x && s'.passed[j] == y;
      assert s.passed[i] == x && s.passed[j] == y;
      if Inverted(s, x, y) { InvertedLater(s, s', x, y); }
    } else if BasedFirst(s', x, y) {
      assert s'.passed[..s.base] == s.passed[..s.base];
    } else {
      var p, q :| 0 <= p < q < |s'.log| && s'.log[p] == x && s'.log[q] == y;
      assert s.log[p] == x && s.log[q] == y;
    }
  }

  lemma LastOnly(log: seq<Event>, r: Event, p: nat)
    requires p < |log| ==> log[p] != r
    requires p < |log + [r]| && (log + [r])[p] == r
    ensures p == |log|
  {
  }

  lemma OwedToLanded(s: Scene, r: Event, x: Event)
    requires s.base <= |s.passed| && r !in s.log && r !in s.passed && r.id !in Ids(s.log)
    ensures Owed(Landed(s, r), x, r) <==> x in s.passed && Related(x, r)
  {
    var s' := Landed(s, r);
    IdsAppend(s.passed, r);
    assert s'.passed[|s.passed|] == r;
    if x in s.passed {
      var i :| 0 <= i < |s.passed| && s.passed[i] == x;
      assert s'.passed[i] == x;
      forall p | 0 <= p < |s'.log| && s'.log[p] == r ensures p == |s.log| {
        InEither(s.log, [r], p);
        LastOnly(s.log, r, p);
      }
    }
  }

  /** No event a running command has yet to project was passed and is related to what lands. */
  ghost predicate MakesWay(s: Scene, tail: seq<Event>, r: Event) {
    forall e :: e in tail && e in s.passed ==> !Related(e, r)
  }

  /** An event that lands unseen takes its place behind everything passed exactly when no event a running command
      has yet to project (`tail`) belongs before it. */
  lemma LandedKeepsOrderIff(s: Scene, head: seq<Event>, tail: seq<Event>, r: Event, gap: Gap)
    requires Ordered(s, head + tail, gap) && r.id !in Ids(s.log) && r.id !in Ids(s.passed)
    requires gap == NoGap || tail == []
    ensures Ordered(Landed(s, r), head + [r] + tail, gap) <==> MakesWay(s, tail, r)
  {
    hide Before, Owed, Related;
    NotLogged(s.log, r);
    NotLogged(s.passed, r);
    LandedWellFormed(s, r);
    LandedComplete(s, head, tail, r);
    NotInParts(head, tail, r);
    var s', tr' := Landed(s, r), head + [r] + tail;
    if MakesWay(s, tail, r) {
      forall x, y | Owed(s', x, y) && !Spans(s', gap, x, y) ensures Before(tr', x, y) {
        if y == r {
          LandsBehind(s, head, tail, r, x);
        } else {
          OwedWithoutLanded(s, r, x, y);
          if Spans(s, gap, x, y) { SpansLater(s, s', gap, x, y); }
          BeforeInsert(head, r, tail, x, y);
        }
      }
    } else {
      var e :| e in tail && e in s.passed && Related(e, r);
      OwedToLanded(s, r, e);
      NoGapSpansNothing(s', e, r);
      if Before(tr', e, r) {
        BeforeInTail(head + [r], tail, e, r);
        BeforeMembers(tail, e, r);
      }
    }
  }

  lemma LandedComplete(s: Scene, head: seq<Event>, tail: seq<Event>, r: Event)
    requires Complete(s, head + tail)
    ensures Complete(Landed(s, r), head + [r] + tail)
  {
    var s' := Landed(s, r);
    forall x ensures x in head + [r] + tail <==> x in s'.log || x in s'.passed {
      assert x in head + tail <==> x in s.log || x in s.passed;
    }
  }

  lemma LandsBehind(s: Scene, head: seq<Event>, tail: seq<Event>, r: Event, x: Event)
    requires s.base <= |s.passed| && Complete(s, head + tail) && r !in s.log && r !in s.passed && r.id !in Ids(s.log)
    requires MakesWay(s, tail, r) && Owed(Landed(s, r), x, r)
    ensures Before(head + [r] + tail, x, r)
  {
    hide Before, Owed, Related;
    OwedToLanded(s, r, x);
    assert x in head + tail;
    NotInParts(head, tail, r);
    assert x != r;
    BeforeAppend(head, r, x, r);
    BeforeUntouched(head + [r], tail, x, r);
  }

  // ------------------------------------------------------------------- an echo passes

  /** Everything passed since the baseline lies within the first `ordered` logged events. */
  ghost predicate Covered(s: Scene, ordered: nat) {
    forall i | s.base <= i < |s.passed| :: LoggedWithin(s.log, ordered, s.passed[i])
  }

  ghost predicate LoggedWithin(log: seq<Event>, ordered: nat, e: Event) {
    exists m :: 0 <= m < |log| && m < ordered && log[m] == e
  }

  lemma CoveredLater(s: Scene, ordered: nat, log: seq<Event>, ordered': nat)
    requires Covered(s, ordered) && ordered <= ordered' && s.log <= log
    ensures Covered(s.(log := log), ordered')
  {
    forall i | s.base <= i < |s.passed| ensures LoggedWithin(log, ordered', s.passed[i]) {
      assert LoggedWithin(s.log, ordered, s.passed[i]);
      var m :| 0 <= m < |s.log| && m < ordered && s.log[m] == s.passed[i];
      assert log[m] == s.passed[i];
    }
  }

  lemma CoveredNext(s: Scene, ordered: nat, e: Event)
    requires Covered(s, ordered) && LoggedWithin(s.log, ordered, e)
    ensures Covered(s.(passed := s.passed + [e]), ordered)
  {
  }

  lemma OvertakenOnlyBehind(log: seq<Event>, unechoed: set<EventId>, p: nat, ordered: nat, m: nat)
    requires p < |log| && m < |log| && !Overtaken(log, unechoed, p, ordered)
    requires m < ordered && SameSubject(log[p], log[m]) && log[m].id !in unechoed
    ensures m <= p
  {
  }

  /** An echo that was not overtaken is owed nothing that was not owed to it while it waited. */
  lemma OwedToEcho(s: Scene, unechoed: set<EventId>, ordered: nat, p: nat, x: Event, y: Event)
    requires WellFormed(s) && Covered(s, ordered) && unechoed !! Ids(s.passed)
    requires p < |s.log| && Waits(s, s.log[p]) && !Overtaken(s.log, unechoed, p, ordered)
    requires Owed(s.(passed := s.passed + [s.log[p]]), x, y)
    ensures Owed(s, x, y)
  {
    hide Related;
    var z := s.log[p];
    var s' := s.(passed := s.passed + [z]);
    IdsAppend(s.passed, z);
    if PassedFirst(s', x, y) && !Inverted(s', x, y) {
      var i, j :| 0 <= i < j < |s'.passed| && s'.passed[i] == x && s'.passed[j] == y;
      if j < |s.passed| {
        assert s.passed[i] == x && s.passed[j] == y;
        if Inverted(s, x, y) { InvertedLater(s, s', x, y); }
      } else {
        EchoBehindPassed(s, unechoed, ordered, p, i);
      }
    } else if BasedFirst(s', x, y) {
      assert s'.passed[..s.base] == s.passed[..s.base];
    }
  }

  /** What was passed before such an echo was taken in by the last baseline, or logged before it, or is of another
      subject and inverted. */
  lemma EchoBehindPassed(s: Scene, unechoed: set<EventId>, ordered: nat, p: nat, i: nat)
    requires WellFormed(s) && Covered(s, ordered) && unechoed !! Ids(s.passed)
    requires p < |s.log| && Waits(s, s.log[p]) && !Overtaken(s.log, unechoed, p, ordered) && i < |s.passed|
    ensures var x, z := s.passed[i], s.log[p];
            BasedFirst(s, x, z) || LoggedFirst(s, x, z) || Inverted(s.(passed := s.passed + [z]), x, z)
  {
    var x, z := s.passed[i], s.log[p];
    if i < s.base {
      assert s.passed[..s.base][i] == x;
    } else {
      assert LoggedWithin(s.log, ordered, x);
      var m :| 0 <= m < |s.log| && m < ordered && s.log[m] == x;
      assert x.id in Ids(s.passed);
      if SameSubject(z, x) {
        OvertakenOnlyBehind(s.log, unechoed, p, ordered, m);
      }
      assert m != p;
      if p < m {
        var s' := s.(passed := s.passed + [z]);
        assert s'.passed[i] == x && s'.log[p] == z && s'.log[m] == x;
      }
    }
  }

  /** Passing the echo of a logged event that nothing overtook. */
  lemma EchoKeepsOrder(s: Scene, tr: seq<Event>, gap: Gap, unechoed: set<EventId>, ordered: nat, p: nat)
    requires Ordered(s, tr, gap) && Covered(s, ordered) && unechoed !! Ids(s.passed)
    requires p < |s.log| && Waits(s, s.log[p]) && !Overtaken(s.log, unechoed, p, ordered)
    ensures Ordered(s.(passed := s.passed + [s.log[p]]), tr, gap)
  {
    hide Before, Owed, Overtaken;
    var z := s.log[p];
    var s' := s.(passed := s.passed + [z]);
    IdsOne(z);
    AppendDistinct(s.passed, [z]);
    forall x, y | Owed(s', x, y) && !Spans(s', gap, x, y) ensures Before(tr, x, y) {
      OwedToEcho(s, unechoed, ordered, p, x, y);
      assert !Spans(s, gap, x, y);
    }
  }

  // ----------------------------------------------------------------------- a repair

  lemma {:induction false} LocalOnlyMembers(log: seq<Event>, ids: set<EventId>, e: Event)
    ensures e in LocalOnly(log, ids) <==> e in log && e.id !in ids
  {
    if log != [] {
      LocalOnlyMembers(log[..|log| - 1], ids, e);
      assert log == log[..|log| - 1] + [log[|log| - 1]];
    }
  }

  lemma {:induction false} LocalOnlyOrder(log: seq<Event>, ids: set<EventId>, p: nat, q: nat)
    requires DistinctIds(log) && p < q < |log| && log[p].id !in ids && log[q].id !in ids
    ensures Before(LocalOnly(log, ids), log[p], log[q])
  {
    var init, last := log[..|log| - 1], log[|log| - 1];
    var kept := LocalOnly(init, ids);
    if last.id !in ids { BeforeAppend(kept, last, log[p], log[q]); }
    if q < |log| - 1 {
      LocalOnlyOrder(init, ids, p, q);
      assert log[p].id != last.id && log[q].id != last.id;
      assert kept + [] == kept;
    } else {
      LocalOnlyMembers(init, ids, log[p]);
      assert init[p] == log[p];
      assert log[p].id != last.id;
    }
  }

  /** What a repair runs, followed by what a command has yet to run again. */
  function RepairRun(s: Scene, tail: seq<Event>): seq<Event> {
    s.passed + LocalOnly(s.log, Ids(s.passed)) + tail
  }

  /** `tail` is the rest of a command: `log[lo..hi]`, with nothing after it waiting. */
  ghost predicate IsRest(s: Scene, tail: seq<Event>, lo: nat, hi: nat) {
    && lo <= hi <= |s.log| && tail == s.log[lo..hi]
    && (forall q :: hi <= q < |s.log| ==> !Waits(s, s.log[q]))
  }

  /** Whatever an event the command has yet to run again belongs before, the command runs again after it. */
  ghost predicate RunsOn(s: Scene, tail: seq<Event>)
    requires s.base <= |s.passed|
  {
    forall x, y :: Owed(s, x, y) && x in tail ==> Before(tail, x, y)
  }

  lemma RepairComplete(s: Scene, tail: seq<Event>)
    requires SameIdSameEvent(s.log, s.passed) && forall e :: e in tail ==> e in s.log
    ensures Complete(s, RepairRun(s, tail))
  {
    forall x ensures x in RepairRun(s, tail) <==> x in s.log || x in s.passed {
      LocalOnlyMembers(s.log, Ids(s.passed), x);
      if x in s.log && x.id in Ids(s.passed) {
        var i := FromIds(s.passed, x.id);
        var p :| 0 <= p < |s.log| && s.log[p] == x;
        assert s.log[p] == s.passed[i];
      }
    }
  }

  lemma RepairLogOrder(s: Scene, p: nat, q: nat)
    requires WellFormed(s) && p < q < |s.log| && Waits(s, s.log[q])
    ensures Before(RepairRun(s, []), s.log[p], s.log[q])
  {
    hide Before, LocalOnly;
    var ids := Ids(s.passed);
    var local := LocalOnly(s.log, ids);
    assert RepairRun(s, []) == s.passed + local;
    LocalOnlyMembers(s.log, ids, s.log[p]);
    LocalOnlyMembers(s.log, ids, s.log[q]);
    if Waits(s, s.log[p]) {
      LocalOnlyOrder(s.log, ids, p, q);
      BeforeSuffix(s.passed, local, s.log[p], s.log[q]);
    } else {
      var i := FromIds(s.passed, s.log[p].id);
      assert s.log[p] == s.passed[i];
      BeforeAcross(s.passed, local, s.log[p], s.log[q]);
    }
  }

  /** Before any command runs again, a repair leaves in place everything that is owed. */
  lemma RepairOwed(s: Scene, x: Event, y: Event)
    requires WellFormed(s) && Owed(s, x, y)
    ensures Before(RepairRun(s, []), x, y)
  {
    hide Before, LocalOnly, Related;
    var ids := Ids(s.passed);
    var local := LocalOnly(s.log, ids);
    assert RepairRun(s, []) == s.passed + local;
    LocalOnlyMembers(s.log, ids, x);
    LocalOnlyMembers(s.log, ids, y);
    if PassedFirst(s, x, y) {
      var i, j :| 0 <= i < j < |s.passed| && s.passed[i] == x && s.passed[j] == y;
      BeforeByIndex(s.passed, i, j);
      BeforeUntouched(s.passed, local, x, y);
    } else if BasedFirst(s, x, y) {
      var i :| 0 <= i < s.base && s.passed[..s.base][i] == x;
      assert s.passed[i] == x;
      BeforeAcross(s.passed, local, x, y);
    } else {
      var p, q :| 0 <= p < q < |s.log| && s.log[p] == x && s.log[q] == y;
      RepairLogOrder(s, p, q);
    }
  }

  /** A repair puts everything in its place, whatever the rows were before. Of a command it overlaps that will run
      its rest again, exactly when nothing that rest belongs before stays behind. */
  lemma RepairOrdersIff(s: Scene, tail: seq<Event>, lo: nat, hi: nat)
    requires WellFormed(s) && s.base == |s.passed| && IsRest(s, tail, lo, hi)
    ensures Ordered(s, RepairRun(s, tail), NoGap) <==> RunsOn(s, tail)
  {
    hide Before, Owed, LocalOnly;
    var run := RepairRun(s, []);
    assert RepairRun(s, tail) == run + tail;
    RepairComplete(s, tail);
    if RunsOn(s, tail) {
      forall x, y | Owed(s, x, y) ensures Before(run + tail, x, y) {
        if x in tail {
          BeforeSuffix(run, tail, x, y);
        } else {
          RepairOwed(s, x, y);
          BeforeMembers(run, x, y);
          if y in tail {
            BeforeAcross(run, tail, x, y);
          } else {
            BeforeUntouched(run, tail, x, y);
          }
        }
      }
    }
    if Ordered(s, run + tail, NoGap) {
      forall x, y | Owed(s, x, y) && x in tail ensures Before(tail, x, y) {
        NoGapSpansNothing(s, x, y);
        BeforeInTail(run, tail, x, y);
      }
    }
  }
}

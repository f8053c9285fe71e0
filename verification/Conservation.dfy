/** Nothing a local command made is ever lost, doubled or renumbered on its way out. */
module Conservation {
  import opened Events
  import opened Outbox
  import opened Delivery

  function OwnCount(entries: seq<Entry>, device: DeviceId): nat {
    if entries == [] then 0
    else OwnCount(entries[..|entries| - 1], device) + if entries[|entries| - 1].device == device then 1 else 0
  }

  /** Each entry of the device carries the number of its entries so far. */
  ghost predicate Numbered(entries: seq<Entry>, device: DeviceId) {
    forall i | 0 <= i < |entries| && entries[i].device == device :: entries[i].originSeq == OwnCount(entries[..i], device) + 1
  }

  lemma {:induction false} LastIsCount(entries: seq<Entry>, device: DeviceId)
    requires Numbered(entries, device)
    ensures LastOriginSeq(entries, device) == OwnCount(entries, device)
  {
    if entries != [] {
      var init := entries[..|entries| - 1];
      assert forall i :: 0 <= i < |init| ==> init[..i] == entries[..i] && init[i] == entries[i];
      LastIsCount(init, device);
    }
  }

  lemma EnqueueNumbers(q: Queue, seq_: nat, event: Event)
    requires Numbered(q.entries, q.device)
    ensures Numbered(EnqueueNext(q, seq_, event).entries, q.device)
  {
    hide LastOriginSeq;
    var entries := EnqueueNext(q, seq_, event).entries;
    LastIsCount(q.entries, q.device);
    assert forall i :: 0 <= i <= |q.entries| ==> entries[..i] == q.entries[..i];
    assert q.entries[..|q.entries|] == q.entries;
  }

  predicate IsNumber(entries: seq<Entry>, device: DeviceId, n: nat) {
    exists i :: 0 <= i < |entries| && entries[i].device == device && entries[i].originSeq == n
  }

  /** The numbers run from 1 without a gap or a repeat, in the order the entries were queued. */
  lemma NumbersRunFromOne(entries: seq<Entry>, device: DeviceId)
    requires Numbered(entries, device)
    ensures forall i, k | 0 <= i < k < |entries| && entries[i].device == device && entries[k].device == device ::
              entries[i].originSeq < entries[k].originSeq
    ensures forall n | 1 <= n <= OwnCount(entries, device) :: IsNumber(entries, device, n)
  {
    forall i, k | 0 <= i < k < |entries| && entries[i].device == device && entries[k].device == device
      ensures entries[i].originSeq < entries[k].originSeq
    {
      CountGrows(entries, device, i + 1, k);
      assert entries[..i + 1][..i] == entries[..i];
    }
    forall n | 1 <= n <= OwnCount(entries, device) ensures IsNumber(entries, device, n) {
      var i := NumberedAs(entries, device, n);
    }
  }

  lemma {:induction false} CountGrows(entries: seq<Entry>, device: DeviceId, a: nat, b: nat)
    requires a <= b <= |entries|
    ensures OwnCount(entries[..a], device) <= OwnCount(entries[..b], device)
    decreases b - a
  {
    if a < b {
      CountGrows(entries, device, a, b - 1);
      assert entries[..b][..b - 1] == entries[..b - 1];
    }
  }

  lemma {:induction false} NumberedAs(entries: seq<Entry>, device: DeviceId, n: nat) returns (i: nat)
    requires Numbered(entries, device) && 1 <= n <= OwnCount(entries, device)
    ensures i < |entries| && entries[i].device == device && entries[i].originSeq == n
  {
    var last := |entries| - 1;
    var init := entries[..last];
    if entries[last].device == device && n == OwnCount(init, device) + 1 {
      i := last;
    } else {
      assert forall k :: 0 <= k < last ==> init[..k] == entries[..k] && init[k] == entries[k];
      i := NumberedAs(init, device, n);
    }
  }

  // --------------------------------------------------------------------- over every run

  /** What no step takes from the queue. */
  ghost predicate Kept(q: Queue, q': Queue) {
    && q'.device == q.device && Queued(q.entries) <= Queued(q'.entries) && |q.entries| <= |q'.entries|
    && (Numbered(q.entries, q.device) ==> Numbered(q'.entries, q'.device))
    && (forall i :: 0 <= i < |q.entries| ==> (q.entries[i].flushed ==> q'.entries[i].flushed))
  }

  lemma EnqueueKept(q: Queue, seq_: nat, event: Event)
    ensures Kept(q, EnqueueNext(q, seq_, event)) && event.id in Queued(EnqueueNext(q, seq_, event).entries)
  {
    hide LastOriginSeq;
    var q' := EnqueueNext(q, seq_, event);
    QueuedGrows(q.entries, q'.entries[|q.entries|]);
    if Numbered(q.entries, q.device) {
      EnqueueNumbers(q, seq_, event);
    }
  }

  lemma {:induction false} AppendKept(q: Queue, batch: seq<Event>)
    ensures Kept(q, Appended(q, batch)) && Ids(batch) <= Queued(Appended(q, batch).entries)
  {
    hide EnqueueNext, Numbered;
    if batch == [] {
      assert Ids(batch) == {};
    } else {
      var n := |batch| - 1;
      var before := Appended(q, batch[..n]);
      AppendKept(q, batch[..n]);
      var logged := before.(log := before.log + [LogRow(batch[n], None, true)],
                            unprojected := before.unprojected + {batch[n].id},
                            unechoed := before.unechoed + {batch[n].id});
      EnqueueKept(logged, |before.log| + 1, batch[n]);
      SplitIds(batch);
    }
  }

  lemma {:induction false} RestoredKept(q: Queue, serverIds: set<EventId>, upTo: nat)
    requires upTo <= |q.log|
    ensures Kept(q, Restored(q, serverIds, upTo))
  {
    hide EnqueueNext, Numbered;
    if upTo > 0 {
      RestoredKept(q, serverIds, upTo - 1);
      EnqueueKept(Restored(q, serverIds, upTo - 1), upTo, q.log[upTo - 1].event);
    }
  }

  lemma MarkKept(q: Queue, id: nat)
    ensures Kept(q, MarkFlushed(q, id))
  {
    var q' := MarkFlushed(q, id);
    MarkExtends(q, id);
    if Numbered(q.entries, q.device) {
      forall i | 0 <= i < |q'.entries| && q'.entries[i].device == q.device
        ensures q'.entries[i].originSeq == OwnCount(q'.entries[..i], q.device) + 1
      {
        SameCount(q.entries[..i], q'.entries[..i], q.device);
      }
    }
  }

  lemma {:induction false} SameCount(a: seq<Entry>, b: seq<Entry>, device: DeviceId)
    requires |a| == |b| && forall i :: 0 <= i < |a| ==> a[i].device == b[i].device
    ensures OwnCount(a, device) == OwnCount(b, device)
  {
    if a != [] {
      SameCount(a[..|a| - 1], b[..|b| - 1], device);
    }
  }

  lemma StepKept(s: Site, step: Step)
    requires Enabled(s, step)
    ensures Kept(s.q, Do(s, step).q)
    ensures step.Append? ==> Ids(step.batch) <= Queued(Do(s, step).q.entries)
  {
    hide Numbered, Sendable, Restored, Appended, MarkFlushed;
    match step
    case Append(batch) => AppendKept(s.q, batch);
    case Restore(read) => RestoredKept(s.q, Stamped(s.server[..read]), |s.q.log|);
    case Mark(flush) => MarkKept(s.q, s.flushes[flush][0]);
    case _ =>
  }

  lemma KeptBoth(a: Queue, b: Queue, c: Queue)
    requires Kept(a, b) && Kept(b, c)
    ensures Kept(a, c)
  {
  }

  lemma {:induction false} RunKept(s: Site, steps: seq<Step>)
    requires Possible(s, steps)
    ensures Kept(s.q, Run(s, steps).q)
    ensures forall i :: 0 <= i < |steps| && steps[i].Append? ==> Ids(steps[i].batch) <= Queued(Run(s, steps).q.entries)
    decreases |steps|
  {
    hide Numbered, Do;
    if steps != [] {
      var next := Do(s, steps[0]);
      StepKept(s, steps[0]);
      RunKept(next, steps[1..]);
      KeptBoth(s.q, next.q, Run(s, steps).q);
      assert forall i :: 0 < i < |steps| ==> steps[1..][i - 1] == steps[i];
    }
  }

  /** Over every run: each event of each local command has an entry and no event has two; what is flushed
      stays flushed and is on the server; and this device's entries are numbered 1, 2, 3 and so on. */
  lemma OutboxConservation(start: Site, steps: seq<Step>)
    requires Start(start) && Possible(start, steps) && Numbered(start.q.entries, start.q.device)
    ensures
      var q := Run(start, steps).q;
      && (forall i :: 0 <= i < |steps| && steps[i].Append? ==> Ids(steps[i].batch) <= Queued(q.entries))
      && (forall i, k :: 0 <= i < k < |q.entries| ==> q.entries[i].event.id != q.entries[k].event.id)
      && (forall i :: 0 <= i < |q.entries| && q.entries[i].flushed ==>
            q.entries[i].event.id in Stamped(Run(start, steps).server))
      && Numbered(q.entries, q.device)
  {
    hide Numbered;
    RunKept(start, steps);
    RunKeepsInv(start, steps);
  }

  // -------------------------------------------------------------------- with one flusher

  /** No flush starts before the one before it is over. */
  ghost predicate OneFlusher(s: Site, steps: seq<Step>)
    requires Possible(s, steps)
    decreases |steps|
  {
    steps == [] ||
    ((steps[0].FlushStart? ==> s.flushes == map[]) && OneFlusher(Do(s, steps[0]), steps[1..]))
  }

  /** Everything a flush has still to send is pending, and nothing is both flushed and refused. */
  ghost predicate Undisputed(s: Site) {
    && (forall i :: i in s.q.rejected ==> i < |s.q.entries| && !s.q.entries[i].flushed)
    && (forall f, g | f in s.flushes && g in s.flushes :: f == g)
    && (forall f | f in s.flushes ::
          && (forall k :: 0 <= k < |s.flushes[f]| ==> IsPending(s.q, s.flushes[f][k]))
          && (forall k, l :: 0 <= k < l < |s.flushes[f]| ==> s.flushes[f][k] != s.flushes[f][l]))
  }

  lemma PendingGrows(s: Site, q': Queue)
    requires Undisputed(s) && |s.q.entries| <= |q'.entries| && q'.rejected == s.q.rejected
    requires forall i :: 0 <= i < |s.q.entries| ==> q'.entries[i].flushed == s.q.entries[i].flushed
    ensures Undisputed(s.(q := q'))
  {
  }

  lemma {:induction false} AppendedFlags(q: Queue, batch: seq<Event>)
    ensures var q' := Appended(q, batch);
            |q.entries| <= |q'.entries| && q'.rejected == q.rejected
            && forall i :: 0 <= i < |q.entries| ==> q'.entries[i].flushed == q.entries[i].flushed
  {
    hide LastOriginSeq;
    if batch != [] {
      AppendedFlags(q, batch[..|batch| - 1]);
    }
  }

  lemma {:induction false} RestoredFlags(q: Queue, serverIds: set<EventId>, upTo: nat)
    requires upTo <= |q.log|
    ensures var q' := Restored(q, serverIds, upTo);
            |q.entries| <= |q'.entries| && q'.rejected == q.rejected
            && forall i :: 0 <= i < |q.entries| ==> q'.entries[i].flushed == q.entries[i].flushed
  {
    hide LastOriginSeq;
    if upTo > 0 {
      RestoredFlags(q, serverIds, upTo - 1);
    }
  }

  lemma FlushKeepsUndisputed(s: Site, flush: nat, limit: nat)
    requires Undisputed(s) && Enabled(s, FlushStart(flush, limit)) && s.flushes == map[]
    ensures Undisputed(Do(s, FlushStart(flush, limit)))
  {
    hide Sendable, HeldTasks, WaitsForHeld;
    SendableOldestFirst(s.q, limit);
    var ids := Sendable(s.q, limit);
    assert forall k :: 0 <= k < |ids| ==> ids[k] in ids;
  }

  lemma TurnKeepsUndisputed(s: Site, step: Step)
    requires Undisputed(s) && Enabled(s, step) && (step.Mark? || step.Refuse?)
    ensures Undisputed(Do(s, step))
  {
    hide Stamped;
    var s', flush := Do(s, step), step.flush;
    var ids := s.flushes[flush];
    assert IsPending(s.q, ids[0]);
    assert s'.flushes[flush] == ids[1..];
    forall k | 0 <= k < |ids[1..]| ensures IsPending(s'.q, ids[1..][k]) {
      assert IsPending(s.q, ids[k + 1]) && ids[0] != ids[k + 1];
    }
  }

  lemma RestKeepsUndisputed(s: Site, step: Step)
    requires Undisputed(s) && Enabled(s, step)
    requires step.Incoming? || step.Elsewhere? || step.ScanStart? || step.ScanEnd? || step.Accept? || step.Stop? || step.Requeue?
    ensures Undisputed(Do(s, step))
  {
    hide Stamped, Candidates;
  }

  lemma StepKeepsUndisputed(s: Site, step: Step)
    requires Undisputed(s) && Enabled(s, step) && (step.FlushStart? ==> s.flushes == map[])
    ensures Undisputed(Do(s, step))
  {
    hide Undisputed, Sendable, Appended, Restored, Stamped;
    match step
    case Append(batch) =>
      AppendedFlags(s.q, batch);
      PendingGrows(s, Appended(s.q, batch));
      assert Do(s, step) == s.(q := Appended(s.q, batch));
    case Restore(read) =>
      RestoredFlags(s.q, Stamped(s.server[..read]), |s.q.log|);
      PendingGrows(s, RestoreLost(s.q, Stamped(s.server[..read])));
      assert Do(s, step) == s.(q := RestoreLost(s.q, Stamped(s.server[..read])));
    case FlushStart(flush, limit) => FlushKeepsUndisputed(s, flush, limit);
    case Mark(_) => TurnKeepsUndisputed(s, step);
    case Refuse(_, _) => TurnKeepsUndisputed(s, step);
    case _ => RestKeepsUndisputed(s, step);
  }

  lemma {:induction false} RunKeepsUndisputed(s: Site, steps: seq<Step>)
    requires Undisputed(s) && Possible(s, steps) && OneFlusher(s, steps)
    ensures Undisputed(Run(s, steps))
    decreases |steps|
  {
    hide Do, Undisputed;
    if steps != [] {
      StepKeepsUndisputed(s, steps[0]);
      RunKeepsUndisputed(Do(s, steps[0]), steps[1..]);
    }
  }

  /** With one flusher at a time each entry is in exactly one place: waiting, delivered, or refused. */
  lemma EachEntryInOnePlace(start: Site, steps: seq<Step>, i: nat)
    requires Undisputed(start) && Possible(start, steps) && OneFlusher(start, steps)
    requires i < |Run(start, steps).q.entries|
    ensures
      var q := Run(start, steps).q;
      && (IsPending(q, i) || q.entries[i].flushed || i in q.rejected)
      && !(q.entries[i].flushed && i in q.rejected)
      && (IsPending(q, i) ==> !q.entries[i].flushed && i !in q.rejected)
  {
    RunKeepsUndisputed(start, steps);
  }
}

/** The outbox: events of local commands on their way to the server, and events an older binary may have
    left off it. */
module Outbox {
  import opened Events
  import opened Sets

  type DeviceId = nat

  /** A row of the local log: `log[i]` has seq `i + 1`. Incoming events keep the device they came from. */
  datatype LogRow = LogRow(event: Event, origin: Option<DeviceId>, byUser: bool)

  /** A row of the outbox. Its id is its index: entries are never deleted. */
  datatype Entry = Entry(device: DeviceId, originSeq: nat, seq_: nat, event: Event, flushed: bool)

  datatype Refusal = Refusal(status: nat, code: string)

  datatype Queue = Queue(
    device: DeviceId,
    log: seq<LogRow>,
    entries: seq<Entry>,
    rejected: map<nat, Refusal>,
    unconfirmed: set<EventId>,
    logChecked: bool,
    unprojected: set<EventId>,
    unechoed: set<EventId>)

  // ------------------------------------------------------------------------- committing

  function Greatest(a: nat, b: nat): nat { if a < b then b else a }

  function LastOriginSeq(entries: seq<Entry>, device: DeviceId): nat {
    if entries == [] then 0
    else
      var n := |entries| - 1;
      var before := LastOriginSeq(entries[..n], device);
      if entries[n].device == device then Greatest(before, entries[n].originSeq) else before
  }

  /** A new entry for the event logged at `seq_`, numbered next after the device's last. */
  function EnqueueNext(q: Queue, seq_: nat, event: Event): Queue {
    q.(entries := q.entries + [Entry(q.device, LastOriginSeq(q.entries, q.device) + 1, seq_, event, false)])
  }

  function AppendOne(q: Queue, event: Event): Queue {
    EnqueueNext(q.(log := q.log + [LogRow(event, None, true)],
                   unprojected := q.unprojected + {event.id},
                   unechoed := q.unechoed + {event.id}),
                |q.log| + 1, event)
  }

  /** One local command: its events, their entries and their marks commit together. */
  function Appended(q: Queue, batch: seq<Event>): Queue {
    if batch == [] then q else AppendOne(Appended(q, batch[..|batch| - 1]), batch[|batch| - 1])
  }

  predicate LoggedAndQueued(row: LogRow, entry: Entry, device: DeviceId, seq_: nat, event: Event) {
    && row == LogRow(event, None, true)
    && entry.event == event && entry.device == device && entry.seq_ == seq_ && !entry.flushed
  }

  /** What a committed command leaves: its events at the end of the log as this device's own, an entry for each that
      knows where it was logged, and each marked as still to be projected and echoed. */
  lemma NothingAppended(q: Queue)
    ensures Appended(q, []) == q
  {
  }

  lemma AppendedNext(q: Queue, batch: seq<Event>, i: nat)
    requires i < |batch|
    ensures Appended(q, batch[..i + 1]) == AppendOne(Appended(q, batch[..i]), batch[i])
  {
    hide AppendOne;
    assert batch[..i + 1][..i] == batch[..i];
  }

  lemma {:induction false} AppendedIs(q: Queue, batch: seq<Event>)
    ensures var q' := Appended(q, batch);
            && q' == q.(log := q'.log, entries := q'.entries, unprojected := q'.unprojected, unechoed := q'.unechoed)
            && q'.unprojected == q.unprojected + Ids(batch) && q'.unechoed == q.unechoed + Ids(batch)
            && |q'.log| == |q.log| + |batch| && |q'.entries| == |q.entries| + |batch|
            && q.log <= q'.log && q.entries <= q'.entries
            && forall k :: 0 <= k < |batch| ==>
                 LoggedAndQueued(q'.log[|q.log| + k], q'.entries[|q.entries| + k], q.device, |q.log| + k + 1, batch[k])
  {
    hide LastOriginSeq, Ids;
    if batch == [] {
      NoIds(batch);
    } else {
      var init, last := batch[..|batch| - 1], batch[|batch| - 1];
      AppendedIs(q, init);
      assert batch == init + [last];
      IdsAppend(init, last);
      var before, q' := Appended(q, init), Appended(q, batch);
      forall k | 0 <= k < |batch|
        ensures LoggedAndQueued(q'.log[|q.log| + k], q'.entries[|q.entries| + k], q.device, |q.log| + k + 1, batch[k])
      {
        if k < |init| {
          assert batch[k] == init[k] && q'.log[|q.log| + k] == before.log[|q.log| + k]
              && q'.entries[|q.entries| + k] == before.entries[|q.entries| + k];
        }
      }
    }
  }

  // ---------------------------------------------------------------------------- sending

  predicate IsPending(q: Queue, id: nat) {
    id < |q.entries| && !q.entries[id].flushed && id !in q.rejected
  }

  /** By place in the log, then by device and number. */
  predicate GoesFirst(a: Entry, b: Entry) {
    || a.seq_ < b.seq_
    || (a.seq_ == b.seq_ && (a.device < b.device || (a.device == b.device && a.originSeq <= b.originSeq)))
  }

  predicate AreEntries(entries: seq<Entry>, ids: seq<nat>) {
    forall k :: 0 <= k < |ids| ==> ids[k] < |entries|
  }

  predicate InSendOrder(entries: seq<Entry>, ids: seq<nat>)
    requires AreEntries(entries, ids)
  {
    forall k, l :: 0 <= k < l < |ids| ==> ids[k] != ids[l] && GoesFirst(entries[ids[k]], entries[ids[l]])
  }

  function Insert(entries: seq<Entry>, ids: seq<nat>, id: nat): (r: seq<nat>)
    requires id < |entries| && AreEntries(entries, ids)
    ensures AreEntries(entries, r)
  {
    if ids == [] then [id]
    else
      var last := ids[|ids| - 1];
      if GoesFirst(entries[last], entries[id]) then ids + [id]
      else Insert(entries, ids[..|ids| - 1], id) + [last]
  }

  lemma {:induction false} InsertMembers(entries: seq<Entry>, ids: seq<nat>, id: nat, x: nat)
    requires id < |entries| && AreEntries(entries, ids)
    ensures x in Insert(entries, ids, id) <==> x in ids || x == id
  {
    if ids != [] {
      var last := ids[|ids| - 1];
      assert ids == ids[..|ids| - 1] + [last];
      InsertMembers(entries, ids[..|ids| - 1], id, x);
    }
  }

  lemma {:induction false} InsertKeepsOrder(entries: seq<Entry>, ids: seq<nat>, id: nat)
    requires id < |entries| && AreEntries(entries, ids) && InSendOrder(entries, ids) && id !in ids
    ensures InSendOrder(entries, Insert(entries, ids, id))
  {
    if ids != [] {
      var last := ids[|ids| - 1];
      if GoesFirst(entries[last], entries[id]) {
        forall k, l | 0 <= k < l < |ids| + 1
          ensures (ids + [id])[k] != (ids + [id])[l] && GoesFirst(entries[(ids + [id])[k]], entries[(ids + [id])[l]])
        {
          if l == |ids| && k < |ids| - 1 {
            assert GoesFirst(entries[ids[k]], entries[last]);
          }
        }
      } else {
        var front := ids[..|ids| - 1];
        InsertKeepsOrder(entries, front, id);
        var r := Insert(entries, front, id);
        forall k, l | 0 <= k < l < |r| + 1
          ensures (r + [last])[k] != (r + [last])[l] && GoesFirst(entries[(r + [last])[k]], entries[(r + [last])[l]])
        {
          if l == |r| {
            InsertMembers(entries, front, id, r[k]);
            assert r[k] in r;
            if r[k] != id {
              var m :| 0 <= m < |front| && front[m] == r[k];
              assert ids[m] == r[k];
            }
          }
        }
      }
    }
  }

  function Pending(q: Queue, upTo: nat): (ids: seq<nat>)
    requires upTo <= |q.entries|
    ensures AreEntries(q.entries, ids)
  {
    if upTo == 0 then []
    else
      var before := Pending(q, upTo - 1);
      if IsPending(q, upTo - 1) then Insert(q.entries, before, upTo - 1) else before
  }

  lemma {:induction false} PendingMembers(q: Queue, upTo: nat, x: nat)
    requires upTo <= |q.entries|
    ensures x in Pending(q, upTo) <==> x < upTo && IsPending(q, x)
  {
    if upTo > 0 {
      PendingMembers(q, upTo - 1, x);
      if IsPending(q, upTo - 1) {
        InsertMembers(q.entries, Pending(q, upTo - 1), upTo - 1, x);
      }
    }
  }

  lemma {:induction false} PendingInOrder(q: Queue, upTo: nat)
    requires upTo <= |q.entries|
    ensures InSendOrder(q.entries, Pending(q, upTo))
  {
    if upTo > 0 {
      PendingInOrder(q, upTo - 1);
      if IsPending(q, upTo - 1) {
        PendingMembers(q, upTo - 1, upTo - 1);
        InsertKeepsOrder(q.entries, Pending(q, upTo - 1), upTo - 1);
      }
    }
  }

  predicate Holds(row: LogRow, unconfirmed: set<EventId>) {
    row.event.id in unconfirmed && row.event.payload.TargetTask().Some?
  }

  /** For each task with an event on record as unconfirmed, the log position of the earliest such event. */
  function HeldTasks(log: seq<LogRow>, unconfirmed: set<EventId>): map<TaskId, nat> {
    if log == [] then map[]
    else
      var n := |log| - 1;
      var before := HeldTasks(log[..n], unconfirmed);
      if Holds(log[n], unconfirmed) && log[n].event.payload.TargetTask().value !in before
      then before[log[n].event.payload.TargetTask().value := n + 1]
      else before
  }

  /** A task is held from its first held event on. */
  lemma {:induction false} HeldFrom(log: seq<LogRow>, unconfirmed: set<EventId>, p: nat)
    requires p < |log| && Holds(log[p], unconfirmed)
    ensures var t := log[p].event.payload.TargetTask().value;
            t in HeldTasks(log, unconfirmed) && HeldTasks(log, unconfirmed)[t] <= p + 1
  {
    if p < |log| - 1 {
      HeldFrom(log[..|log| - 1], unconfirmed, p);
    } else {
      HeldBy(log[..p], unconfirmed, log[p].event.payload.TargetTask().value);
    }
  }

  lemma {:induction false} HeldBy(log: seq<LogRow>, unconfirmed: set<EventId>, t: TaskId)
    ensures t in HeldTasks(log, unconfirmed) ==>
              var n := HeldTasks(log, unconfirmed)[t];
              1 <= n <= |log| && Holds(log[n - 1], unconfirmed) && log[n - 1].event.payload.TargetTask() == Some(t)
  {
    if log != [] {
      HeldBy(log[..|log| - 1], unconfirmed, t);
    }
  }

  predicate WaitsForHeld(held: map<TaskId, nat>, entry: Entry) {
    var task := entry.event.payload.TargetTask();
    task.Some? && task.value in held && entry.seq_ > held[task.value]
  }

  function NotHeld(entries: seq<Entry>, held: map<TaskId, nat>, ids: seq<nat>): (r: seq<nat>)
    requires AreEntries(entries, ids)
    ensures AreEntries(entries, r)
  {
    if ids == [] then []
    else
      var n := |ids| - 1;
      var before := NotHeld(entries, held, ids[..n]);
      if WaitsForHeld(held, entries[ids[n]]) then before else before + [ids[n]]
  }

  lemma {:induction false} NotHeldMembers(entries: seq<Entry>, held: map<TaskId, nat>, ids: seq<nat>, x: nat)
    requires AreEntries(entries, ids)
    ensures x in NotHeld(entries, held, ids) <==> x in ids && x < |entries| && !WaitsForHeld(held, entries[x])
  {
    if ids != [] {
      assert ids == ids[..|ids| - 1] + [ids[|ids| - 1]];
      NotHeldMembers(entries, held, ids[..|ids| - 1], x);
    }
  }

  lemma {:induction false} NotHeldInOrder(entries: seq<Entry>, held: map<TaskId, nat>, ids: seq<nat>)
    requires AreEntries(entries, ids) && InSendOrder(entries, ids)
    ensures InSendOrder(entries, NotHeld(entries, held, ids))
  {
    if ids != [] {
      var n := |ids| - 1;
      var before := NotHeld(entries, held, ids[..n]);
      NotHeldInOrder(entries, held, ids[..n]);
      forall k | 0 <= k < |before| ensures before[k] != ids[n] && GoesFirst(entries[before[k]], entries[ids[n]]) {
        NotHeldMembers(entries, held, ids[..n], before[k]);
        assert before[k] in before;
        var m :| 0 <= m < n && ids[..n][m] == before[k];
        assert ids[m] == before[k];
      }
    }
  }

  function Take(ids: seq<nat>, limit: nat): seq<nat> {
    if Greatest(limit, 1) < |ids| then ids[..Greatest(limit, 1)] else ids
  }

  /** The entries the next flush sends, in this order. */
  function Sendable(q: Queue, limit: nat): (ids: seq<nat>)
    ensures AreEntries(q.entries, ids)
  {
    Take(NotHeld(q.entries, HeldTasks(q.log, q.unconfirmed), Pending(q, |q.entries|)), limit)
  }

  /** What may go out goes out oldest first, and everything older that may go out goes with it. */
  lemma SendableOldestFirst(q: Queue, limit: nat)
    ensures InSendOrder(q.entries, Sendable(q, limit))
    ensures forall id :: id in Sendable(q, limit) ==>
              IsPending(q, id) && !WaitsForHeld(HeldTasks(q.log, q.unconfirmed), q.entries[id])
    ensures forall k: nat, id: nat | k < |Sendable(q, limit)| && IsPending(q, id)
                && !WaitsForHeld(HeldTasks(q.log, q.unconfirmed), q.entries[id])
                && q.entries[id].seq_ < q.entries[Sendable(q, limit)[k]].seq_ ::
              id in Sendable(q, limit)[..k]
  {
    hide HeldTasks, WaitsForHeld, Pending, NotHeld;
    var held := HeldTasks(q.log, q.unconfirmed);
    var pending := Pending(q, |q.entries|);
    var free := NotHeld(q.entries, held, pending);
    PendingInOrder(q, |q.entries|);
    NotHeldInOrder(q.entries, held, pending);
    var ids := Sendable(q, limit);
    forall id | id in ids ensures IsPending(q, id) && !WaitsForHeld(held, q.entries[id]) {
      NotHeldMembers(q.entries, held, pending, id);
      PendingMembers(q, |q.entries|, id);
    }
    forall k: nat, id: nat | k < |ids| && IsPending(q, id) && !WaitsForHeld(held, q.entries[id])
                   && q.entries[id].seq_ < q.entries[ids[k]].seq_
      ensures id in ids[..k]
    {
      NotHeldMembers(q.entries, held, pending, id);
      PendingMembers(q, |q.entries|, id);
      var m :| 0 <= m < |free| && free[m] == id;
      assert free[k] == ids[k];
      assert m < k by {
        assert !GoesFirst(q.entries[free[k]], q.entries[free[m]]);
      }
      assert ids[..k][m] == id;
    }
  }

  /** An event of the entry's task that is on record as unconfirmed was logged before it. */
  predicate Held(q: Queue, entry: Entry) {
    exists p :: 0 <= p < |q.log| && p + 1 < entry.seq_ && q.log[p].event.id in q.unconfirmed
      && q.log[p].event.payload.TargetTask().Some?
      && q.log[p].event.payload.TargetTask() == entry.event.payload.TargetTask()
  }

  lemma HeldIffWaits(q: Queue, entry: Entry)
    ensures WaitsForHeld(HeldTasks(q.log, q.unconfirmed), entry) <==> Held(q, entry)
  {
    var held, task := HeldTasks(q.log, q.unconfirmed), entry.event.payload.TargetTask();
    if WaitsForHeld(held, entry) {
      HeldBy(q.log, q.unconfirmed, task.value);
      assert Held(q, entry) by { assert 0 <= held[task.value] - 1 < |q.log|; }
    }
    if Held(q, entry) {
      var p :| 0 <= p < |q.log| && p + 1 < entry.seq_ && q.log[p].event.id in q.unconfirmed
        && q.log[p].event.payload.TargetTask().Some?
        && q.log[p].event.payload.TargetTask() == entry.event.payload.TargetTask();
      HeldFrom(q.log, q.unconfirmed, p);
    }
  }

  /** How much goes out: as much as the limit lets, and all that may when there is no more than that. */
  lemma SendableFillsUp(q: Queue, limit: nat)
    ensures var most := if limit == 0 then 1 else limit;
            && |Sendable(q, limit)| <= most
            && (|Sendable(q, limit)| < most ==>
                  forall id: nat :: id < |q.entries| && !q.entries[id].flushed && id !in q.rejected && !Held(q, q.entries[id])
                    ==> id in Sendable(q, limit))
  {
    hide HeldTasks, WaitsForHeld, Pending, NotHeld, Held;
    var held, pending := HeldTasks(q.log, q.unconfirmed), Pending(q, |q.entries|);
    var free := NotHeld(q.entries, held, pending);
    forall id: nat | id < |q.entries| && !q.entries[id].flushed && id !in q.rejected && !Held(q, q.entries[id]) ensures id in free {
      HeldIffWaits(q, q.entries[id]);
      PendingMembers(q, |q.entries|, id);
      NotHeldMembers(q.entries, held, pending, id);
    }
  }

  lemma SendableIsFree(q: Queue, limit: nat)
    ensures forall id :: id in Sendable(q, limit) ==>
              id < |q.entries| && !q.entries[id].flushed && id !in q.rejected && !Held(q, q.entries[id])
    ensures forall k, l :: 0 <= k < l < |Sendable(q, limit)| ==>
              && Sendable(q, limit)[k] != Sendable(q, limit)[l]
              && q.entries[Sendable(q, limit)[k]].seq_ <= q.entries[Sendable(q, limit)[l]].seq_
  {
    hide HeldTasks, WaitsForHeld, Sendable, Held;
    SendableOldestFirst(q, limit);
    forall id | id in Sendable(q, limit) ensures !Held(q, q.entries[id]) {
      HeldIffWaits(q, q.entries[id]);
    }
  }

  function MarkFlushed(q: Queue, id: nat): Queue {
    if id < |q.entries| then q.(entries := q.entries[id := q.entries[id].(flushed := true)]) else q
  }

  function MarkRejected(q: Queue, id: nat, refusal: Refusal): Queue {
    if id in q.rejected then q else q.(rejected := q.rejected[id := refusal])
  }

  function RequeueRejected(q: Queue): Queue { q.(rejected := map[]) }

  // ------------------------------------------------------------------- what may be lost

  /** Events of these kinds may have been logged by a version that did not queue what it logged. */
  predicate OldKind(payload: Payload) {
    payload.TaskCreated? || payload.TaskStatusChanged? || payload.TaskCompleted? || payload.TaskClosed? || payload.TaskDeleted?
  }

  predicate LooksLocal(row: LogRow) { row.origin.None? && row.byUser && OldKind(row.event.payload) }

  function Queued(entries: seq<Entry>): set<EventId> { set i | 0 <= i < |entries| :: entries[i].event.id }

  /** What a search with the server's ids in hand puts on record: logged below the tip by a user of this device, of a
      kind that may not have been queued, not queued and not on the server. */
  lemma RecordLostIs(q: Queue, tip: nat, serverIds: set<EventId>)
    ensures var q' := RecordLost(q, tip, serverIds);
            && q' == q.(unconfirmed := q'.unconfirmed, logChecked := true)
            && forall id :: id in q'.unconfirmed <==>
                 || id in q.unconfirmed
                 || (id !in serverIds && exists p :: 0 <= p < |q.log| && p < tip && q.log[p].event.id == id && LeftOff(q, p))
  {
    forall p | 0 <= p < |q.log| && p < tip ensures LostCandidate(q, tip, p) <==> LeftOff(q, p) {
      LostIsLeftOff(q, p);
    }
  }

  lemma LostIsLeftOff(q: Queue, p: nat)
    requires p < |q.log|
    ensures forall tip :: p < tip ==> (LostCandidate(q, tip, p) <==> LeftOff(q, p))
  {
    if i :| 0 <= i < |q.entries| && q.entries[i].event.id == q.log[p].event.id {
      assert q.entries[i].event.id in Queued(q.entries);
    }
  }

  /** A row no entry was queued for though a command here can have made it. */
  predicate LeftOff(q: Queue, p: nat)
    requires p < |q.log|
  {
    var row, payload := q.log[p], q.log[p].event.payload;
    && row.origin.None? && row.byUser
    && (payload.TaskCreated? || payload.TaskStatusChanged? || payload.TaskCompleted? || payload.TaskClosed? || payload.TaskDeleted?)
    && forall i :: 0 <= i < |q.entries| ==> q.entries[i].event.id != row.event.id
  }

  /** Whether the event logged at position `p` is of this device as far as its row tells, and off the queue. */
  predicate LostCandidate(q: Queue, tip: nat, p: nat) {
    p < |q.log| && p < tip && LooksLocal(q.log[p]) && q.log[p].event.id !in Queued(q.entries)
  }

  function Candidates(q: Queue, tip: nat): set<EventId> {
    set p | 0 <= p < |q.log| && LostCandidate(q, tip, p) :: q.log[p].event.id
  }

  function RecordLost(q: Queue, tip: nat, serverIds: set<EventId>): Queue {
    q.(unconfirmed := q.unconfirmed + (Candidates(q, tip) - serverIds), logChecked := true)
  }

  /** Queue, in log order, what is on record and not on the server. */
  function Restored(q: Queue, serverIds: set<EventId>, upTo: nat): Queue
    requires upTo <= |q.log|
  {
    if upTo == 0 then q
    else
      var before := Restored(q, serverIds, upTo - 1);
      var e := q.log[upTo - 1].event;
      if e.id in q.unconfirmed && e.id !in serverIds then EnqueueNext(before, upTo, e) else before
  }

  function RestoreLost(q: Queue, serverIds: set<EventId>): Queue {
    if q.unconfirmed == {} then q
    else Restored(q, serverIds, |q.log|).(unconfirmed := {})
  }

  /** What is put back on the queue: the recorded events the server lacks, each behind those logged before it, and
      nothing that was queued changes. */
  lemma {:induction false} RestoredIs(q: Queue, serverIds: set<EventId>, upTo: nat)
    requires upTo <= |q.log|
    ensures var q' := Restored(q, serverIds, upTo);
            && q' == q.(entries := q'.entries) && q.entries <= q'.entries
            && (forall i :: |q.entries| <= i < |q'.entries| ==> PutBack(q, serverIds, upTo, q'.entries[i]))
            && (forall i, k :: |q.entries| <= i < k < |q'.entries| ==> q'.entries[i].seq_ < q'.entries[k].seq_)
            && (forall p :: 0 <= p < upTo && q.log[p].event.id in q.unconfirmed && q.log[p].event.id !in serverIds ==>
                  QueuedFrom(q'.entries, |q.entries|, p + 1))
  {
    hide LastOriginSeq, PutBack, QueuedFrom;
    if upTo > 0 {
      var n := upTo - 1;
      RestoredIs(q, serverIds, n);
      var before, q' := Restored(q, serverIds, n), Restored(q, serverIds, upTo);
      forall i | |q.entries| <= i < |before.entries| ensures PutBack(q, serverIds, upTo, before.entries[i]) && before.entries[i].seq_ <= n {
        PutBackLater(q, serverIds, n, before.entries[i]);
      }
      if q' != before {
        OneMoreBack(q, serverIds, n, q'.entries[|before.entries|]);
        QueuedLast(q'.entries, |q.entries|);
      }
      forall p | 0 <= p < n && q.log[p].event.id in q.unconfirmed && q.log[p].event.id !in serverIds
        ensures QueuedFrom(q'.entries, |q.entries|, p + 1)
      {
        QueuedLater(before.entries, q'.entries, |q.entries|, p + 1);
      }
    }
  }

  /** An entry a restore made: for a recorded event the server lacks, logged within the first `upTo`. */
  predicate PutBack(q: Queue, serverIds: set<EventId>, upTo: nat, entry: Entry)
    requires upTo <= |q.log|
  {
    && 1 <= entry.seq_ <= upTo && entry.event == q.log[entry.seq_ - 1].event
    && entry.event.id in q.unconfirmed && entry.event.id !in serverIds
    && !entry.flushed && entry.device == q.device
  }

  lemma PutBackLater(q: Queue, serverIds: set<EventId>, n: nat, entry: Entry)
    requires n < |q.log| && PutBack(q, serverIds, n, entry)
    ensures PutBack(q, serverIds, n + 1, entry) && entry.seq_ <= n
  {
  }

  lemma OneMoreBack(q: Queue, serverIds: set<EventId>, n: nat, entry: Entry)
    requires n < |q.log| && q.log[n].event.id in q.unconfirmed && q.log[n].event.id !in serverIds
    requires entry.seq_ == n + 1 && entry.event == q.log[n].event && !entry.flushed && entry.device == q.device
    ensures PutBack(q, serverIds, n + 1, entry)
  {
  }

  lemma QueuedLast(entries: seq<Entry>, from: nat)
    requires from < |entries|
    ensures QueuedFrom(entries, from, entries[|entries| - 1].seq_)
  {
  }

  lemma QueuedLater(entries: seq<Entry>, more: seq<Entry>, from: nat, seq_: nat)
    requires entries <= more && QueuedFrom(entries, from, seq_)
    ensures QueuedFrom(more, from, seq_)
  {
    var i :| from <= i < |entries| && entries[i].seq_ == seq_;
    assert more[i].seq_ == seq_;
  }

  predicate QueuedFrom(entries: seq<Entry>, from: nat, seq_: nat) {
    exists i :: from <= i < |entries| && entries[i].seq_ == seq_
  }

  // --------------------------------------------------------------------------- the code

  datatype PushOutcome = Accepted | Rejected(refusal: Refusal)

  /** The server's end of a push. It keeps one copy of an event, refuses some for good, and some answers,
      to accepted events too, never arrive. */
  class Sink {
    var received: seq<Event>
    var pushes: nat
    const refused: set<EventId>
    const unheard: set<nat>
    const unanswered: set<nat>

    constructor (refused: set<EventId>, unheard: set<nat>, unanswered: set<nat>)
      ensures received == [] && pushes == 0
      ensures this.refused == refused && this.unheard == unheard && this.unanswered == unanswered
    {
      received, pushes := [], 0;
      this.refused, this.unheard, this.unanswered := refused, unheard, unanswered;
    }

    method Push(e: Event) returns (r: Result<PushOutcome>)
      modifies this
      ensures pushes == old(pushes) + 1
      ensures r.Success? <==> pushes !in unheard && pushes !in unanswered
      ensures r.Success? ==> r.value == if e.id in refused then Rejected(Refusal(403, "refused")) else Accepted
      ensures received == old(received) +
                if pushes in unheard || e.id in refused || e.id in Ids(old(received)) then [] else [e]
      ensures r == Success(Accepted) ==> e.id in Ids(received)
    {
      pushes := pushes + 1;
      if pushes in unheard { return Failure("request lost"); }
      if e.id in refused {
        r := Success(Rejected(Refusal(403, "refused")));
      } else {
        if e.id !in Ids(received) {
          received := received + [e];
          assert received[|received| - 1] == e;
        }
        r := Success(Accepted);
      }
      if pushes in unanswered { return Failure("answer lost"); }
    }
  }

  datatype FlushStats = FlushStats(attempted: nat, flushed: nat, rejected: nat)

  /** The queue once the server has answered for the entries `ids`. */
  function Answered(q: Queue, ids: seq<nat>, refused: set<EventId>): Queue
    requires AreEntries(q.entries, ids)
  {
    if ids == [] then q
    else
      var n := |ids| - 1;
      var before := Answered(q, ids[..n], refused);
      if q.entries[ids[n]].event.id in refused then MarkRejected(before, ids[n], Refusal(403, "refused"))
      else MarkFlushed(before, ids[n])
  }

  function PendingIn(q: Queue): set<nat> { set i | 0 <= i < |q.entries| && IsPending(q, i) }

  /** The entries the server has. */
  function DeliveredIn(entries: seq<Entry>): set<nat> { set i | 0 <= i < |entries| && entries[i].flushed }

  /** How many of these entries the server refuses. */
  function RefusedAmong(entries: seq<Entry>, ids: seq<nat>, refused: set<EventId>): nat
    requires AreEntries(entries, ids)
  {
    if ids == [] then 0
    else
      RefusedAmong(entries, ids[..|ids| - 1], refused) + if entries[ids[|ids| - 1]].event.id in refused then 1 else 0
  }

  /** What the answers leave: those entries delivered that were not refused, those refused that were, and nothing
      else changed. */
  lemma {:induction false} AnsweredIs(q: Queue, ids: seq<nat>, refused: set<EventId>)
    requires AreEntries(q.entries, ids)
    ensures var q' := Answered(q, ids, refused);
            && q' == q.(entries := q'.entries, rejected := q'.rejected) && |q'.entries| == |q.entries|
            && (forall i :: 0 <= i < |q.entries| ==>
                  q'.entries[i] == q.entries[i].(flushed := q.entries[i].flushed || (i in ids && q.entries[i].event.id !in refused)))
            && (forall i :: i in q'.rejected <==> i in q.rejected || (i in ids && q.entries[i].event.id in refused))
            && (forall i :: i in q.rejected ==> q'.rejected[i] == q.rejected[i])
  {
    if ids != [] {
      var n := |ids| - 1;
      assert ids == ids[..n] + [ids[n]];
      AnsweredIs(q, ids[..n], refused);
    }
  }

  lemma AnsweredNext(q: Queue, ids: seq<nat>, n: nat, refused: set<EventId>)
    requires AreEntries(q.entries, ids) && n < |ids|
    ensures var before, isRefused := Answered(q, ids[..n], refused), q.entries[ids[n]].event.id in refused;
            && Answered(q, ids[..n + 1], refused)
                 == (if isRefused then MarkRejected(before, ids[n], Refusal(403, "refused")) else MarkFlushed(before, ids[n]))
            && RefusedAmong(q.entries, ids[..n + 1], refused)
                 == RefusedAmong(q.entries, ids[..n], refused) + if isRefused then 1 else 0
  {
    assert ids[..n + 1][..n] == ids[..n];
  }

  lemma NoneAnswered(q: Queue, ids: seq<nat>, refused: set<EventId>)
    requires AreEntries(q.entries, ids)
    ensures Answered(q, ids[..0], refused) == q && RefusedAmong(q.entries, ids[..0], refused) == 0
  {
  }

  lemma RejectedIsMarked(q: Queue, q': Queue, id: nat, refusal: Refusal)
    requires q' == q.(rejected := q'.rejected) && q'.rejected.Keys == q.rejected.Keys + {id}
    requires forall k :: k in q.rejected ==> q'.rejected[k] == q.rejected[k]
    requires id !in q.rejected ==> q'.rejected[id] == refusal
    ensures q' == MarkRejected(q, id, refusal)
  {
    assert q'.rejected == MarkRejected(q, id, refusal).rejected;
  }

  class OutboxTables {
    const device: DeviceId
    var log: seq<LogRow>
    var entries: seq<Entry>
    var rejected: map<nat, Refusal>
    var unconfirmed: set<EventId>
    var logChecked: bool
    var unprojected: set<EventId>
    var unechoed: set<EventId>

    function State(): Queue
      reads this
    {
      Queue(device, log, entries, rejected, unconfirmed, logChecked, unprojected, unechoed)
    }

    constructor (device: DeviceId)
      ensures State() == Queue(device, [], [], map[], {}, false, {}, {})
    {
      this.device := device;
      log, entries, rejected, unconfirmed, logChecked, unprojected, unechoed := [], [], map[], {}, false, {}, {};
    }

    method LastQueued() returns (last: nat)
      ensures last == LastOriginSeq(entries, device)
    {
      last := 0;
      for i := 0 to |entries|
        invariant last == LastOriginSeq(entries[..i], device)
      {
        assert entries[..i + 1][..i] == entries[..i];
        if entries[i].device == device {
          last := Greatest(last, entries[i].originSeq);
        }
      }
      assert entries[..|entries|] == entries;
    }

    method Enqueue(seq_: nat, event: Event)
      modifies this`entries
      ensures State() == EnqueueNext(old(State()), seq_, event)
    {
      var last := LastQueued();
      entries := entries + [Entry(device, last + 1, seq_, event, false)];
    }

    method AppendBatch(envelopes: seq<Event>)
      modifies this
      ensures State() == Appended(old(State()), envelopes)
      ensures unprojected == old(unprojected) + Ids(envelopes) && unechoed == old(unechoed) + Ids(envelopes)
      ensures |log| == |old(log)| + |envelopes| && |entries| == |old(entries)| + |envelopes|
      ensures old(log) <= log && old(entries) <= entries && rejected == old(rejected) && unconfirmed == old(unconfirmed)
      ensures forall k :: 0 <= k < |envelopes| ==>
                LoggedAndQueued(log[|old(log)| + k], entries[|old(entries)| + k], device, |old(log)| + k + 1, envelopes[k])
    {
      hide LastOriginSeq, Appended, Ids, LoggedAndQueued;
      NothingAppended(State());
      for i := 0 to |envelopes|
        invariant State() == Appended(old(State()), envelopes[..i])
      {
        AppendedNext(old(State()), envelopes, i);
        log := log + [LogRow(envelopes[i], None, true)];
        unprojected := unprojected + {envelopes[i].id};
        unechoed := unechoed + {envelopes[i].id};
        Enqueue(|log|, envelopes[i]);
      }
      assert envelopes[..|envelopes|] == envelopes;
      AppendedIs(old(State()), envelopes);
    }

    method CollectHeld() returns (held: map<TaskId, nat>)
      ensures held == HeldTasks(log, unconfirmed)
    {
      held := map[];
      for i := 0 to |log|
        invariant held == HeldTasks(log[..i], unconfirmed)
      {
        assert log[..i + 1][..i] == log[..i];
        if log[i].event.id in unconfirmed {
          var task := log[i].event.payload.TargetTask();
          if task.Some? && task.value !in held {
            held := held[task.value := i + 1];
          }
        }
      }
      assert log[..|log|] == log;
    }

    /** At most `limit` entries, or one, and all there are if there are fewer: those that are neither delivered nor
        refused, and of whose task nothing logged before is on record as unconfirmed; oldest first. */
    method CollectSendable(limit: nat) returns (ids: seq<nat>)
      ensures ids == Sendable(State(), limit)
      ensures |ids| <= if limit == 0 then 1 else limit
      ensures |ids| < (if limit == 0 then 1 else limit) ==>
                forall id: nat :: id < |entries| && !entries[id].flushed && id !in rejected && !Held(State(), entries[id])
                  ==> id in ids
      ensures forall id :: id in ids ==>
                id < |entries| && !entries[id].flushed && id !in rejected && !Held(State(), entries[id])
      ensures forall k, l :: 0 <= k < l < |ids| ==> ids[k] != ids[l] && entries[ids[k]].seq_ <= entries[ids[l]].seq_
    {
      SendableFillsUp(State(), limit);
      SendableIsFree(State(), limit);
      var held := CollectHeld();
      var pending := Pending(State(), |entries|);
      var free := [];
      for i := 0 to |pending|
        invariant free == NotHeld(entries, held, pending[..i])
      {
        assert pending[..i + 1][..i] == pending[..i];
        if !WaitsForHeld(held, entries[pending[i]]) {
          free := free + [pending[i]];
        }
      }
      assert pending[..|pending|] == pending;
      ids := Take(free, limit);
    }

    /** Whether the entry was not delivered before. */
    method SetFlushed(id: nat) returns (first: bool)
      requires id < |entries|
      modifies this`entries
      ensures State() == MarkFlushed(old(State()), id)
      ensures first <==> id !in DeliveredIn(old(entries))
      ensures |DeliveredIn(entries)| == |DeliveredIn(old(entries))| + if first then 1 else 0
    {
      assert DeliveredIn(entries[id := entries[id].(flushed := true)]) == DeliveredIn(entries) + {id};
      first := !entries[id].flushed;
      entries := entries[id := entries[id].(flushed := true)];
    }

    /** From now on the entry is not pending, and every other entry is as it was. What an entry was first refused
        for stays. */
    method SetRejected(id: nat, refusal: Refusal)
      modifies this`rejected
      ensures rejected.Keys == old(rejected).Keys + {id}
      ensures forall k :: k in old(rejected) ==> rejected[k] == old(rejected)[k]
      ensures id !in old(rejected) ==> rejected[id] == refusal
      ensures !IsPending(State(), id)
      ensures forall k :: k != id ==> (IsPending(State(), k) <==> IsPending(old(State()), k))
    {
      if id !in rejected {
        rejected := rejected[id := refusal];
      }
    }

    /** Every entry that was not delivered is pending again; those that were refused are counted. */
    method Requeue() returns (requeued: nat)
      modifies this`rejected
      ensures State() == RequeueRejected(old(State())) && rejected == map[] && requeued == |old(rejected)|
      ensures forall k: nat :: IsPending(State(), k) <==> k < |entries| && k !in DeliveredIn(entries)
      ensures forall k: nat :: IsPending(old(State()), k) ==> IsPending(State(), k)
      ensures old(rejected).Keys !! DeliveredIn(entries) && (forall k :: k in old(rejected) ==> k < |entries|) ==>
                requeued == |PendingIn(State()) - PendingIn(old(State()))|
    {
      ghost var before := State();
      ghost var after := before.(rejected := map[]);
      if rejected.Keys !! DeliveredIn(entries) && forall k :: k in rejected ==> k < |entries| {
        assert PendingIn(after) - PendingIn(before) == rejected.Keys;
        assert |rejected.Keys| == |rejected|;
      }
      requeued := |rejected|;
      rejected := map[];
    }

    /** Pushes one entry and marks what was answered; nothing is marked where no answer came. */
    method SendOne(sink: Sink, id: nat) returns (r: Result<PushOutcome>, first: bool)
      requires id < |entries|
      modifies this`entries, this`rejected, sink
      ensures sink.pushes == old(sink.pushes) + 1
      ensures r.Success? <==> sink.pushes !in sink.unheard && sink.pushes !in sink.unanswered
      ensures r.Failure? ==> State() == old(State())
      ensures r.Success? ==>
                && (r.value.Rejected? <==> old(entries)[id].event.id in sink.refused)
                && State() == if r.value.Rejected? then MarkRejected(old(State()), id, Refusal(403, "refused")) else MarkFlushed(old(State()), id)
      ensures first <==> r == Success(Accepted) && id !in DeliveredIn(old(entries))
      ensures |DeliveredIn(entries)| == |DeliveredIn(old(entries))| + if first then 1 else 0
      ensures Ids(old(sink.received)) <= Ids(sink.received)
      ensures r == Success(Accepted) ==> old(entries)[id].event.id in Ids(sink.received)
    {
      hide Ids, DeliveredIn, MarkFlushed, MarkRejected;
      first := false;
      ghost var had, at := sink.received, State();
      r := sink.Push(entries[id].event);
      KeptIds(had, sink.received);
      if r.Failure? { return; }
      match r.value
      case Accepted =>
        first := SetFlushed(id);
      case Rejected(refusal) =>
        SetRejected(id, refusal);
        RejectedIsMarked(at, State(), id, refusal);
    }

    /** Send what may go out. Only a request or an answer that is lost stops the flush; a refusal moves the entry to
        the dead letters and lets the rest by. */
    method FlushPending(sink: Sink, limit: nat) returns (r: Result<FlushStats>, ghost ids: seq<nat>, ghost answered: nat)
      modifies this, sink
      ensures ids == Sendable(old(State()), limit) && answered <= |ids|
      ensures r.Failure? <==> exists n :: old(sink.pushes) < n <= old(sink.pushes) + |ids| && (n in sink.unheard || n in sink.unanswered)
      ensures sink.unheard == {} && sink.unanswered == {} ==> r.Success?
      ensures sink.pushes == old(sink.pushes) + answered + if r.Failure? then 1 else 0
      ensures r.Success? ==> answered == |ids|
      ensures State() == Answered(old(State()), ids[..answered], sink.refused)
      ensures |entries| == |old(entries)|
      ensures forall i :: 0 <= i < |entries| ==>
                && (entries[i].flushed <==> old(entries)[i].flushed || (i in ids[..answered] && entries[i].event.id !in sink.refused))
                && (i in rejected <==> i in old(rejected) || (i in ids[..answered] && entries[i].event.id in sink.refused))
      ensures forall k :: 0 <= k < answered && ids[k] < |entries| ==>
                entries[ids[k]].event.id in sink.refused || entries[ids[k]].event.id in Ids(sink.received)
      ensures r.Success? ==>
                && r.value.attempted == |ids| == r.value.flushed + r.value.rejected
                && r.value.flushed == |DeliveredIn(entries)| - |DeliveredIn(old(entries))|
                && r.value.rejected == RefusedAmong(old(entries), ids, sink.refused)
    {
      hide Sendable, Ids, DeliveredIn, Answered, RefusedAmong, MarkFlushed, MarkRejected;
      ghost var before, pushed := State(), sink.pushes;
      var pending := CollectSendable(limit);
      ids := pending;
      var flushed, rejections := 0, 0;
      NoneAnswered(before, pending, sink.refused);
      for i := 0 to |pending|
        invariant State() == Answered(before, pending[..i], sink.refused)
        invariant sink.pushes == pushed + i
        invariant forall n :: pushed < n <= pushed + i ==> n !in sink.unheard && n !in sink.unanswered
        invariant flushed == |DeliveredIn(entries)| - |DeliveredIn(before.entries)| && flushed + rejections == i
        invariant rejections == RefusedAmong(before.entries, pending[..i], sink.refused)
        invariant forall k :: 0 <= k < i ==>
                    before.entries[pending[k]].event.id in sink.refused
                    || before.entries[pending[k]].event.id in Ids(sink.received)
      {
        AnsweredIs(before, pending[..i], sink.refused);
        AnsweredNext(before, pending, i, sink.refused);
        NotYet(pending, i);
        assert pending[i] !in DeliveredIn(entries) by { DeliveredMeans(entries, pending[i]); }
        var outcome, first := SendOne(sink, pending[i]);
        if outcome.Failure? {
          answered := i;
          return Failure(outcome.error), ids, answered;
        }
        if first {
          flushed := flushed + 1;
        }
        if outcome.value.Rejected? {
          rejections := rejections + 1;
        }
      }
      assert pending[..|pending|] == pending;
      AnsweredIs(before, pending, sink.refused);
      answered := |pending|;
      r := Success(FlushStats(|pending|, flushed, rejections));
    }
  }

  lemma NotYet(ids: seq<nat>, i: nat)
    requires i < |ids| && forall k, l :: 0 <= k < l < |ids| ==> ids[k] != ids[l]
    ensures ids[i] in ids && ids[i] !in ids[..i]
  {
  }

  lemma DeliveredMeans(entries: seq<Entry>, id: nat)
    requires id < |entries|
    ensures id in DeliveredIn(entries) <==> entries[id].flushed
  {
  }

  // --------------------------------------------------------------------- flush after flush

  /** The queue after `n` flushes nothing of which was lost. */
  function Flushed(q: Queue, limit: nat, refused: set<EventId>, n: nat): Queue {
    if n == 0 then q
    else
      var before := Flushed(q, limit, refused, n - 1);
      Answered(before, Sendable(before, limit), refused)
  }

  /** When nothing is on record as unconfirmed, every entry that waits is delivered or refused after as many flushes
      as there are entries that wait, whatever the limit. */
  lemma {:induction false} FlushesDrain(q: Queue, limit: nat, refused: set<EventId>, n: nat)
    requires q.unconfirmed == {}
    ensures var q' := Flushed(q, limit, refused, n);
            && q'.unconfirmed == {} && |q'.entries| == |q.entries|
            && (forall i :: 0 <= i < |q.entries| ==> q'.entries[i].event == q.entries[i].event)
            && |Waiting(q')| <= if |Waiting(q)| <= n then 0 else |Waiting(q)| - n
    decreases n
  {
    if n > 0 {
      var before := Flushed(q, limit, refused, n - 1);
      FlushesDrain(q, limit, refused, n - 1);
      OneFlushDrains(before, limit, refused);
    }
  }

  /** The entries neither delivered nor refused. */
  function Waiting(q: Queue): set<nat> { set i | 0 <= i < |q.entries| && !q.entries[i].flushed && i !in q.rejected }

  lemma OneFlushDrains(q: Queue, limit: nat, refused: set<EventId>)
    requires q.unconfirmed == {}
    ensures var q' := Answered(q, Sendable(q, limit), refused);
            && q'.unconfirmed == {} && |q'.entries| == |q.entries|
            && (forall i :: 0 <= i < |q.entries| ==> q'.entries[i].event == q.entries[i].event)
            && Waiting(q') <= Waiting(q) && (Waiting(q) != {} ==> |Waiting(q')| < |Waiting(q)|)
  {
    hide Sendable, Answered;
    var ids := Sendable(q, limit);
    var q' := Answered(q, ids, refused);
    AnsweredIs(q, ids, refused);
    SendableFillsUp(q, limit);
    SendableIsFree(q, limit);
    if Waiting(q) != {} {
      assert ids != [] by {
        var some :| some in Waiting(q);
        assert !Held(q, q.entries[some]);
      }
      assert ids[0] in ids && ids[0] in Waiting(q) && ids[0] !in Waiting(q');
      SmallerSet(Waiting(q'), Waiting(q), ids[0]);
    }
  }

  lemma SmallerSet(a: set<nat>, b: set<nat>, x: nat)
    requires a <= b && x in b && x !in a
    ensures |a| < |b|
  {
    SubsetNoLarger(a, b - {x});
  }

  lemma KeptIds(a: seq<Event>, b: seq<Event>)
    requires a <= b
    ensures Ids(a) <= Ids(b)
  {
    forall id | id in Ids(a) ensures id in Ids(b) {
      var i :| 0 <= i < |a| && a[i].id == id;
      assert b[i].id == id;
    }
  }
}

/** The sidecar index built from the event log, and how it finds its place again. What an event does to the graph's
    nodes and edges is stood in for by what it does to the rows of Events. */
module GraphIndex {
  import opened Events

  /** The number and, unless the index is an old one, the id of the last event applied. */
  datatype GraphCursor = GraphCursor(at: nat, id: Option<EventId>)

  datatype RollbackReason = CursorAheadOfLog | CursorEventIdMismatch

  /** Event `k` of the log has number `k + 1`. */
  function LoadSince(log: seq<Event>, since: nat, limit: nat): seq<Event> {
    if since >= |log| then [] else if since + limit <= |log| then log[since..since + limit] else log[since..]
  }

  /** Why an index cannot go on from its cursor; an old one without an id goes on wherever the log is long enough. */
  function Reason(cursor: Option<GraphCursor>, log: seq<Event>): (reason: Option<RollbackReason>)
    ensures reason == Some(CursorAheadOfLog) <==> cursor.Some? && cursor.value.at > |log|
    ensures reason == Some(CursorEventIdMismatch) <==>
              && cursor.Some? && 0 < cursor.value.at <= |log|
              && cursor.value.id.Some? && log[cursor.value.at - 1].id != cursor.value.id.value
  {
    if cursor.None? || cursor.value.at == 0 then None
    else if cursor.value.at > |log| then Some(CursorAheadOfLog)
    else if cursor.value.id.None? then None
    else
      var atCursor := LoadSince(log, cursor.value.at - 1, 1);
      if atCursor != [] && atCursor[0].id != cursor.value.id.value then Some(CursorEventIdMismatch) else None
  }

  /** The index holds the first `at` events of some log. */
  ghost predicate Indexed(rows: Rows, cursor: Option<GraphCursor>, was: seq<Event>) {
    match cursor
    case None => rows == map[]
    case Some(GraphCursor(at, id)) =>
      && at <= |was| && rows == Fold(was[..at])
      && (id.Some? ==> at > 0 && id.value == was[at - 1].id)
  }

  /** The logs are the same up to `shared`; after that no event has the same place in both. */
  predicate Diverge(was: seq<Event>, log: seq<Event>, shared: nat) {
    && shared <= |was| && shared <= |log| && was[..shared] == log[..shared]
    && forall i :: shared <= i < |was| && i < |log| ==> was[i].id != log[i].id
  }

  /** The events whose effects the index ends with. */
  function Replayed(cursor: Option<GraphCursor>, was: seq<Event>, log: seq<Event>): seq<Event>
    requires cursor.Some? ==> cursor.value.at <= |was|
  {
    if cursor.Some? && Reason(cursor, log).None? && cursor.value.at <= |log|
    then was[..cursor.value.at] + log[cursor.value.at..] else log
  }

  /** The check finds a diverged log except where the index remembers no id and the log has grown back past it. */
  predicate Noticed(cursor: Option<GraphCursor>, log: seq<Event>, shared: nat) {
    cursor.None? || cursor.value.at <= shared || cursor.value.at > |log| || cursor.value.id.Some?
  }

  lemma ReplayedIsTheLogIff(cursor: Option<GraphCursor>, was: seq<Event>, log: seq<Event>, shared: nat, rows: Rows)
    requires Indexed(rows, cursor, was) && Diverge(was, log, shared)
    ensures Replayed(cursor, was, log) == log <==> Noticed(cursor, log, shared)
  {
    if cursor.Some? {
      var at := cursor.value.at;
      if at <= shared {
        assert was[..at] == was[..shared][..at] == log[..at];
        if at > 0 && cursor.value.id.Some? {
          assert was[at - 1] == was[..at][at - 1] == log[..at][at - 1];
        }
        assert log[..at] + log[at..] == log;
      } else if at <= |log| {
        assert was[at - 1].id != log[at - 1].id;
        assert LoadSince(log, at - 1, 1) == [log[at - 1]];
        if cursor.value.id.None? {
          assert Replayed(cursor, was, log)[at - 1] == was[at - 1];
        }
      }
    }
  }

  /** What catching up keeps: the effects of the first `last` replayed events, and the cursor at the last of them. */
  ghost predicate CaughtUpTo(rows: Rows, cursor: Option<GraphCursor>, target: seq<Event>, last: nat) {
    && last <= |target| && rows == Fold(target[..last]) && Indexed(rows, cursor, target)
    && (cursor.Some? ==> cursor.value.at == last) && (cursor.None? ==> last == 0)
  }

  lemma StartsCaughtUp(rows: Rows, cursor: Option<GraphCursor>, was: seq<Event>, log: seq<Event>)
    requires Indexed(rows, cursor, was)
    ensures var target := Replayed(cursor, was, log);
            && |target| == |log|
            && (Reason(cursor, log).Some? ==> CaughtUpTo(map[], None, target, 0) && target == log)
            && (Reason(cursor, log).None? ==>
                  var first := if cursor.Some? then cursor.value.at else 0;
                  CaughtUpTo(rows, cursor, target, first) && forall k :: first <= k < |log| ==> target[k] == log[k])
  {
    var target := Replayed(cursor, was, log);
    assert target[..0] == [];
    if cursor.Some? && Reason(cursor, log).None? {
      var at := cursor.value.at;
      assert target[..at] == was[..at];
    }
  }

  lemma FoldOneMore(events: seq<Event>, n: nat)
    requires n < |events|
    ensures Fold(events[..n + 1]) == Apply(Fold(events[..n]), events[n])
  {
    hide Apply;
    assert events[..n + 1][..n] == events[..n];
  }

  lemma CaughtUpOneMore(rows: Rows, cursor: Option<GraphCursor>, target: seq<Event>, last: nat)
    requires CaughtUpTo(rows, cursor, target, last) && last < |target|
    ensures CaughtUpTo(Apply(rows, target[last]), Some(GraphCursor(last + 1, Some(target[last].id))), target, last + 1)
  {
    hide Apply;
    FoldOneMore(target, last);
  }

  class GraphRepo {
    var rows: Rows
    var cursor: Option<GraphCursor>

    constructor ()
      ensures rows == map[] && cursor == None
    {
      rows, cursor := map[], None;
    }

    method ApplyEvent(number: nat, event: Event)
      modifies this
      ensures rows == Apply(old(rows), event) && cursor == Some(GraphCursor(number, Some(event.id)))
    {
      rows := Apply(rows, event);
      cursor := Some(GraphCursor(number, Some(event.id)));
    }

    method Reset()
      modifies this
      ensures rows == map[] && cursor == None
    {
      rows, cursor := map[], None;
    }

    method ApplyBatch(batch: seq<Event>, last: nat, ghost target: seq<Event>)
      requires CaughtUpTo(rows, cursor, target, last) && last + |batch| <= |target| && batch == target[last..last + |batch|]
      modifies this
      ensures CaughtUpTo(rows, cursor, target, last + |batch|)
      ensures batch != [] ==> cursor == Some(GraphCursor(last + |batch|, Some(batch[|batch| - 1].id)))
    {
      hide CaughtUpTo, Apply;
      for k := 0 to |batch|
        invariant CaughtUpTo(rows, cursor, target, last + k)
        invariant k > 0 ==> cursor == Some(GraphCursor(last + k, Some(batch[k - 1].id)))
      {
        CaughtUpOneMore(rows, cursor, target, last + k);
        ApplyEvent(last + k + 1, batch[k]);
      }
    }

    /** Whatever log the index was built from, it ends at the end of this one, with the effects of `Replayed`; the
        size of the batches does not matter. */
    method CatchUp(log: seq<Event>, batchSize: nat, ghost was: seq<Event>) returns (count: nat)
      requires batchSize > 0 && Indexed(rows, cursor, was)
      modifies this
      ensures CaughtUpTo(rows, cursor, Replayed(old(cursor), was, log), |log|)
      ensures count == |log| - if old(cursor).Some? && Reason(old(cursor), log).None? then old(cursor).value.at else 0
      ensures count > 0 ==> cursor == Some(GraphCursor(|log|, Some(log[|log| - 1].id)))
    {
      ghost var target := Replayed(cursor, was, log);
      StartsCaughtUp(rows, cursor, was, log);
      hide CaughtUpTo, Indexed, Replayed, Reason, Fold;
      var last := if cursor.Some? then cursor.value.at else 0;
      if Reason(cursor, log).Some? {
        Reset();
        last := 0;
      }
      count := ApplyRest(log, batchSize, last, target);
    }

    method ApplyRest(log: seq<Event>, batchSize: nat, since: nat, ghost target: seq<Event>) returns (count: nat)
      requires batchSize > 0 && since <= |log| == |target| && CaughtUpTo(rows, cursor, target, since)
      requires forall k :: since <= k < |log| ==> target[k] == log[k]
      modifies this
      ensures CaughtUpTo(rows, cursor, target, |log|) && count == |log| - since
      ensures count > 0 ==> cursor == Some(GraphCursor(|log|, Some(log[|log| - 1].id)))
    {
      hide CaughtUpTo;
      var last := since;
      count := 0;
      while true
        invariant since <= last <= |log| && count == last - since
        invariant CaughtUpTo(rows, cursor, target, last)
        invariant count > 0 ==> cursor == Some(GraphCursor(last, Some(log[last - 1].id)))
        decreases |log| - last
      {
        var batch := LoadSince(log, last, batchSize);
        if batch == [] {
          break;
        }
        ApplyBatch(batch, last, target);
        count := count + |batch|;
        last := last + |batch|;
      }
    }
  }

  /** So, unless the index remembers no id and the log has grown back past it, the index ends as one built from the
      present log alone. */
  lemma AgreesWithReplayIf(rows: Rows, cursor: Option<GraphCursor>, was: seq<Event>, log: seq<Event>, shared: nat,
                           rowsAfter: Rows, cursorAfter: Option<GraphCursor>)
    requires Indexed(rows, cursor, was) && Diverge(was, log, shared) && Noticed(cursor, log, shared)
    requires CaughtUpTo(rowsAfter, cursorAfter, Replayed(cursor, was, log), |log|)
    ensures rowsAfter == Fold(log) && Indexed(rowsAfter, cursorAfter, log)
  {
    ReplayedIsTheLogIff(cursor, was, log, shared, rows);
    assert log[..|log|] == log;
  }

  /** An index of one event without its id, and a log restored without that event and grown by another: the index
      keeps the row of the event that is gone. */
  lemma ForgottenIdKeepsStaleRow(x: Event, y: Event, task: TaskId, row: Columns)
    requires x.payload == TaskCreated(task, None, row) && y.payload == SessionOpened && x.id != y.id
    ensures var cursor := Some(GraphCursor(1, None));
            && Indexed(Fold([x]), cursor, [x]) && Diverge([x], [y], 0) && !Noticed(cursor, [y], 0)
            && TaskRow(task) in Fold(Replayed(cursor, [x], [y])) && TaskRow(task) !in Fold([y])
  {
    assert [x][..1] == [x] && [x][..0] == [] && [y][..0] == [] && [y][1..] == [];
    assert Replayed(Some(GraphCursor(1, None)), [x], [y]) == [x];
    assert x.payload.Writes()[TaskRow(task)] == Put(row);
    assert Fold([x]) == Apply(Fold([]), x) && Fold([y]) == Apply(Fold([]), y);
  }
}

/** The one search of the log for events that should be queued and are not, and the way back onto the queue. */
module FindLost {
  import opened Events
  import opened Outbox

  /** A server other devices keep writing to: what lands between two requests is in `arrivals`. */
  class LiveServer {
    var log: seq<Event>
    var arrivals: seq<seq<Event>>

    constructor (log: seq<Event>, arrivals: seq<seq<Event>>)
      ensures this.log == log && this.arrivals == arrivals
    {
      this.log, this.arrivals := log, arrivals;
    }

    /** The events past `since`, at most `limit` of them, and the log they were read from. */
    method FetchEvents(since: nat, limit: nat) returns (page: seq<Event>)
      requires since <= |log|
      modifies this
      ensures old(log) <= log && |arrivals| <= |old(arrivals)|
      ensures |arrivals| == |old(arrivals)| ==> log == old(log)
      ensures since + |page| <= |log| && page == log[since..since + |page|]
      ensures limit > 0 && page == [] ==> since == |log|
    {
      if arrivals != [] {
        log, arrivals := log + arrivals[0], arrivals[1..];
      }
      page := if since + limit < |log| then log[since..since + limit] else log[since..];
    }
  }

  /** Every id the server's log held when the last, empty page came back. */
  method ServerEventIds(server: LiveServer, limit: nat, cursor: nat) returns (r: Result<set<EventId>>)
    requires limit > 0
    modifies server
    ensures old(server.log) <= server.log
    ensures r.Success? ==> r.value == Ids(server.log)
    ensures r.Failure? <==> cursor > 0 && server.log == []
  {
    var ids, since: nat := {}, 0;
    while true
      invariant old(server.log) <= server.log
      invariant since <= |server.log| && ids == Ids(server.log[..since])
      decreases |server.arrivals|, |server.log| - since
    {
      var page := server.FetchEvents(since, limit);
      if page == [] { break; }
      PageIds(server.log, since, page);
      ids := ids + Ids(page);
      since := since + |page|;
    }
    assert server.log[..since] == server.log;
    assert server.log != [] ==> server.log[0].id in ids;
    if cursor > 0 && ids == {} {
      return Failure("server log is empty but the replica cursor is past it");
    }
    return Success(ids);
  }

  lemma PageIds(log: seq<Event>, since: nat, page: seq<Event>)
    requires since + |page| <= |log| && page == log[since..since + |page|]
    ensures Ids(log[..since + |page|]) == Ids(log[..since]) + Ids(page)
  {
    var head := log[..since];
    var both := log[..since + |page|];
    forall id ensures id in Ids(both) <==> id in Ids(head) + Ids(page) {
      if id in Ids(both) {
        var i :| 0 <= i < |both| && both[i].id == id;
        assert if i < since then head[i].id == id else page[i - since].id == id;
      }
      if id in Ids(head) {
        var i :| 0 <= i < |head| && head[i].id == id;
        assert both[i].id == id;
      }
      if id in Ids(page) {
        var i :| 0 <= i < |page| && page[i].id == id;
        assert both[since + i].id == id;
      }
    }
  }

  /** Reads its own tip first, the server's log after it, and writes what it found on record. Fails only where there
      is something to ask the server about, and its log is empty under a cursor past 0. */
  method RecordLostEvents(box: OutboxTables, server: LiveServer, limit: nat, cursor: nat) returns (r: Result<()>)
    requires limit > 0
    modifies box, server
    ensures r.Failure? ==> box.State() == old(box.State())
    ensures r.Success? && old(box.logChecked) ==> box.State() == old(box.State())
    ensures r.Success? && !old(box.logChecked) ==>
              && box.State() == RecordLost(old(box.State()), |old(box.log)|, Ids(server.log))
              && box.logChecked
              && forall id :: id in box.unconfirmed <==>
                   || id in old(box.unconfirmed)
                   || (id !in Ids(server.log)
                       && exists p :: 0 <= p < |old(box.log)| && old(box.log)[p].event.id == id && LeftOff(old(box.State()), p))
    ensures r.Failure? <==>
              && !old(box.logChecked) && cursor > 0 && server.log == []
              && exists p :: 0 <= p < |old(box.log)| && LeftOff(old(box.State()), p)
  {
    if box.logChecked { return Success(()); }
    var tip := |box.log|;
    AnyLost(box.State());
    ghost var before := box.State();
    var serverIds := {};
    if Candidates(box.State(), tip) != {} {
      var read := ServerEventIds(server, limit, cursor);
      if read.Failure? { return Failure(read.error); }
      serverIds := read.value;
    }
    box.unconfirmed := box.unconfirmed + (Candidates(box.State(), tip) - serverIds);
    box.logChecked := true;
    assert box.State() == RecordLost(before, tip, Ids(server.log)) by {
      assert Candidates(before, tip) == {} ==> Candidates(before, tip) - serverIds == Candidates(before, tip) - Ids(server.log);
    }
    RecordLostIs(before, tip, Ids(server.log));
    return Success(());
  }

  lemma AnyLost(q: Queue)
    ensures Candidates(q, |q.log|) != {} <==> exists p :: 0 <= p < |q.log| && LeftOff(q, p)
  {
    RecordLostIs(q, |q.log|, {});
    forall p | 0 <= p < |q.log| ensures LostCandidate(q, |q.log|, p) <==> LeftOff(q, p) {
      LostIsLeftOff(q, p);
    }
    if p :| 0 <= p < |q.log| && LeftOff(q, p) {
      assert q.log[p].event.id in Candidates(q, |q.log|);
    }
    if id :| id in Candidates(q, |q.log|) {
      var p :| 0 <= p < |q.log| && LostCandidate(q, |q.log|, p) && q.log[p].event.id == id;
    }
  }

  /** Queues what is on record and still not on the server, oldest first, and clears the record. */
  method RestoreLostEvents(box: OutboxTables, server: LiveServer, limit: nat, cursor: nat) returns (r: Result<nat>)
    requires limit > 0
    modifies box, server
    ensures r.Failure? ==> box.State() == old(box.State())
    ensures r.Success? && old(box.unconfirmed) == {} ==> box.State() == old(box.State()) && r.value == 0
    ensures r.Success? && old(box.unconfirmed) != {} ==>
              && box.State() == RestoreLost(old(box.State()), Ids(server.log))
              && r.value == |box.entries| - |old(box.entries)|
              && box.unconfirmed == {} && old(box.entries) <= box.entries && box.log == old(box.log)
              && (forall p :: 0 <= p < |box.log| && box.log[p].event.id in old(box.unconfirmed) - Ids(server.log) ==>
                    QueuedFrom(box.entries, |old(box.entries)|, p + 1))
              && (forall i :: |old(box.entries)| <= i < |box.entries| ==>
                    && 1 <= box.entries[i].seq_ <= |box.log| && box.entries[i].event == box.log[box.entries[i].seq_ - 1].event
                    && box.entries[i].event.id in old(box.unconfirmed) && box.entries[i].event.id !in Ids(server.log))
              && (forall i, k :: |old(box.entries)| <= i < k < |box.entries| ==> box.entries[i].seq_ < box.entries[k].seq_)
    ensures r.Failure? <==> old(box.unconfirmed) != {} && cursor > 0 && server.log == []
  {
    if box.unconfirmed == {} { return Success(0); }
    var read := ServerEventIds(server, limit, cursor);
    if read.Failure? { return Failure(read.error); }
    ghost var before := box.State();
    ghost var served := server.log;
    assert before == old(box.State());
    var restored := 0;
    for i := 0 to |box.log|
      invariant server.log == served
      invariant box.log == before.log && box.unconfirmed == before.unconfirmed
      invariant box.State() == Restored(before, read.value, i)
      invariant restored == |box.entries| - |before.entries|
    {
      hide LastOriginSeq;
      if box.log[i].event.id in box.unconfirmed && box.log[i].event.id !in read.value {
        RestoredIs(before, read.value, i);
        box.Enqueue(i + 1, box.log[i].event);
        restored := restored + 1;
      }
    }
    RestoredIs(before, read.value, |box.log|);
    box.unconfirmed := {};
    assert box.State() == Restored(before, read.value, |before.log|).(unconfirmed := {});
    return Success(restored);
  }
}

/** Whole runs of the outbox: commands, incoming events, the search for lost ones, flushes that overlap,
    stop anywhere and start again, against a server that keeps one copy of each event. */
module Delivery {
  import opened Events
  import opened Outbox

  /** An event in the server's log, and whether a push of this device put it there. */
  datatype Stamp = Stamp(id: EventId, byMe: bool)

  /** `flushes` holds what each running flush still has to send, `scan` what a running search read first:
      its own tip, and how long the server's log was then. `incoming` are the events taken in from this
      server, `refused` those it ever refused. */
  datatype Site = Site(
    q: Queue,
    server: seq<Stamp>,
    flushes: map<nat, seq<nat>>,
    scan: Option<(nat, nat)>,
    incoming: set<EventId>,
    refused: set<EventId>)

  datatype Step =
    | Append(batch: seq<Event>)
    | Incoming(row: LogRow)
    | Elsewhere(id: EventId)
    | ScanStart
    | ScanEnd(read: nat)
    | Restore(read: nat)
    | FlushStart(flush: nat, limit: nat)
    | Accept(flush: nat)
    | Mark(flush: nat)
    | Refuse(flush: nat, refusal: Refusal)
    | Stop(flush: nat)
    | Requeue

  function LogIds(log: seq<LogRow>): set<EventId> { set p | 0 <= p < |log| :: log[p].event.id }

  function Stamped(server: seq<Stamp>): set<EventId> { set i | 0 <= i < |server| :: server[i].id }

  function Head(s: Site, flush: nat): EventId
    requires flush in s.flushes && s.flushes[flush] != [] && AreEntries(s.q.entries, s.flushes[flush])
  {
    s.q.entries[s.flushes[flush][0]].event.id
  }

  predicate Sending(s: Site, flush: nat) {
    flush in s.flushes && s.flushes[flush] != [] && AreEntries(s.q.entries, s.flushes[flush])
  }

  predicate Enabled(s: Site, step: Step) {
    match step
    case Append(batch) => DistinctIds(batch) && Ids(batch) !! LogIds(s.q.log) && Ids(batch) !! Stamped(s.server)
    case Incoming(row) => row.event.id in Stamped(s.server) && row.event.id !in LogIds(s.q.log)
    case Elsewhere(id) => id !in Stamped(s.server) && id !in Queued(s.q.entries)
    case ScanStart => true
    case ScanEnd(read) => s.scan.Some? && s.scan.value.1 <= read <= |s.server|
    case Restore(read) => read <= |s.server|
    case FlushStart(flush, _) => s.q.logChecked && flush !in s.flushes
    case Accept(flush) => Sending(s, flush)
    case Mark(flush) => Sending(s, flush) && Head(s, flush) in Stamped(s.server)
    case Refuse(flush, _) => Sending(s, flush)
    case Stop(_) => true
    case Requeue => true
  }

  function Do(s: Site, step: Step): Site
    requires Enabled(s, step)
  {
    match step
    case Append(batch) => s.(q := Appended(s.q, batch))
    case Incoming(row) => s.(q := s.q.(log := s.q.log + [row]), incoming := s.incoming + {row.event.id})
    case Elsewhere(id) => s.(server := s.server + [Stamp(id, false)])
    case ScanStart => s.(scan := Some((|s.q.log|, |s.server|)))
    case ScanEnd(read) => s.(q := RecordLost(s.q, s.scan.value.0, Stamped(s.server[..read])), scan := None)
    case Restore(read) => s.(q := RestoreLost(s.q, Stamped(s.server[..read])))
    case FlushStart(flush, limit) => s.(flushes := s.flushes[flush := Sendable(s.q, limit)])
    case Accept(flush) =>
      if Head(s, flush) in Stamped(s.server) then s else s.(server := s.server + [Stamp(Head(s, flush), true)])
    case Mark(flush) =>
      s.(q := MarkFlushed(s.q, s.flushes[flush][0]), flushes := s.flushes[flush := s.flushes[flush][1..]])
    case Refuse(flush, refusal) =>
      s.(q := MarkRejected(s.q, s.flushes[flush][0], refusal),
         refused := s.refused + {Head(s, flush)}, flushes := s.flushes[flush := s.flushes[flush][1..]])
    case Stop(flush) => s.(flushes := s.flushes - {flush})
    case Requeue => s.(q := RequeueRejected(s.q))
  }

  ghost predicate Possible(s: Site, steps: seq<Step>)
    decreases |steps|
  {
    steps == [] || (Enabled(s, steps[0]) && Possible(Do(s, steps[0]), steps[1..]))
  }

  ghost function Run(s: Site, steps: seq<Step>): Site
    requires Possible(s, steps)
    decreases |steps|
  {
    if steps == [] then s else Run(Do(s, steps[0]), steps[1..])
  }

  // -------------------------------------------------------------------- the invariant

  predicate DistinctRows(log: seq<LogRow>) {
    forall p, r :: 0 <= p < r < |log| ==> log[p].event.id != log[r].event.id
  }

  /** Each entry carries the event logged at its seq, and no event has two. */
  ghost predicate Linked(log: seq<LogRow>, entries: seq<Entry>) {
    && (forall i :: 0 <= i < |entries| ==> 1 <= entries[i].seq_ <= |log| && entries[i].event == log[entries[i].seq_ - 1].event)
    && (forall i, k :: 0 <= i < k < |entries| ==> entries[i].event.id != entries[k].event.id)
  }

  /** An event of this device, as far as anything here can tell: queued, or logged as an older binary did. */
  predicate Mine(q: Queue, p: nat)
    requires p < |q.log|
  {
    q.log[p].event.id in Queued(q.entries) || LooksLocal(q.log[p])
  }

  /** Two events of one task, the first of them of this device. */
  predicate Earlier(q: Queue, p: nat, r: int) {
    && p < r < |q.log| && Mine(q, p)
    && q.log[p].event.payload.TargetTask().Some?
    && q.log[p].event.payload.TargetTask() == q.log[r].event.payload.TargetTask()
  }

  /** Whatever a push brought to the server found every earlier event of its task there, unless that one
      was refused. */
  ghost predicate ServedInOrder(s: Site) {
    forall j, p: nat, r: nat | 0 <= j < |s.server| && Earlier(s.q, p, r) && s.server[j] == Stamp(s.q.log[r].event.id, true) ::
      s.q.log[p].event.id in s.refused || s.q.log[p].event.id in Stamped(s.server[..j])
  }

  function Listed(entries: seq<Entry>, ids: seq<nat>): set<EventId>
    requires AreEntries(entries, ids)
  {
    set k | 0 <= k < |ids| :: entries[ids[k]].event.id
  }

  /** A flush sends nothing ahead of an earlier event of its task. */
  ghost predicate ListInOrder(q: Queue, served: set<EventId>, refused: set<EventId>, ids: seq<nat>)
    requires AreEntries(q.entries, ids)
  {
    forall k, p: nat | 0 <= k < |ids| && Earlier(q, p, q.entries[ids[k]].seq_ - 1) ::
      var id := q.log[p].event.id;
      id in refused || id in served || id in Listed(q.entries, ids[..k])
  }

  ghost predicate QueueSound(s: Site) {
    && DistinctRows(s.q.log) && Linked(s.q.log, s.q.entries)
    && (forall p :: 0 <= p < |s.q.log| && s.q.log[p].event.id in s.q.unconfirmed ==>
          LooksLocal(s.q.log[p]) && s.q.log[p].event.id !in Queued(s.q.entries))
    && s.q.unconfirmed <= LogIds(s.q.log)
  }

  ghost predicate ServerSound(s: Site) {
    && (forall i, j :: 0 <= i < j < |s.server| ==> s.server[i].id != s.server[j].id)
    && (forall i :: 0 <= i < |s.server| && s.server[i].byMe ==> s.server[i].id in Queued(s.q.entries))
    && s.incoming <= Stamped(s.server) && s.incoming !! Queued(s.q.entries) && s.incoming !! s.q.unconfirmed
    && (forall i :: 0 <= i < |s.q.entries| && s.q.entries[i].flushed ==> s.q.entries[i].event.id in Stamped(s.server))
    && (forall i :: i in s.q.rejected ==> i < |s.q.entries| && s.q.entries[i].event.id in s.refused)
  }

  /** Once the log was searched, what looks local is queued, on record or on the server. */
  ghost predicate NothingOverlooked(s: Site) {
    s.q.logChecked ==> forall p | 0 <= p < |s.q.log| && LooksLocal(s.q.log[p]) ::
      var id := s.q.log[p].event.id;
      id in Queued(s.q.entries) || id in s.q.unconfirmed || id in Stamped(s.server)
  }

  /** A running search read its tip first: what came in before it, it will find on the server, and what is
      logged after it is queued or came from there. */
  ghost predicate ScanSound(s: Site) {
    s.scan.Some? ==>
      var (tip, length) := s.scan.value;
      && tip <= |s.q.log| && length <= |s.server|
      && (forall p :: 0 <= p < tip && s.q.log[p].event.id in s.incoming ==>
            s.q.log[p].event.id in Stamped(s.server[..length]))
      && (forall p :: tip <= p < |s.q.log| ==>
            s.q.log[p].event.id in Queued(s.q.entries) || s.q.log[p].event.id in Stamped(s.server))
  }

  ghost predicate FlushesInOrder(s: Site) {
    forall f | f in s.flushes ::
      AreEntries(s.q.entries, s.flushes[f]) && ListInOrder(s.q, Stamped(s.server), s.refused, s.flushes[f])
  }

  ghost predicate Inv(s: Site) {
    QueueSound(s) && ServerSound(s) && NothingOverlooked(s) && ScanSound(s) && ServedInOrder(s) && FlushesInOrder(s)
  }

  /** Where a run can begin: any log and any queue an older binary left, nothing pushed by this run yet. */
  ghost predicate Start(s: Site) {
    && QueueSound(s) && ServerSound(s)
    && !s.q.logChecked && s.scan == None && s.flushes == map[]
    && (forall i :: 0 <= i < |s.server| ==> !s.server[i].byMe)
  }

  lemma StartGivesInv(s: Site)
    requires Start(s)
    ensures Inv(s)
  {
  }

  // ------------------------------------------------------------------------- small facts

  lemma StampedGrows(server: seq<Stamp>, stamp: Stamp)
    ensures Stamped(server + [stamp]) == Stamped(server) + {stamp.id}
  {
    var longer := server + [stamp];
    assert longer[|server|] == stamp;
    forall id ensures id in Stamped(longer) <==> id in Stamped(server) + {stamp.id} {
      if id in Stamped(server) {
        var i :| 0 <= i < |server| && server[i].id == id;
        assert longer[i].id == id;
      }
    }
  }

  lemma StampedPrefix(server: seq<Stamp>, a: nat, b: nat)
    requires a <= b <= |server|
    ensures Stamped(server[..a]) <= Stamped(server[..b]) <= Stamped(server)
  {
    forall id | id in Stamped(server[..a]) ensures id in Stamped(server[..b]) {
      var i :| 0 <= i < a && server[..a][i].id == id;
      assert server[..b][i].id == id;
    }
    forall id | id in Stamped(server[..b]) ensures id in Stamped(server) {
      var i :| 0 <= i < b && server[..b][i].id == id;
      assert server[i].id == id;
    }
  }

  lemma QueuedGrows(entries: seq<Entry>, e: Entry)
    ensures Queued(entries + [e]) == Queued(entries) + {e.event.id}
  {
    var longer := entries + [e];
    assert longer[|entries|] == e;
    forall id ensures id in Queued(longer) <==> id in Queued(entries) + {e.event.id} {
      if id in Queued(entries) {
        var i :| 0 <= i < |entries| && entries[i].event.id == id;
        assert longer[i].event.id == id;
      }
    }
  }

  lemma LogIdsGrow(log: seq<LogRow>, row: LogRow)
    ensures LogIds(log + [row]) == LogIds(log) + {row.event.id}
  {
    var longer := log + [row];
    assert longer[|log|] == row;
    forall id ensures id in LogIds(longer) <==> id in LogIds(log) + {row.event.id} {
      if id in LogIds(log) {
        var i :| 0 <= i < |log| && log[i].event.id == id;
        assert longer[i].event.id == id;
      }
    }
  }

  /** The queue may only grow at its ends for what was in order to stay so. */
  ghost predicate Extends(q: Queue, q': Queue) {
    && q.log <= q'.log && |q.entries| <= |q'.entries|
    && (forall i :: 0 <= i < |q.entries| ==> q'.entries[i].event == q.entries[i].event && q'.entries[i].seq_ == q.entries[i].seq_)
    && (forall p: nat :: p < |q.log| && Mine(q', p) ==> Mine(q, p))
  }

  lemma ListStaysInOrder(q: Queue, q': Queue, served: set<EventId>, served': set<EventId>,
                         refused: set<EventId>, refused': set<EventId>, ids: seq<nat>)
    requires Extends(q, q') && served <= served' && refused <= refused' && Linked(q.log, q.entries)
    requires AreEntries(q.entries, ids) && ListInOrder(q, served, refused, ids)
    ensures AreEntries(q'.entries, ids) && ListInOrder(q', served', refused', ids)
  {
    forall k, p: nat | 0 <= k < |ids| && Earlier(q', p, q'.entries[ids[k]].seq_ - 1)
      ensures var id := q'.log[p].event.id;
              id in refused' || id in served' || id in Listed(q'.entries, ids[..k])
    {
      assert Earlier(q, p, q.entries[ids[k]].seq_ - 1);
      var id := q.log[p].event.id;
      if id in Listed(q.entries, ids[..k]) {
        var m :| 0 <= m < k && q.entries[ids[..k][m]].event.id == id;
        assert q'.entries[ids[..k][m]].event.id == id;
      }
    }
  }

  lemma FlushesStayInOrder(s: Site, s': Site)
    requires FlushesInOrder(s) && Extends(s.q, s'.q) && Linked(s.q.log, s.q.entries)
    requires Stamped(s.server) <= Stamped(s'.server) && s.refused <= s'.refused && s'.flushes == s.flushes
    ensures FlushesInOrder(s')
  {
    forall f | f in s'.flushes
      ensures AreEntries(s'.q.entries, s'.flushes[f])
      ensures ListInOrder(s'.q, Stamped(s'.server), s'.refused, s'.flushes[f])
    {
      ListStaysInOrder(s.q, s'.q, Stamped(s.server), Stamped(s'.server), s.refused, s'.refused, s.flushes[f]);
    }
  }

  /** New log rows and entries leave alone what the server holds, when no new row is on the server by a push. */
  lemma ServedStaysInOrder(s: Site, s': Site)
    requires ServedInOrder(s) && Extends(s.q, s'.q) && s'.server == s.server && s.refused <= s'.refused
    requires forall r, j :: |s.q.log| <= r < |s'.q.log| && 0 <= j < |s.server| ==>
               s.server[j] != Stamp(s'.q.log[r].event.id, true)
    ensures ServedInOrder(s')
  {
    forall j, p: nat, r: nat | 0 <= j < |s.server| && Earlier(s'.q, p, r) && s.server[j] == Stamp(s'.q.log[r].event.id, true)
      ensures s'.q.log[p].event.id in s'.refused || s'.q.log[p].event.id in Stamped(s.server[..j])
    {
      assert r < |s.q.log|;
      assert Earlier(s.q, p, r);
    }
  }

  // ------------------------------------------------------------------- the steps keep it

  lemma QueuedIsLogged(q: Queue, id: EventId)
    requires Linked(q.log, q.entries) && id in Queued(q.entries)
    ensures id in LogIds(q.log)
  {
    var i :| 0 <= i < |q.entries| && q.entries[i].event.id == id;
    assert q.log[q.entries[i].seq_ - 1].event.id == id;
  }

  lemma AppendOneFacts(q: Queue, e: Event)
    ensures Queued(AppendOne(q, e).entries) == Queued(q.entries) + {e.id}
    ensures LogIds(AppendOne(q, e).log) == LogIds(q.log) + {e.id}
  {
    QueuedGrows(q.entries, AppendOne(q, e).entries[|q.entries|]);
    LogIdsGrow(q.log, LogRow(e, None, true));
  }

  lemma AppendOneKeepsSound(s: Site, e: Event)
    requires QueueSound(s) && ServerSound(s) && e.id !in LogIds(s.q.log) && e.id !in Stamped(s.server)
    ensures var s' := s.(q := AppendOne(s.q, e)); QueueSound(s') && ServerSound(s') && Extends(s.q, s'.q)
  {
    AppendOneKeepsQueue(s, e);
    AppendOneKeepsServer(s, e);
  }

  lemma AppendOneKeepsServer(s: Site, e: Event)
    requires ServerSound(s) && e.id !in Stamped(s.server)
    ensures ServerSound(s.(q := AppendOne(s.q, e)))
  {
    hide LastOriginSeq, Stamped, LogIds, Queued;
    AppendOneFacts(s.q, e);
  }

  lemma AppendOneKeepsQueue(s: Site, e: Event)
    requires QueueSound(s) && e.id !in LogIds(s.q.log)
    ensures var s' := s.(q := AppendOne(s.q, e)); QueueSound(s') && Extends(s.q, s'.q)
  {
    hide LastOriginSeq, OldKind;
    AppendOneFacts(s.q, e);
    forall p | 0 <= p < |s.q.log| ensures s.q.log[p].event.id != e.id {
      assert s.q.log[p].event.id in LogIds(s.q.log);
    }
    forall i | 0 <= i < |s.q.entries| ensures s.q.entries[i].event.id != e.id {
      assert s.q.entries[i].event.id in Queued(s.q.entries);
      QueuedIsLogged(s.q, s.q.entries[i].event.id);
    }
  }

  lemma FreshIsUnseen(s: Site, e: Event)
    requires e.id !in Stamped(s.server)
    ensures forall j :: 0 <= j < |s.server| ==> s.server[j] != Stamp(e.id, true)
  {
  }

  lemma AppendOneKeeps(s: Site, e: Event)
    requires Inv(s) && e.id !in LogIds(s.q.log) && e.id !in Stamped(s.server)
    ensures Inv(s.(q := AppendOne(s.q, e)))
  {
    hide QueueSound, ServerSound, FlushesInOrder, ServedInOrder, LastOriginSeq;
    var s' := s.(q := AppendOne(s.q, e));
    AppendOneKeepsSound(s, e);
    AppendOneFacts(s.q, e);
    FreshIsUnseen(s, e);
    ServedStaysInOrder(s, s');
    AppendFlushes(s, s');
    assert forall p :: 0 <= p < |s.q.log| ==> s'.q.log[p] == s.q.log[p];
  }

  lemma AppendFlushes(s: Site, s': Site)
    requires QueueSound(s) && FlushesInOrder(s) && Extends(s.q, s'.q)
    requires Stamped(s.server) <= Stamped(s'.server) && s.refused <= s'.refused && s'.flushes == s.flushes
    ensures FlushesInOrder(s')
  {
    FlushesStayInOrder(s, s');
  }

  lemma {:induction false} AppendKeeps(s: Site, batch: seq<Event>)
    requires Inv(s) && Enabled(s, Append(batch))
    ensures Inv(Do(s, Append(batch)))
    ensures LogIds(Appended(s.q, batch).log) == LogIds(s.q.log) + Ids(batch)
    ensures Queued(Appended(s.q, batch).entries) == Queued(s.q.entries) + Ids(batch)
    decreases |batch|
  {
    hide Inv;
    if batch == [] {
      assert Ids(batch) == {};
    } else {
      var n := |batch| - 1;
      var init, e := batch[..n], batch[n];
      assert Ids(batch) == Ids(init) + {e.id} by { SplitIds(batch); }
      assert e.id !in Ids(init) by { LastIsNew(batch); }
      AppendKeeps(s, init);
      var s1 := Do(s, Append(init));
      AppendOneFacts(s1.q, e);
      AppendOneKeeps(s1, e);
    }
  }

  lemma SplitIds(batch: seq<Event>)
    requires batch != []
    ensures Ids(batch) == Ids(batch[..|batch| - 1]) + {batch[|batch| - 1].id}
  {
    var init := batch[..|batch| - 1];
    forall id ensures id in Ids(batch) <==> id in Ids(init) + {batch[|batch| - 1].id} {
      if id in Ids(init) {
        var i :| 0 <= i < |init| && init[i].id == id;
        assert batch[i].id == id;
      }
      if id in Ids(batch) {
        var i :| 0 <= i < |batch| && batch[i].id == id;
        assert i < |init| ==> init[i].id == id;
      }
    }
  }

  lemma LastIsNew(batch: seq<Event>)
    requires batch != [] && DistinctIds(batch)
    ensures batch[|batch| - 1].id !in Ids(batch[..|batch| - 1])
  {
    var init := batch[..|batch| - 1];
    forall i | 0 <= i < |init| ensures init[i].id != batch[|batch| - 1].id {
      assert init[i] == batch[i];
    }
  }

  // ------------------------------------------------------------------- an incoming event

  lemma IncomingSound(s: Site, row: LogRow)
    requires QueueSound(s) && ServerSound(s) && Enabled(s, Incoming(row))
    ensures var s' := Do(s, Incoming(row)); QueueSound(s') && ServerSound(s') && Extends(s.q, s'.q)
  {
    hide Stamped;
    LogIdsGrow(s.q.log, row);
    assert row.event.id !in Queued(s.q.entries) by {
      if row.event.id in Queued(s.q.entries) { QueuedIsLogged(s.q, row.event.id); }
    }
    forall p | 0 <= p < |s.q.log| ensures s.q.log[p].event.id != row.event.id {
      assert s.q.log[p].event.id in LogIds(s.q.log);
    }
  }

  lemma IncomingKeeps(s: Site, row: LogRow)
    requires Inv(s) && Enabled(s, Incoming(row))
    ensures Inv(Do(s, Incoming(row)))
  {
    hide FlushesInOrder, ServedInOrder;
    var s' := Do(s, Incoming(row));
    IncomingSound(s, row);
    assert forall p :: 0 <= p < |s.q.log| ==> s'.q.log[p] == s.q.log[p];
    forall j | 0 <= j < |s.server| ensures s.server[j] != Stamp(row.event.id, true) {
      if s.server[j] == Stamp(row.event.id, true) { QueuedIsLogged(s.q, row.event.id); }
    }
    ServedStaysInOrder(s, s');
    AppendFlushes(s, s');
    LogIdsGrow(s.q.log, row);
    IncomingScan(s, row);
  }

  lemma IncomingScan(s: Site, row: LogRow)
    requires ScanSound(s) && Enabled(s, Incoming(row))
    ensures ScanSound(Do(s, Incoming(row)))
  {
    if s.scan.Some? {
      var (tip, length) := s.scan.value;
      var s' := Do(s, Incoming(row));
      forall p | 0 <= p < tip && s'.q.log[p].event.id in s'.incoming
        ensures s'.q.log[p].event.id in Stamped(s'.server[..length])
      {
        assert s'.q.log[p] == s.q.log[p];
        assert s.q.log[p].event.id in LogIds(s.q.log);
      }
    }
  }

  // ------------------------------------------------------------------- the server grows

  /** Another event at the end of the server's log, by a push only if nothing earlier of its task is missing. */
  lemma StampKeeps(s: Site, stamp: Stamp)
    requires Inv(s) && stamp.id !in Stamped(s.server)
    requires stamp.byMe ==> stamp.id in Queued(s.q.entries)
    requires stamp.byMe ==> forall p: nat, r: nat | Earlier(s.q, p, r) && s.q.log[r].event.id == stamp.id ::
               s.q.log[p].event.id in s.refused || s.q.log[p].event.id in Stamped(s.server)
    ensures Inv(s.(server := s.server + [stamp]))
  {
    hide FlushesInOrder;
    var s' := s.(server := s.server + [stamp]);
    StampedGrows(s.server, stamp);
    AppendFlushes(s, s');
    assert ServerSound(s') by {
      forall i | 0 <= i < |s.server| ensures s.server[i].id != stamp.id {
        assert s.server[i].id in Stamped(s.server);
      }
    }
    if s.scan.Some? {
      assert s'.server[..s.scan.value.1] == s.server[..s.scan.value.1];
    }
    forall j, p: nat, r: nat | 0 <= j < |s'.server| && Earlier(s.q, p, r) && s'.server[j] == Stamp(s.q.log[r].event.id, true)
      ensures s.q.log[p].event.id in s.refused || s.q.log[p].event.id in Stamped(s'.server[..j])
    {
      if j < |s.server| {
        assert s'.server[..j] == s.server[..j];
        assert s.server[j] == Stamp(s.q.log[r].event.id, true);
      } else {
        assert s'.server[..j] == s.server;
      }
    }
  }

  lemma AcceptKeeps(s: Site, flush: nat)
    requires Inv(s) && Enabled(s, Accept(flush))
    ensures Inv(Do(s, Accept(flush)))
  {
    var id := Head(s, flush);
    if id !in Stamped(s.server) {
      var ids := s.flushes[flush];
      var first := s.q.entries[ids[0]];
      assert id in Queued(s.q.entries);
      forall p: nat, r: nat | Earlier(s.q, p, r) && s.q.log[r].event.id == id
        ensures s.q.log[p].event.id in s.refused || s.q.log[p].event.id in Stamped(s.server)
      {
        assert r == first.seq_ - 1 by {
          assert s.q.log[first.seq_ - 1].event.id == id;
        }
        assert ListInOrder(s.q, Stamped(s.server), s.refused, ids);
        assert Earlier(s.q, p, s.q.entries[ids[0]].seq_ - 1);
        assert Listed(s.q.entries, ids[..0]) == {};
      }
      StampKeeps(s, Stamp(id, true));
    }
  }

  // -------------------------------------------------------------------------- a flush

  lemma ListTail(q: Queue, served: set<EventId>, refused: set<EventId>, ids: seq<nat>)
    requires ids != [] && AreEntries(q.entries, ids) && ListInOrder(q, served, refused, ids)
    requires q.entries[ids[0]].event.id in served || q.entries[ids[0]].event.id in refused
    ensures ListInOrder(q, served, refused, ids[1..])
  {
    var rest := ids[1..];
    forall k, p: nat | 0 <= k < |rest| && Earlier(q, p, q.entries[rest[k]].seq_ - 1)
      ensures var id := q.log[p].event.id; id in refused || id in served || id in Listed(q.entries, rest[..k])
    {
      var id := q.log[p].event.id;
      assert rest[k] == ids[k + 1];
      if id in Listed(q.entries, ids[..k + 1]) {
        var m :| 0 <= m < k + 1 && q.entries[ids[..k + 1][m]].event.id == id;
        if m > 0 {
          assert rest[..k][m - 1] == ids[..k + 1][m];
        }
      }
    }
  }

  lemma MarkExtends(q: Queue, id: nat)
    ensures Extends(q, MarkFlushed(q, id))
    ensures Queued(MarkFlushed(q, id).entries) == Queued(q.entries)
  {
    var q' := MarkFlushed(q, id);
    assert |q'.entries| == |q.entries| && forall i :: 0 <= i < |q.entries| ==> q'.entries[i].event == q.entries[i].event;
    forall x ensures x in Queued(q'.entries) <==> x in Queued(q.entries) {
      if x in Queued(q.entries) {
        var i :| 0 <= i < |q.entries| && q.entries[i].event.id == x;
        assert q'.entries[i].event.id == x;
      }
    }
  }

  /** The end of one entry's turn: marked flushed, or refused for good. */
  lemma TurnKeepsFlushes(s: Site, s': Site, flush: nat)
    requires QueueSound(s) && FlushesInOrder(s) && Sending(s, flush) && Extends(s.q, s'.q)
    requires s'.server == s.server && s.refused <= s'.refused
    requires s'.flushes == s.flushes[flush := s.flushes[flush][1..]]
    requires Head(s, flush) in Stamped(s.server) || Head(s, flush) in s'.refused
    ensures FlushesInOrder(s')
  {
    forall f | f in s'.flushes
      ensures AreEntries(s'.q.entries, s'.flushes[f])
      ensures ListInOrder(s'.q, Stamped(s'.server), s'.refused, s'.flushes[f])
    {
      ListStaysInOrder(s.q, s'.q, Stamped(s.server), Stamped(s'.server), s.refused, s'.refused, s.flushes[f]);
      if f == flush {
        ListTail(s'.q, Stamped(s'.server), s'.refused, s.flushes[f]);
      }
    }
  }

  /** What one entry's turn leaves alone. */
  ghost predicate SameEvents(q: Queue, q': Queue) {
    && q'.log == q.log && q'.unconfirmed == q.unconfirmed && q'.logChecked == q.logChecked
    && |q'.entries| == |q.entries| && Queued(q'.entries) == Queued(q.entries)
    && forall i :: 0 <= i < |q.entries| ==> q'.entries[i].event == q.entries[i].event && q'.entries[i].seq_ == q.entries[i].seq_
  }

  lemma TurnKeepsQueue(s: Site, s': Site)
    requires Inv(s) && SameEvents(s.q, s'.q)
    requires s'.server == s.server && s'.scan == s.scan && s'.incoming == s.incoming
    ensures QueueSound(s') && NothingOverlooked(s') && ScanSound(s')
  {
    hide FlushesInOrder, ServedInOrder, Stamped, Queued, LogIds;
  }

  lemma TurnKeeps(s: Site, s': Site, flush: nat)
    requires Inv(s) && SameEvents(s.q, s'.q) && Sending(s, flush)
    requires s'.server == s.server && s'.scan == s.scan && s'.incoming == s.incoming && s.refused <= s'.refused
    requires s'.flushes == s.flushes[flush := s.flushes[flush][1..]]
    requires Head(s, flush) in Stamped(s.server) || Head(s, flush) in s'.refused
    requires ServerSound(s')
    ensures Inv(s')
  {
    hide QueueSound, NothingOverlooked, ScanSound, FlushesInOrder, ServedInOrder, ServerSound;
    TurnKeepsQueue(s, s');
    assert Extends(s.q, s'.q);
    assert QueueSound(s) && FlushesInOrder(s) && ServedInOrder(s);
    TurnKeepsFlushes(s, s', flush);
    ServedStaysInOrder(s, s');
  }

  lemma MarkKeeps(s: Site, flush: nat)
    requires Inv(s) && Enabled(s, Mark(flush))
    ensures Inv(Do(s, Mark(flush)))
  {
    hide FlushesInOrder, ServedInOrder, ScanSound, NothingOverlooked;
    var s' := Do(s, Mark(flush));
    MarkExtends(s.q, s.flushes[flush][0]);
    assert ServerSound(s');
    hide ServerSound;
    TurnKeeps(s, s', flush);
  }

  lemma RefuseKeeps(s: Site, flush: nat, refusal: Refusal)
    requires Inv(s) && Enabled(s, Refuse(flush, refusal))
    ensures Inv(Do(s, Refuse(flush, refusal)))
  {
    hide FlushesInOrder, ServedInOrder, ScanSound, NothingOverlooked;
    var s' := Do(s, Refuse(flush, refusal));
    assert ServerSound(s');
    hide ServerSound;
    TurnKeeps(s, s', flush);
  }

  lemma FlushStartKeeps(s: Site, flush: nat, limit: nat)
    requires Inv(s) && Enabled(s, FlushStart(flush, limit))
    ensures Inv(Do(s, FlushStart(flush, limit)))
  {
    var ids := Sendable(s.q, limit);
    SendableInOrder(s, limit);
  }

  lemma HeldKeepsBehind(s: Site, p: nat, x: nat)
    requires QueueSound(s) && x < |s.q.entries| && Earlier(s.q, p, s.q.entries[x].seq_ - 1)
    requires s.q.log[p].event.id in s.q.unconfirmed
    ensures WaitsForHeld(HeldTasks(s.q.log, s.q.unconfirmed), s.q.entries[x])
  {
    HeldFrom(s.q.log, s.q.unconfirmed, p);
  }

  lemma HeldPassesOn(s: Site, y: nat, x: nat)
    requires QueueSound(s) && x < |s.q.entries| && y < |s.q.entries|
    requires Earlier(s.q, s.q.entries[y].seq_ - 1, s.q.entries[x].seq_ - 1)
    ensures WaitsForHeld(HeldTasks(s.q.log, s.q.unconfirmed), s.q.entries[y]) ==>
            WaitsForHeld(HeldTasks(s.q.log, s.q.unconfirmed), s.q.entries[x])
  {
  }

  /** What a flush is about to send has every earlier event of its task refused, served, or ahead of it. */
  lemma SendableInOrder(s: Site, limit: nat)
    requires Inv(s) && s.q.logChecked
    ensures ListInOrder(s.q, Stamped(s.server), s.refused, Sendable(s.q, limit))
  {
    hide Inv, Sendable, Mine, Stamped, Listed;
    var ids := Sendable(s.q, limit);
    SendableOldestFirst(s.q, limit);
    forall k, p: nat | 0 <= k < |ids| && Earlier(s.q, p, s.q.entries[ids[k]].seq_ - 1)
      ensures var id := s.q.log[p].event.id;
              id in s.refused || id in Stamped(s.server) || id in Listed(s.q.entries, ids[..k])
    {
      EarlierIsAhead(s, limit, k, p);
    }
  }

  lemma EarlierIsAhead(s: Site, limit: nat, k: nat, p: nat)
    requires Inv(s) && s.q.logChecked && k < |Sendable(s.q, limit)|
    requires AreEntries(s.q.entries, Sendable(s.q, limit))
    requires Earlier(s.q, p, s.q.entries[Sendable(s.q, limit)[k]].seq_ - 1)
    ensures var id := s.q.log[p].event.id;
            id in s.refused || id in Stamped(s.server) || id in Listed(s.q.entries, Sendable(s.q, limit)[..k])
  {
    hide Sendable, HeldTasks, Stamped, FlushesInOrder, ServedInOrder, ScanSound, LooksLocal, InSendOrder;
    var ids, id := Sendable(s.q, limit), s.q.log[p].event.id;
    SendableOldestFirst(s.q, limit);
    assert ids[k] in ids;
    if id in Queued(s.q.entries) {
      var y :| 0 <= y < |s.q.entries| && s.q.entries[y].event.id == id;
      assert s.q.entries[y].seq_ - 1 == p;
      if IsPending(s.q, y) {
        HeldPassesOn(s, y, ids[k]);
        assert y in ids[..k];
        var m :| 0 <= m < k && ids[..k][m] == y;
      }
    } else if id in s.q.unconfirmed {
      HeldKeepsBehind(s, p, ids[k]);
    }
  }

  // ------------------------------------------------------------- lost events, and their way back

  lemma ScanEndKeeps(s: Site, read: nat)
    requires Inv(s) && Enabled(s, ScanEnd(read))
    ensures Inv(Do(s, ScanEnd(read)))
  {
    hide FlushesInOrder, ServedInOrder;
    var s' := Do(s, ScanEnd(read));
    var (tip, length) := s.scan.value;
    StampedPrefix(s.server, length, read);
    assert Extends(s.q, s'.q);
    ServedStaysInOrder(s, s');
    AppendFlushes(s, s');
    RecordedIsLost(s, read);
  }

  lemma RecordedIsLost(s: Site, read: nat)
    requires Inv(s) && Enabled(s, ScanEnd(read))
    ensures var s' := Do(s, ScanEnd(read));
            QueueSound(s') && ServerSound(s') && NothingOverlooked(s')
  {
    hide FlushesInOrder, ServedInOrder;
    var s' := Do(s, ScanEnd(read));
    var (tip, length) := s.scan.value;
    StampedPrefix(s.server, length, read);
    var new_ := Candidates(s.q, tip) - Stamped(s.server[..read]);
    forall p | 0 <= p < |s.q.log| && s.q.log[p].event.id in new_
      ensures LostCandidate(s.q, tip, p) && s.q.log[p].event.id !in s.incoming
    {
      var p' :| 0 <= p' < |s.q.log| && LostCandidate(s.q, tip, p') && s.q.log[p'].event.id == s.q.log[p].event.id;
      assert p == p';
    }
    forall id | id in new_ ensures id in LogIds(s.q.log) && id !in s.incoming {
      var p :| 0 <= p < |s.q.log| && LostCandidate(s.q, tip, p) && s.q.log[p].event.id == id;
    }
    forall p | 0 <= p < |s.q.log| && LooksLocal(s.q.log[p])
      ensures var id := s.q.log[p].event.id;
              id in Queued(s'.q.entries) || id in s'.q.unconfirmed || id in Stamped(s.server)
    {
      if p < tip && s.q.log[p].event.id !in Queued(s.q.entries) {
        assert LostCandidate(s.q, tip, p);
      }
    }
  }

  /** One event on record goes back on the queue. */
  lemma RestoreOneKeeps(s: Site, p: nat)
    requires Inv(s) && p < |s.q.log| && s.q.log[p].event.id in s.q.unconfirmed
    ensures var e := s.q.log[p].event;
            Inv(s.(q := EnqueueNext(s.q, p + 1, e).(unconfirmed := s.q.unconfirmed - {e.id})))
  {
    hide FlushesInOrder, ServedInOrder, LastOriginSeq, Stamped, QueueSound, Linked, LooksLocal;
    var e := s.q.log[p].event;
    var s' := s.(q := EnqueueNext(s.q, p + 1, e).(unconfirmed := s.q.unconfirmed - {e.id}));
    QueuedGrows(s.q.entries, s'.q.entries[|s.q.entries|]);
    RestoredQueueSound(s, p);
    hide Queued;
    ServedStaysInOrder(s, s');
    AppendFlushes(s, s');
  }

  lemma RestoredQueueSound(s: Site, p: nat)
    requires QueueSound(s) && p < |s.q.log| && s.q.log[p].event.id in s.q.unconfirmed
    ensures var e := s.q.log[p].event;
            var s' := s.(q := EnqueueNext(s.q, p + 1, e).(unconfirmed := s.q.unconfirmed - {e.id}));
            QueueSound(s') && Extends(s.q, s'.q)
  {
    hide LastOriginSeq, LooksLocal;
    var e := s.q.log[p].event;
    var s' := s.(q := EnqueueNext(s.q, p + 1, e).(unconfirmed := s.q.unconfirmed - {e.id}));
    QueuedGrows(s.q.entries, s'.q.entries[|s.q.entries|]);
    forall i | 0 <= i < |s.q.entries| ensures s.q.entries[i].event.id != e.id {
      assert s.q.entries[i].event.id in Queued(s.q.entries);
    }
    forall r: nat | r < |s.q.log| && Mine(s'.q, r) ensures Mine(s.q, r) {
      if s.q.log[r].event.id == e.id { assert r == p; }
    }
  }

  /** One event on record turns out to be on the server. */
  lemma DropOneKeeps(s: Site, id: EventId)
    requires Inv(s) && id in Stamped(s.server)
    ensures Inv(s.(q := s.q.(unconfirmed := s.q.unconfirmed - {id})))
  {
    hide FlushesInOrder, ServedInOrder;
    var s' := s.(q := s.q.(unconfirmed := s.q.unconfirmed - {id}));
    assert Extends(s.q, s'.q);
    ServedStaysInOrder(s, s');
    AppendFlushes(s, s');
  }

  /** The queue a restore has reached after `upTo` log rows, the record cleared as far. */
  ghost function RestoredSite(s: Site, read: nat, upTo: nat): Site
    requires read <= |s.server| && upTo <= |s.q.log|
  {
    s.(q := Restored(s.q, Stamped(s.server[..read]), upTo).(unconfirmed := s.q.unconfirmed - LogIds(s.q.log[..upTo])))
  }

  lemma RestoredIsQueue(q: Queue, serverIds: set<EventId>, upTo: nat)
    requires upTo <= |q.log|
    ensures Restored(q, serverIds, upTo) == q.(entries := Restored(q, serverIds, upTo).entries)
  {
  }

  lemma {:induction false} RestoreKeepsUpTo(s: Site, read: nat, upTo: nat)
    requires Inv(s) && Enabled(s, Restore(read)) && upTo <= |s.q.log|
    ensures Inv(RestoredSite(s, read, upTo))
  {
    hide ServerSound, NothingOverlooked, ScanSound, ServedInOrder, FlushesInOrder, Linked;
    if upTo == 0 {
      assert LogIds(s.q.log[..0]) == {};
      assert RestoredSite(s, read, 0) == s;
    } else {
      RestoreKeepsUpTo(s, read, upTo - 1);
      RestoreNext(s, read, upTo - 1);
    }
  }

  lemma RestoreNext(s: Site, read: nat, p: nat)
    requires Enabled(s, Restore(read)) && p < |s.q.log| && QueueSound(s) && Inv(RestoredSite(s, read, p))
    ensures Inv(RestoredSite(s, read, p + 1))
  {
    hide Inv, LastOriginSeq, LooksLocal, Linked, Queued, Stamped;
    var before, after := RestoredSite(s, read, p), RestoredSite(s, read, p + 1);
    var e := s.q.log[p].event;
    RestoredIsQueue(s.q, Stamped(s.server[..read]), p);
    RestoredIsQueue(s.q, Stamped(s.server[..read]), p + 1);
    assert s.q.log[..p + 1] == s.q.log[..p] + [s.q.log[p]];
    LogIdsGrow(s.q.log[..p], s.q.log[p]);
    assert after.q.unconfirmed == before.q.unconfirmed - {e.id};
    if e.id in s.q.unconfirmed {
      assert e.id in before.q.unconfirmed by {
        forall r | 0 <= r < p ensures s.q.log[..p][r].event.id != e.id {
          assert s.q.log[..p][r] == s.q.log[r];
        }
      }
      if e.id in Stamped(s.server[..read]) {
        StampedPrefix(s.server, read, read);
        DropOneKeeps(before, e.id);
        assert after == before.(q := before.q.(unconfirmed := before.q.unconfirmed - {e.id}));
      } else {
        RestoreOneKeeps(before, p);
        assert after == before.(q := EnqueueNext(before.q, p + 1, e).(unconfirmed := before.q.unconfirmed - {e.id}));
      }
    } else {
      assert after == before;
    }
  }

  lemma RestoreKeeps(s: Site, read: nat)
    requires Inv(s) && Enabled(s, Restore(read))
    ensures Inv(Do(s, Restore(read)))
  {
    hide FlushesInOrder, ServedInOrder, NothingOverlooked, ScanSound, ServerSound;
    if s.q.unconfirmed != {} {
      RestoreKeepsUpTo(s, read, |s.q.log|);
      assert s.q.log[..|s.q.log|] == s.q.log;
      assert s.q.unconfirmed - LogIds(s.q.log) == {};
      assert Do(s, Restore(read)) == RestoredSite(s, read, |s.q.log|);
    }
  }

  // ---------------------------------------------------------------------- every run

  lemma QuietKeeps(s: Site, step: Step)
    requires Inv(s) && Enabled(s, step) && (step.ScanStart? || step.Stop? || step.Requeue?)
    ensures Inv(Do(s, step))
  {
    hide ListInOrder, Stamped, Queued, LooksLocal, LogIds, Listed;
    var s' := Do(s, step);
    assert s'.q.log == s.q.log && s'.q.entries == s.q.entries && s'.server == s.server;
    assert s.server[..|s.server|] == s.server;
    assert Extends(s.q, s'.q);
    ServedStaysInOrder(s, s');
    forall f | f in s'.flushes
      ensures AreEntries(s'.q.entries, s'.flushes[f]) && ListInOrder(s'.q, Stamped(s'.server), s'.refused, s'.flushes[f])
    {
      ListStaysInOrder(s.q, s'.q, Stamped(s.server), Stamped(s.server), s.refused, s.refused, s.flushes[f]);
    }
  }

  lemma StepKeepsInv(s: Site, step: Step)
    requires Inv(s) && Enabled(s, step)
    ensures Inv(Do(s, step))
  {
    match step
    case Append(batch) => AppendKeeps(s, batch);
    case Incoming(row) => IncomingKeeps(s, row);
    case Elsewhere(id) => StampKeeps(s, Stamp(id, false));
    case ScanStart => QuietKeeps(s, step);
    case ScanEnd(read) => ScanEndKeeps(s, read);
    case Restore(read) => RestoreKeeps(s, read);
    case FlushStart(flush, limit) => FlushStartKeeps(s, flush, limit);
    case Accept(flush) => AcceptKeeps(s, flush);
    case Mark(flush) => MarkKeeps(s, flush);
    case Refuse(flush, refusal) => RefuseKeeps(s, flush, refusal);
    case Stop(_) => QuietKeeps(s, step);
    case Requeue => QuietKeeps(s, step);
  }

  lemma {:induction false} RunKeepsInv(s: Site, steps: seq<Step>)
    requires Inv(s) && Possible(s, steps)
    ensures Inv(Run(s, steps))
    decreases |steps|
  {
    if steps != [] {
      StepKeepsInv(s, steps[0]);
      RunKeepsInv(Do(s, steps[0]), steps[1..]);
    }
  }

  /** In every run, whatever stops and however many flushes overlap: where a push of this device put an
      event on the server, every earlier event of its task, made here as well, was there before, unless the
      server had refused it; and the server holds one copy of each. */
  lemma DeliveryOrder(start: Site, steps: seq<Step>)
    requires Start(start) && Possible(start, steps)
    ensures
      var s := Run(start, steps);
      && (forall i, j :: 0 <= i < j < |s.server| ==> s.server[i].id != s.server[j].id)
      && (forall j, p: nat, r: nat | 0 <= j < |s.server| && Earlier(s.q, p, r) && s.server[j] == Stamp(s.q.log[r].event.id, true) ::
            s.q.log[p].event.id in s.refused || s.q.log[p].event.id in Stamped(s.server[..j]))
  {
    RunKeepsInv(start, steps);
  }

  predicate RefusesNothing(steps: seq<Step>) { forall i :: 0 <= i < |steps| ==> !steps[i].Refuse? }

  lemma {:induction false} NothingRefused(s: Site, steps: seq<Step>)
    requires Possible(s, steps) && RefusesNothing(steps)
    ensures Run(s, steps).refused == s.refused
    decreases |steps|
  {
    if steps != [] {
      NothingRefused(Do(s, steps[0]), steps[1..]);
    }
  }

  /** A server that refuses nothing receives this device's events of each task in the order of its log. */
  lemma DeliveryOrderUnrefused(start: Site, steps: seq<Step>)
    requires Start(start) && Possible(start, steps) && start.refused == {} && RefusesNothing(steps)
    ensures
      var s := Run(start, steps);
      forall j, p: nat, r: nat | 0 <= j < |s.server| && Earlier(s.q, p, r) && s.server[j] == Stamp(s.q.log[r].event.id, true) ::
        s.q.log[p].event.id in Stamped(s.server[..j])
  {
    NothingRefused(start, steps);
    DeliveryOrder(start, steps);
  }

  /** The search for lost events, with its own tip read before the server's log, never records what came
      from this server, and records or leaves queued everything that looks local and is not there. */
  lemma LostEventsFound(start: Site, steps: seq<Step>)
    requires Start(start) && Possible(start, steps)
    ensures
      var s := Run(start, steps);
      && s.incoming !! s.q.unconfirmed
      && (s.q.logChecked ==> forall p | 0 <= p < |s.q.log| && LeftOff(s.q, p) ::
            s.q.log[p].event.id in s.q.unconfirmed || s.q.log[p].event.id in Stamped(s.server))
  {
    RunKeepsInv(start, steps);
    var s := Run(start, steps);
    forall p | 0 <= p < |s.q.log| && LeftOff(s.q, p)
      ensures LooksLocal(s.q.log[p]) && s.q.log[p].event.id !in Queued(s.q.entries)
    {
      LostIsLeftOff(s.q, p);
      assert LostCandidate(s.q, p + 1, p);
    }
  }
}

/** The local replica: how it takes in the server's log, and how it repairs itself from that log.
    The functions say what each transaction leaves behind; the class runs them the way the desktop does,
    page by page, against a server that may stop answering. */
module Replica {
  import opened Events

  const LOCAL_LOG_PAGE_SIZE: nat := 1000

  /** The tables of one device. `log[i]` has local seq `i + 1`. */
  datatype ReplicaState = ReplicaState(
    log: seq<Event>,
    rows: Rows,
    serverSeq: nat,
    orderedLocalSeq: nat,
    baselineVerified: bool,
    projectionsVerified: bool,
    orderVerified: bool,
    unechoed: set<EventId>,
    unprojected: set<EventId>)
  {
    predicate Verified() { baselineVerified && projectionsVerified && orderVerified }

    predicate Clean() { Verified() && unprojected == {} }
  }

  /** An event as a page carries it, with its seq in the log it was read from. */
  datatype Envelope = Envelope(seq_: nat, event: Event)

  datatype Snapshot = Snapshot(seq_: nat, rows: Rows, consistent: bool)

  datatype CatchUpStats = CatchUpStats(fetched: nat, applied: nat, serverSeq: nat)

  function Max(a: nat, b: nat): nat { if a < b then b else a }

  function Min(a: nat, b: nat): nat { if a < b then a else b }

  /** The page of at most `limit` events past `since`. */
  function PageOf(log: seq<Event>, since: nat, limit: nat): (page: seq<Envelope>)
    ensures |page| == if since < |log| then Min(limit, |log| - since) else 0
    ensures forall i :: 0 <= i < |page| ==> page[i] == Envelope(since + i + 1, log[since + i])
  {
    if since < |log| then
      seq(Min(limit, |log| - since), i requires 0 <= i < |log| - since => Envelope(since + i + 1, log[since + i]))
    else []
  }

  function Find(log: seq<Event>, id: EventId): (position: Option<nat>)
    ensures position.Some? ==> position.value < |log| && log[position.value].id == id
    ensures position.None? <==> id !in Ids(log)
  {
    if log == [] then None
    else
      var n := |log| - 1;
      var earlier := Find(log[..n], id);
      if earlier.Some? then earlier else if log[n].id == id then Some(n) else None
  }

  /** Another event of its subject, known to the server, was logged later, among the first `ordered`. */
  predicate Overtaken(log: seq<Event>, unechoed: set<EventId>, position: nat, ordered: nat)
    requires position < |log|
  {
    exists j :: position < j < |log| && j < ordered && SameSubject(log[position], log[j]) && log[j].id !in unechoed
  }

  // -------------------------------------------------------------- one server event

  /** What the transaction that takes in one server event leaves behind. */
  function Land(st: ReplicaState, envelope: Envelope): ReplicaState {
    var e, n := envelope.event, envelope.seq_;
    match Find(st.log, e.id)
    case Some(p) =>
      var ahead := st.serverSeq < n;
      var late := ahead && st.orderVerified && Overtaken(st.log, st.unechoed, p, st.orderedLocalSeq);
      st.(orderVerified := st.orderVerified && !late,
          unechoed := st.unechoed - {e.id},
          serverSeq := Max(st.serverSeq, n),
          orderedLocalSeq := Max(st.orderedLocalSeq, if ahead then p + 1 else 0))
    case None =>
      st.(log := st.log + [e],
          rows := Apply(st.rows, e),
          serverSeq := Max(st.serverSeq, n),
          orderedLocalSeq := Max(st.orderedLocalSeq, |st.log| + 1))
  }

  function LandAll(st: ReplicaState, page: seq<Envelope>): ReplicaState {
    if page == [] then st else Land(LandAll(st, page[..|page| - 1]), page[|page| - 1])
  }

  // --------------------------------------------------------------------- the repair

  function LocalOnly(log: seq<Event>, serverIds: set<EventId>): seq<Event> {
    if log == [] then []
    else
      var init, last := log[..|log| - 1], log[|log| - 1];
      LocalOnly(init, serverIds) + if last.id in serverIds then [] else [last]
  }

  function UpTo(server: seq<Event>, cursor: nat): seq<Event> { server[..Min(cursor, |server|)] }

  /** The events a repair replays: the server's up to the cursor, then whatever else the device has. */
  function RepairTrace(server: seq<Event>, cursor: nat, log: seq<Event>): seq<Event> {
    UpTo(server, cursor) + LocalOnly(log, Ids(UpTo(server, cursor)))
  }

  function MarkVerifiedBaseline(st: ReplicaState, serverSeq: nat): ReplicaState {
    st.(serverSeq := serverSeq, baselineVerified := true, projectionsVerified := true, orderVerified := true,
        orderedLocalSeq := 0)
  }

  /** What the write transaction of a repair leaves behind, when its read phase saw the cursor at `cursor`. */
  function Rebuild(st: ReplicaState, server: seq<Event>, cursor: nat): ReplicaState {
    if st.Verified() then st
    else
      var marked := MarkVerifiedBaseline(st, Max(st.serverSeq, cursor));
      marked.(rows := Fold(RepairTrace(server, cursor, st.log)),
              unprojected := {},
              orderVerified := st.serverSeq <= cursor)
  }

  predicate RepairRefused(st: ReplicaState, server: seq<Event>) { st.serverSeq > 0 && server == [] }

  // ---------------------------------------------------------------------- catching up

  function CheckUnprojected(st: ReplicaState): ReplicaState {
    if st.unprojected != {} then st.(projectionsVerified := false) else st
  }

  predicate NeedsRepair(st: ReplicaState) { !st.Verified() && (st.serverSeq > 0 || st.log != []) }

  function Repaired(st: ReplicaState, server: seq<Event>): ReplicaState {
    if NeedsRepair(st) then Rebuild(st, server, st.serverSeq) else st
  }

  /** Upsert of the snapshot's rows, and the cursor it vouches for. */
  function Bootstrap(st: ReplicaState, snapshot: Snapshot): ReplicaState {
    MarkVerifiedBaseline(st.(rows := st.rows + snapshot.rows), snapshot.seq_)
  }

  function Started(st: ReplicaState, snapshot: Option<Snapshot>): ReplicaState {
    if st.serverSeq != 0 then st
    else if snapshot.Some? && snapshot.value.consistent then Bootstrap(st, snapshot.value)
    else MarkVerifiedBaseline(st, 0)
  }

  function Delivered(st: ReplicaState, server: seq<Event>, limit: nat): ReplicaState {
    LandAll(st, PageOf(server, st.serverSeq, limit))
  }

  function Reordered(st: ReplicaState, server: seq<Event>): ReplicaState {
    if st.Verified() then st else Rebuild(st, server, st.serverSeq)
  }

  function Opened(st: ReplicaState, server: seq<Event>, snapshot: Option<Snapshot>): ReplicaState {
    Started(Repaired(CheckUnprojected(st), server), snapshot)
  }

  function CaughtUp(st: ReplicaState, server: seq<Event>, snapshot: Option<Snapshot>, limit: nat): ReplicaState {
    Reordered(Delivered(Opened(st, server, snapshot), server, limit), server)
  }

  lemma LandOneMore(st: ReplicaState, server: seq<Event>, from: nat, upTo: nat)
    requires from < upTo <= |server|
    ensures LandAll(st, PageOf(server, from, upTo - from))
            == Land(LandAll(st, PageOf(server, from, upTo - 1 - from)), Envelope(upTo, server[upTo - 1]))
  {
    hide Land;
    var page := PageOf(server, from, upTo - from);
    assert page[..|page| - 1] == PageOf(server, from, upTo - 1 - from);
  }

  lemma LandNothing(st: ReplicaState, server: seq<Event>, since: nat, limit: nat)
    requires limit == 0 || |server| <= since
    ensures LandAll(st, PageOf(server, since, limit)) == st
  {
    assert PageOf(server, since, limit) == [];
  }

  lemma EventLands(st: ReplicaState, envelope: Envelope)
    ensures var st' := Land(st, envelope);
            && st'.serverSeq == Max(st.serverSeq, envelope.seq_) && st.log <= st'.log
            && Ids(st'.log) == Ids(st.log) + {envelope.event.id}
  {
    hide Fold, Apply, Overtaken;
    IdsAppend(st.log, envelope.event);
  }

  /** What a state owes to the stretch `from..upTo` of the server's log it took in. */
  ghost predicate TookIn(st: ReplicaState, st': ReplicaState, server: seq<Event>, from: nat, upTo: nat) {
    && st'.serverSeq == upTo && st.log <= st'.log && Ids(st'.log) <= Ids(st.log) + Ids(server)
    && forall i :: from <= i < upTo && i < |server| ==> server[i].id in Ids(st'.log)
  }

  /** A page takes the cursor to its end, and every event of it is in the log then, which holds nothing else new. */
  lemma {:induction false} PageLands(st: ReplicaState, server: seq<Event>, k: nat)
    requires st.serverSeq + k <= |server|
    ensures TookIn(st, LandAll(st, PageOf(server, st.serverSeq, k)), server, st.serverSeq, st.serverSeq + k)
  {
    hide Land, LandAll, PageOf;
    if k == 0 {
      LandNothing(st, server, st.serverSeq, 0);
    } else {
      var upTo := st.serverSeq + k;
      PageLands(st, server, k - 1);
      LandOneMore(st, server, st.serverSeq, upTo);
      EventLands(LandAll(st, PageOf(server, st.serverSeq, k - 1)), Envelope(upTo, server[upTo - 1]));
      assert server[upTo - 1].id in Ids(server);
    }
  }

  lemma OpenedIs(st: ReplicaState, server: seq<Event>, snapshot: Option<Snapshot>)
    ensures var first := Opened(st, server, snapshot);
            && first.log == st.log && first.Verified()
            && first.serverSeq == if st.serverSeq != 0 then st.serverSeq
                                  else if snapshot.Some? && snapshot.value.consistent then snapshot.value.seq_ else 0
  {
    hide Fold, RepairTrace;
  }

  lemma ReorderedIs(st: ReplicaState, server: seq<Event>)
    ensures var rebuilt := Reordered(st, server);
            rebuilt.log == st.log && rebuilt.serverSeq == st.serverSeq && rebuilt.Verified()
  {
    hide Fold, RepairTrace;
  }

  /** How far one sync gets: to the end of a page past where it starts, with the page in the log. */
  lemma CaughtUpIs(st: ReplicaState, server: seq<Event>, snapshot: Option<Snapshot>, limit: nat)
    ensures var from := if st.serverSeq != 0 then st.serverSeq
                        else if snapshot.Some? && snapshot.value.consistent then snapshot.value.seq_ else 0;
            var upTo := if |server| <= from then from else if from + limit < |server| then from + limit else |server|;
            TookIn(st, CaughtUp(st, server, snapshot, limit), server, from, upTo) && CaughtUp(st, server, snapshot, limit).Verified()
  {
    hide Opened, Reordered, Land, LandAll, PageOf;
    var first := Opened(st, server, snapshot);
    OpenedIs(st, server, snapshot);
    ReorderedIs(Delivered(first, server, limit), server);
    if first.serverSeq < |server| {
      var k := Min(limit, |server| - first.serverSeq);
      SamePage(server, first.serverSeq, limit, k);
      PageLands(first, server, k);
    } else {
      LandNothing(first, server, first.serverSeq, limit);
    }
  }

  lemma SamePage(server: seq<Event>, since: nat, limit: nat, k: nat)
    requires since < |server| && k == Min(limit, |server| - since)
    ensures PageOf(server, since, limit) == PageOf(server, since, k)
  {
  }

  /** Where a sync that lost its server can have stopped. */
  predicate StoppedIn(now: ReplicaState, st: ReplicaState, server: seq<Event>, snapshot: Option<Snapshot>, limit: nat) {
    || now == CheckUnprojected(st)
    || now == Repaired(CheckUnprojected(st), server)
    || now == Opened(st, server, snapshot)
    || now == Delivered(Opened(st, server, snapshot), server, limit)
  }

  // ------------------------------------------------------------------------- the code

  /** A server whose log stands still while it is read, and which leaves some requests unanswered. */
  class Remote {
    const log: seq<Event>
    const snapshot: Option<Snapshot>
    const unanswered: set<nat>
    var requests: nat

    constructor (log: seq<Event>, snapshot: Option<Snapshot>, unanswered: set<nat>)
      ensures this.log == log && this.snapshot == snapshot && this.unanswered == unanswered
    {
      this.log, this.snapshot, this.unanswered, this.requests := log, snapshot, unanswered, 0;
    }

    method FetchEvents(since: nat, limit: nat) returns (r: Result<seq<Envelope>>)
      modifies this
      ensures r.Success? ==> r.value == PageOf(log, since, limit)
      ensures unanswered == {} ==> r.Success?
    {
      requests := requests + 1;
      r := if requests in unanswered then Failure("server unreachable") else Success(PageOf(log, since, limit));
    }

    method FetchSnapshot() returns (r: Result<Option<Snapshot>>)
      modifies this
      ensures r.Success? ==> r.value == snapshot
      ensures unanswered == {} ==> r.Success?
    {
      requests := requests + 1;
      r := if requests in unanswered then Failure("server unreachable") else Success(snapshot);
    }
  }

  /** What the read phase of a repair hands to its write transaction. */
  datatype Prepared = Prepared(cursor: nat, serverIds: set<EventId>, rows: Rows, localSeq: nat)

  /** The read phase saw this much of the local log, and folded exactly what it saw. */
  predicate PreparedFrom(p: Prepared, server: seq<Event>, log: seq<Event>) {
    && p.localSeq <= |log|
    && p.serverIds == Ids(UpTo(server, p.cursor))
    && p.rows == FoldedTo(Fold(UpTo(server, p.cursor)), log, p.localSeq, p.serverIds)
  }

  /** Commands that land between the two phases of a repair do not outdate what it prepared. */
  lemma PreparedSurvivesCommits(p: Prepared, server: seq<Event>, log: seq<Event>, later: seq<Event>)
    requires PreparedFrom(p, server, log)
    ensures PreparedFrom(p, server, log + later)
  {
    FoldedToSurvivesCommits(Fold(UpTo(server, p.cursor)), log, later, p.localSeq, p.serverIds);
  }

  /** The rows after the first `n` events of the local log, without those the server has. */
  function FoldedTo(base: Rows, log: seq<Event>, n: nat, ids: set<EventId>): Rows
    requires n <= |log|
  {
    if n == 0 then base
    else
      var before := FoldedTo(base, log, n - 1, ids);
      if log[n - 1].id in ids then before else Apply(before, log[n - 1])
  }

  lemma {:induction false} FoldedToIsFold(part: seq<Event>, log: seq<Event>, n: nat, ids: set<EventId>)
    requires n <= |log|
    ensures FoldedTo(Fold(part), log, n, ids) == Fold(part + LocalOnly(log[..n], ids))
  {
    if n == 0 {
      assert part + LocalOnly(log[..0], ids) == part;
    } else {
      FoldedToIsFold(part, log, n - 1, ids);
      assert log[..n][..n - 1] == log[..n - 1];
      var kept := LocalOnly(log[..n - 1], ids);
      if log[n - 1].id in ids {
        assert kept + [] == kept;
      } else {
        FoldAppend(part + kept, log[n - 1]);
        assert part + (kept + [log[n - 1]]) == part + kept + [log[n - 1]];
      }
    }
  }

  lemma {:induction false} FoldedToSurvivesCommits(base: Rows, log: seq<Event>, later: seq<Event>, n: nat, ids: set<EventId>)
    requires n <= |log|
    ensures FoldedTo(base, log + later, n, ids) == FoldedTo(base, log, n, ids)
  {
    hide Apply;
    if n > 0 {
      FoldedToSurvivesCommits(base, log, later, n - 1, ids);
      assert (log + later)[n - 1] == log[n - 1];
    }
  }

  /** The rows of a replay of the server's first `n` events, and their ids. */
  predicate FoldedServer(rows: Rows, ids: set<EventId>, server: seq<Event>, n: nat) {
    n <= |server| && rows == FoldedTo(map[], server, n, {}) && ids == set i | 0 <= i < n :: server[i].id
  }

  lemma FoldOfNothing()
    ensures Fold([]) == map[]
  {
  }

  lemma NothingFoldedYet(server: seq<Event>)
    ensures FoldedServer(map[], {}, server, 0)
  {
  }

  lemma FoldedServerIsFold(rows: Rows, ids: set<EventId>, server: seq<Event>, cursor: nat)
    requires FoldedServer(rows, ids, server, Min(cursor, |server|))
    ensures rows == Fold(UpTo(server, cursor)) && ids == Ids(UpTo(server, cursor))
  {
    var n := Min(cursor, |server|);
    hide Fold, FoldedTo;
    FoldOfNothing();
    FoldedToIsFold([], server, n, {});
    LocalOnlyOfNothing(server[..n]);
    assert [] + server[..n] == server[..n];
    FirstIds(server, n);
    hide LocalOnly, Ids;
  }

  lemma FirstIds(server: seq<Event>, n: nat)
    requires n <= |server|
    ensures (set i | 0 <= i < n :: server[i].id) == Ids(server[..n])
  {
    forall id | id in (set i | 0 <= i < n :: server[i].id) ensures id in Ids(server[..n]) {
      var i :| 0 <= i < n && server[i].id == id;
      assert server[..n][i].id == id;
    }
  }

  lemma {:induction false} LocalOnlyOfNothing(log: seq<Event>)
    ensures LocalOnly(log, {}) == log
  {
    if log != [] {
      LocalOnlyOfNothing(log[..|log| - 1]);
    }
  }

  lemma FoldedOneMore(rows: Rows, ids: set<EventId>, server: seq<Event>, n: nat)
    requires n < |server| && FoldedServer(rows, ids, server, n)
    ensures FoldedServer(Apply(rows, server[n]), ids + {server[n].id}, server, n + 1)
  {
    hide Apply;
  }

  method FoldServerPage(folded: Rows, serverIds: set<EventId>, cursor: nat, ghost since: nat, ghost limit: nat,
                        page: seq<Envelope>, ghost server: seq<Event>)
    returns (rows: Rows, ids: set<EventId>)
    requires page == PageOf(server, since, limit)
    requires since <= |server| && FoldedServer(folded, serverIds, server, Min(since, cursor))
    ensures FoldedServer(rows, ids, server, Min(since + |page|, cursor))
  {
    hide FoldedServer, Apply;
    rows, ids := folded, serverIds;
    for i := 0 to |page|
      invariant FoldedServer(rows, ids, server, Min(since + i, cursor))
    {
      if since + i < cursor { FoldedOneMore(rows, ids, server, since + i); }
      if page[i].seq_ <= cursor {
        rows := Apply(rows, page[i].event);
        ids := ids + {page[i].event.id};
      }
    }
  }

  /** Add the events of one page of the local log to the rows, but for those whose ids the server gave. `more` tells
      whether the page held anything. */
  method FoldLocalOnly(folded: Rows, serverIds: set<EventId>, localSeq: nat, page: seq<Envelope>,
                       ghost base: Rows, ghost log: seq<Event>)
    returns (rows: Rows, localSeq': nat, more: bool)
    requires localSeq <= |log| && page == PageOf(log, localSeq, LOCAL_LOG_PAGE_SIZE)
    requires folded == FoldedTo(base, log, localSeq, serverIds)
    ensures localSeq' == localSeq + |page| <= |log| && more == (|page| > 0) && (!more ==> localSeq' == |log|)
    ensures rows == FoldedTo(base, log, localSeq', serverIds)
  {
    rows, localSeq' := folded, localSeq;
    if |page| == 0 { return rows, localSeq', false; }
    for i := 0 to |page|
      invariant rows == FoldedTo(base, log, localSeq + i, serverIds)
    {
      if page[i].event.id !in serverIds {
        rows := Apply(rows, page[i].event);
      }
    }
    localSeq' := page[|page| - 1].seq_;
    more := true;
  }

  class Replica {
    var log: seq<Event>
    var rows: Rows
    var serverSeq: nat
    var orderedLocalSeq: nat
    var baselineVerified: bool
    var projectionsVerified: bool
    var orderVerified: bool
    var unechoed: set<EventId>
    var unprojected: set<EventId>

    function State(): ReplicaState
      reads this
    {
      ReplicaState(log, rows, serverSeq, orderedLocalSeq, baselineVerified, projectionsVerified, orderVerified,
                   unechoed, unprojected)
    }

    /** A device that was just installed. */
    constructor ()
      ensures State() == ReplicaState([], map[], 0, 0, false, false, false, {}, {})
    {
      log, rows, serverSeq, orderedLocalSeq := [], map[], 0, 0;
      baselineVerified, projectionsVerified, orderVerified := false, false, false;
      unechoed, unprojected := {}, {};
    }

    method IsOvertaken(echo: Envelope, ordered: nat) returns (found: bool)
      requires 1 <= echo.seq_ <= |log| && log[echo.seq_ - 1] == echo.event
      ensures found == Overtaken(log, unechoed, echo.seq_ - 1, ordered)
      ensures found <==> exists j :: echo.seq_ <= j < |log| && j < ordered && SameSubject(echo.event, log[j]) && log[j].id !in unechoed
    {
      var localSeq := echo.seq_;
      while localSeq < ordered
        invariant echo.seq_ <= localSeq
        invariant forall j :: echo.seq_ <= j < localSeq && j < |log| && j < ordered && SameSubject(echo.event, log[j]) ==>
          log[j].id in unechoed
      {
        var page := PageOf(log, localSeq, LOCAL_LOG_PAGE_SIZE);
        if |page| == 0 { break; }
        for i := 0 to |page|
          invariant forall j :: echo.seq_ <= j < localSeq + i && j < ordered && SameSubject(echo.event, log[j]) ==>
            log[j].id in unechoed
        {
          if page[i].seq_ <= ordered && SameSubject(echo.event, page[i].event) {
            if page[i].event.id !in unechoed {
              assert log[localSeq + i] == page[i].event;
              return true;
            }
          }
        }
        localSeq := page[|page| - 1].seq_;
      }
      return false;
    }

    method ApplyRemoteEvent(envelope: Envelope) returns (unseen: bool)
      modifies this
      ensures State() == Land(old(State()), envelope)
      ensures unseen <==> envelope.event.id !in Ids(old(log))
      ensures log == old(log) + (if unseen then [envelope.event] else [])
      ensures rows == if unseen then Apply(old(rows), envelope.event) else old(rows)
      ensures serverSeq == if old(serverSeq) < envelope.seq_ then envelope.seq_ else old(serverSeq)
      ensures unechoed == if unseen then old(unechoed) else old(unechoed) - {envelope.event.id}
      ensures baselineVerified == old(baselineVerified) && projectionsVerified == old(projectionsVerified)
      ensures unprojected == old(unprojected)
      ensures unseen || envelope.seq_ <= old(serverSeq) ==> orderVerified == old(orderVerified)
      ensures !unseen && old(serverSeq) < envelope.seq_ ==>
                exists p :: 0 <= p < |log| && log[p].id == envelope.event.id
                  && (orderVerified <==> old(orderVerified) && !Overtaken(log, old(unechoed), p, old(orderedLocalSeq)))
                  && orderedLocalSeq == if old(orderedLocalSeq) < p + 1 then p + 1 else old(orderedLocalSeq)
      ensures unseen ==> orderedLocalSeq == if old(orderedLocalSeq) < |log| then |log| else old(orderedLocalSeq)
      ensures !unseen && envelope.seq_ <= old(serverSeq) ==> orderedLocalSeq == old(orderedLocalSeq)
    {
      var logged := Find(log, envelope.event.id);
      unseen := logged.None?;
      var localSeq := 0;
      if logged.Some? {
        var echo := Envelope(logged.value + 1, log[logged.value]);
        if serverSeq < envelope.seq_ && orderVerified {
          var late := IsOvertaken(echo, orderedLocalSeq);
          if late {
            orderVerified := false;
          }
        }
        unechoed := unechoed - {echo.event.id};
        if serverSeq < envelope.seq_ {
          localSeq := echo.seq_;
        }
      } else {
        log := log + [envelope.event];
        rows := Apply(rows, envelope.event);
        localSeq := |log|;
      }
      serverSeq := Max(serverSeq, envelope.seq_);
      orderedLocalSeq := Max(orderedLocalSeq, localSeq);
    }

    method ApplyRemoteEvents(events: seq<Envelope>) returns (stats: CatchUpStats)
      modifies this
      ensures State() == LandAll(old(State()), events)
      ensures stats.fetched == |events|
      ensures stats.applied == |log| - |old(log)|
      ensures stats.serverSeq == serverSeq
    {
      var applied, maxServerSeq := 0, serverSeq;
      for i := 0 to |events|
        invariant State() == LandAll(old(State()), events[..i])
        invariant applied == |log| - |old(log)|
        invariant maxServerSeq == serverSeq
      {
        assert events[..i + 1][..i] == events[..i];
        maxServerSeq := Max(maxServerSeq, events[i].seq_);
        var unseen := ApplyRemoteEvent(events[i]);
        if unseen {
          applied := applied + 1;
        }
      }
      assert events[..|events|] == events;
      stats := CatchUpStats(|events|, applied, maxServerSeq);
    }

    method FoldServerLog(remote: Remote, cursor: nat, limit: nat)
      returns (r: Result<(Rows, set<EventId>)>)
      requires limit > 0
      modifies remote
      ensures r.Success? ==> r.value.0 == Fold(UpTo(remote.log, cursor)) && r.value.1 == Ids(UpTo(remote.log, cursor))
      ensures remote.unanswered == {} ==> r.Success?
    {
      hide FoldedServer, Fold, Ids, UpTo;
      var folded: Rows, serverIds, since := map[], {}, 0;
      NothingFoldedYet(remote.log);
      while since < cursor
        invariant since <= |remote.log|
        invariant FoldedServer(folded, serverIds, remote.log, Min(since, cursor))
        decreases |remote.log| - since
      {
        var fetched := remote.FetchEvents(since, limit);
        if fetched.Failure? { return Failure(fetched.error); }
        var page := fetched.value;
        if |page| == 0 { break; }
        folded, serverIds := FoldServerPage(folded, serverIds, cursor, since, limit, page, remote.log);
        since := page[|page| - 1].seq_;
      }
      FoldedServerIsFold(folded, serverIds, remote.log, cursor);
      return Success((folded, serverIds));
    }

    /** The read phase: nothing of the replica changes, so a failed fetch leaves it as it was. */
    method ReadForRebuild(remote: Remote, limit: nat) returns (r: Result<Prepared>)
      requires limit > 0
      modifies remote
      ensures r.Success? ==> r.value.cursor == serverSeq && PreparedFrom(r.value, remote.log, log)
      ensures r.Success? ==> !RepairRefused(State(), remote.log)
      ensures remote.unanswered == {} && !RepairRefused(State(), remote.log) ==> r.Success?
    {
      var cursor := serverSeq;
      var read := FoldServerLog(remote, cursor, limit);
      if read.Failure? { return Failure(read.error); }
      var (folded, serverIds) := read.value;
      ghost var part := UpTo(remote.log, cursor);
      assert part != [] ==> part[0].id in serverIds;
      if cursor > 0 && |serverIds| == 0 {
        return Failure("server log is empty but the replica cursor is past it");
      }
      var localSeq, more := 0, true;
      while more
        invariant localSeq <= |log|
        invariant folded == FoldedTo(Fold(part), log, localSeq, serverIds)
        decreases |log| - localSeq, more
      {
        folded, localSeq, more :=
          FoldLocalOnly(folded, serverIds, localSeq, PageOf(log, localSeq, LOCAL_LOG_PAGE_SIZE), Fold(part), log);
      }
      return Success(Prepared(cursor, serverIds, folded, localSeq));
    }

    /** The write transaction. It first folds whatever reached the log since the read phase. */
    method WriteRebuild(p: Prepared, ghost server: seq<Event>)
      requires PreparedFrom(p, server, log)
      modifies this
      ensures State() == Rebuild(old(State()), server, p.cursor)
      ensures old(baselineVerified) && old(projectionsVerified) && old(orderVerified) ==> State() == old(State())
      ensures !(old(baselineVerified) && old(projectionsVerified) && old(orderVerified)) ==>
                && rows == Fold(UpTo(server, p.cursor) + LocalOnly(log, Ids(UpTo(server, p.cursor))))
                && log == old(log) && unechoed == old(unechoed) && unprojected == {} && orderedLocalSeq == 0
                && serverSeq == (if old(serverSeq) < p.cursor then p.cursor else old(serverSeq))
                && baselineVerified && projectionsVerified && (orderVerified <==> old(serverSeq) <= p.cursor)
    {
      if baselineVerified && projectionsVerified && orderVerified { return; }
      var folded, localSeq, more := p.rows, p.localSeq, true;
      while more
        invariant State() == old(State())
        invariant localSeq <= |log|
        invariant folded == FoldedTo(Fold(UpTo(server, p.cursor)), log, localSeq, p.serverIds)
        invariant !more ==> localSeq == |log|
        decreases |log| - localSeq, more
      {
        folded, localSeq, more :=
          FoldLocalOnly(folded, p.serverIds, localSeq, PageOf(log, localSeq, LOCAL_LOG_PAGE_SIZE),
                        Fold(UpTo(server, p.cursor)), log);
      }
      FoldedToIsFold(UpTo(server, p.cursor), log, localSeq, p.serverIds);
      assert log[..localSeq] == log;
      rows := folded;
      unprojected := {};
      var current := serverSeq;
      SetVerifiedBaseline(Max(current, p.cursor));
      if current > p.cursor {
        orderVerified := false;
      }
    }

    method SetVerifiedBaseline(seq_: nat)
      modifies this
      ensures State() == MarkVerifiedBaseline(old(State()), seq_)
    {
      serverSeq, orderedLocalSeq := seq_, 0;
      baselineVerified, projectionsVerified, orderVerified := true, true, true;
    }

    method RebuildFromLog(remote: Remote, limit: nat) returns (r: Result<nat>)
      requires limit > 0
      modifies this, remote
      ensures r.Success? ==> State() == Rebuild(old(State()), remote.log, old(serverSeq))
      ensures r.Failure? ==> State() == old(State())
      ensures r.Success? ==> old(serverSeq) == 0 || remote.log != []
      ensures remote.unanswered == {} && r.Failure? ==> old(serverSeq) > 0 && remote.log == []
    {
      var read := ReadForRebuild(remote, limit);
      if read.Failure? { return Failure(read.error); }
      WriteRebuild(read.value, remote.log);
      return Success(|read.value.serverIds|);
    }

    method RepairIfNeeded(remote: Remote, limit: nat) returns (r: Result<nat>)
      requires limit > 0
      modifies this, remote
      ensures r.Success? ==> State() == Repaired(old(State()), remote.log)
      ensures r.Failure? ==> State() == old(State())
      ensures r.Success? ==> old(State()).Verified() || old(serverSeq) == 0 || remote.log != []
      ensures remote.unanswered == {} && r.Failure? ==> !old(State()).Verified() && old(serverSeq) > 0 && remote.log == []
    {
      if !(baselineVerified && projectionsVerified && orderVerified) && (serverSeq > 0 || |log| > 0) {
        r := RebuildFromLog(remote, limit);
      } else {
        r := Success(0);
      }
    }

    method StartIfNew(remote: Remote) returns (r: Result<()>)
      modifies this, remote
      ensures r.Success? ==> State() == Started(old(State()), remote.snapshot)
      ensures r.Success? && old(serverSeq) != 0 ==> State() == old(State())
      ensures r.Success? && old(serverSeq) == 0 ==>
                && baselineVerified && projectionsVerified && orderVerified && orderedLocalSeq == 0
                && log == old(log) && unechoed == old(unechoed) && unprojected == old(unprojected)
                && if remote.snapshot.Some? && remote.snapshot.value.consistent
                   then serverSeq == remote.snapshot.value.seq_ && rows == old(rows) + remote.snapshot.value.rows
                   else serverSeq == 0 && rows == old(rows)
      ensures r.Failure? ==> State() == old(State())
      ensures remote.unanswered == {} ==> r.Success?
    {
      if serverSeq == 0 {
        var snapshot := remote.FetchSnapshot();
        if snapshot.Failure? { return Failure(snapshot.error); }
        if snapshot.value.Some? && snapshot.value.value.consistent {
          rows := rows + snapshot.value.value.rows;
          SetVerifiedBaseline(snapshot.value.value.seq_);
        } else {
          SetVerifiedBaseline(0);
        }
      }
      return Success(());
    }

    /** What a sync does before it asks for news: look for what a command left, repair, and start on a snapshot. */
    method Open(remote: Remote, limit: nat) returns (r: Result<nat>)
      requires limit > 0
      modifies this, remote
      ensures r.Success? ==> State() == Opened(old(State()), remote.log, remote.snapshot)
      ensures r.Failure? ==> State() == CheckUnprojected(old(State())) || State() == Repaired(CheckUnprojected(old(State())), remote.log)
      ensures r.Success? ==> old(State()).Clean() || old(serverSeq) == 0 || remote.log != []
      ensures remote.unanswered == {} && r.Failure? ==> !old(State()).Clean() && old(serverSeq) > 0 && remote.log == []
    {
      hide Rebuild, Bootstrap, MarkVerifiedBaseline, Fold, Apply, Ids, UpTo, NeedsRepair;
      if unprojected != {} {
        projectionsVerified := false;
      }
      assert State() == CheckUnprojected(old(State()));
      var repaired := RepairIfNeeded(remote, limit);
      if repaired.Failure? { return Failure(repaired.error); }
      var started := StartIfNew(remote);
      if started.Failure? { return Failure(started.error); }
      return Success(repaired.value);
    }

    /** One sync, uninterrupted. A failed request stops it between two transactions. */
    method CatchUp(remote: Remote, limit: nat) returns (r: Result<CatchUpStats>)
      requires limit > 0
      modifies this, remote
      ensures r.Success? ==> State() == CaughtUp(old(State()), remote.log, remote.snapshot, limit)
      ensures r.Success? ==>
                var from := if old(serverSeq) != 0 then old(serverSeq)
                            else if remote.snapshot.Some? && remote.snapshot.value.consistent then remote.snapshot.value.seq_ else 0;
                && serverSeq == (if |remote.log| <= from then from else if from + limit < |remote.log| then from + limit else |remote.log|)
                && r.value.serverSeq == serverSeq && r.value.applied == |log| - |old(log)|
                && (forall i :: from <= i < serverSeq && i < |remote.log| ==> remote.log[i].id in Ids(log))
                && old(log) <= log && Ids(log) <= Ids(old(log)) + Ids(remote.log)
                && baselineVerified && projectionsVerified && orderVerified
      ensures r.Failure? ==> StoppedIn(State(), old(State()), remote.log, remote.snapshot, limit)
      ensures remote.unanswered == {} ==>
                (r.Failure? <==>
                   && old(serverSeq) > 0 && remote.log == []
                   && !(old(baselineVerified) && old(projectionsVerified) && old(orderVerified) && old(unprojected) == {}))
    {
      hide Rebuild, LandAll, Land, Fold, Apply, Ids, UpTo, PageOf, Opened, Overtaken, Find;
      CaughtUpIs(State(), remote.log, remote.snapshot, limit);
      OpenedIs(State(), remote.log, remote.snapshot);
      var repaired := Open(remote, limit);
      if repaired.Failure? { return Failure(repaired.error); }
      ghost var st := State();
      var events := remote.FetchEvents(serverSeq, limit);
      if events.Failure? { return Failure(events.error); }
      if remote.log == [] { LandNothing(st, remote.log, serverSeq, limit); }
      var stats := ApplyRemoteEvents(events.value);
      st := Delivered(st, remote.log, limit);
      assert State() == st;
      ReorderedIs(st, remote.log);
      var reordered := 0;
      if !(baselineVerified && projectionsVerified && orderVerified) {
        var read := RebuildFromLog(remote, limit);
        if read.Failure? { return Failure(read.error); }
        reordered := read.value;
      }
      return Success(stats.(fetched := stats.fetched + repaired.value + reordered));
    }
  }
}

/** A socket's subscription: a page of history, then live events, while others append and publish. */
module WsHandoff {
  import opened Events

  const SNAPSHOT_PAGE := 1000

  datatype Envelope = Envelope(number: nat, event: Event)

  /** Numbers grow along the log; purged ones may be missing. */
  predicate Ascending(log: seq<Envelope>) {
    forall i, j :: 0 <= i < j < |log| ==> log[i].number < log[j].number
  }

  /** The first place from `i` on with a number above `n`. */
  function PastFrom(log: seq<Envelope>, n: nat, i: nat): (p: nat)
    requires i <= |log| && forall k :: 0 <= k < i ==> log[k].number <= n
    ensures i <= p <= |log| && (forall k :: 0 <= k < p ==> log[k].number <= n)
    ensures p < |log| ==> log[p].number > n
    decreases |log| - i
  {
    if i < |log| && log[i].number <= n then PastFrom(log, n, i + 1) else i
  }

  function Past(log: seq<Envelope>, n: nat): (p: nat)
    ensures p <= |log| && (forall k :: 0 <= k < p ==> log[k].number <= n) && (p < |log| ==> log[p].number > n)
  {
    PastFrom(log, n, 0)
  }

  /** The first `limit` events after `since`, of an ascending log. */
  function LoadSince(log: seq<Envelope>, since: nat, limit: nat): seq<Envelope> {
    var p := PastFrom(log, since, 0);
    if p + limit <= |log| then log[p..p + limit] else log[p..]
  }

  function FilterHistory(history: seq<Envelope>, boundary: nat): seq<Envelope> {
    if history == [] then []
    else
      FilterHistory(history[..|history| - 1], boundary) +
      if history[|history| - 1].number <= boundary then [history[|history| - 1]] else []
  }

  lemma AtMost(log: seq<Envelope>, i: nat, j: nat)
    requires Ascending(log) && i <= j < |log|
    ensures log[i].number <= log[j].number
  {
  }

  lemma PastIs(log: seq<Envelope>, n: nat, p: nat)
    requires Ascending(log) && p <= |log|
    requires (p > 0 ==> log[p - 1].number <= n) && (p < |log| ==> log[p].number > n)
    ensures Past(log, n) == p
  {
    forall k | 0 <= k < p ensures log[k].number <= n {
      AtMost(log, k, p - 1);
    }
  }

  lemma PastOfInit(log: seq<Envelope>, n: nat)
    requires Ascending(log) && log != []
    ensures var init, p := log[..|log| - 1], Past(log[..|log| - 1], n);
            && Ascending(init) && p <= |init|
            && (log[|log| - 1].number <= n ==> p == |init| && Past(log, n) == |log|)
            && (log[|log| - 1].number > n ==> Past(log, n) == p)
  {
    var init := log[..|log| - 1];
    if log[|log| - 1].number <= n {
      PastIs(log, n, |log|);
      PastIs(init, n, |init|);
    } else {
      PastIs(log, n, Past(init, n));
    }
  }

  lemma FilterOne(init: seq<Envelope>, last: Envelope, boundary: nat)
    ensures FilterHistory(init + [last], boundary) ==
            FilterHistory(init, boundary) + if last.number <= boundary then [last] else []
  {
    assert (init + [last])[..|init|] == init;
  }

  lemma {:induction false} FilterIsPrefix(history: seq<Envelope>, boundary: nat)
    requires Ascending(history)
    ensures FilterHistory(history, boundary) == history[..Past(history, boundary)]
  {
    if history != [] {
      var init := history[..|history| - 1];
      hide Past, PastFrom;
      PastOfInit(history, boundary);
      FilterIsPrefix(init, boundary);
      hide FilterHistory, Ascending;
      var p, last := Past(init, boundary), history[|history| - 1];
      FilterOne(init, last, boundary);
      assert history == init + [last];
      assert history[..p] == init[..p];
    }
  }

  /** The page of history a socket gets before the live stream starts. */
  datatype Snapshot = Snapshot(events: seq<Envelope>, hasMore: bool, next: Option<nat>)

  function SnapshotOf(history: seq<Envelope>, boundary: nat): Snapshot {
    var filtered := FilterHistory(history, boundary);
    Snapshot(filtered, |filtered| >= SNAPSHOT_PAGE,
             if filtered == [] then None else Some(filtered[|filtered| - 1].number))
  }

  /** The events with numbers in `(since, upTo]`. */
  function Between(log: seq<Envelope>, since: nat, upTo: nat): seq<Envelope>
    requires Ascending(log)
  {
    var p, q := Past(log, since), Past(log, upTo);
    if p <= q then log[p..q] else []
  }

  /** A page that promises no more is all of `(since, boundary]`, even if newer events filled part of it; one that
      promises more is all of `(since, next]`. */
  lemma SnapshotCovers(log: seq<Envelope>, since: nat, boundary: nat)
    requires Ascending(log)
    ensures var s := SnapshotOf(LoadSince(log, since, SNAPSHOT_PAGE), boundary);
            && (s.hasMore <==> |Between(log, since, boundary)| >= SNAPSHOT_PAGE)
            && (!s.hasMore ==> s.events == Between(log, since, boundary))
            && (s.hasMore ==> s.next.Some? && since < s.next.value <= boundary && s.events == Between(log, since, s.next.value))
  {
    hide FilterHistory, LoadSince, Between, Ascending, SnapshotOf, Past, PastFrom;
    var p, h := Past(log, since), LoadSince(log, since, SNAPSHOT_PAGE);
    LoadedSlice(log, since);
    var r := Past(h, boundary);
    ShownIsPrefix(h, boundary);
    if r < SNAPSHOT_PAGE {
      PageEnds(log, since, boundary, p, |h|, r);
    } else {
      FullPageEnds(log, since, p + r);
      assert h[r - 1] == log[p + r - 1];
      LongerBetween(log, since, log[p + r - 1].number, boundary);
    }
    SliceOfSlice(log, p, |h|, r);
  }

  lemma LongerBetween(log: seq<Envelope>, since: nat, upTo: nat, further: nat)
    requires Ascending(log) && upTo <= further
    ensures |Between(log, since, upTo)| <= |Between(log, since, further)|
  {
    var p, q := Past(log, upTo), Past(log, further);
    assert q < |log| ==> log[q].number > upTo;
  }

  lemma SliceOfSlice(log: seq<Envelope>, p: nat, n: nat, r: nat)
    requires r <= n && p + n <= |log|
    ensures log[p..p + n][..r] == log[p..p + r]
  {
  }

  lemma ShownIsPrefix(h: seq<Envelope>, boundary: nat)
    requires Ascending(h)
    ensures var r, s := Past(h, boundary), SnapshotOf(h, boundary);
            && r <= |h| && s.events == h[..r] && s.hasMore == (r >= SNAPSHOT_PAGE)
            && s.next == (if r == 0 then None else Some(h[r - 1].number))
            && (r > 0 ==> h[r - 1].number <= boundary)
  {
    FilterIsPrefix(h, boundary);
  }

  lemma LoadedSlice(log: seq<Envelope>, since: nat)
    requires Ascending(log)
    ensures var p, h := Past(log, since), LoadSince(log, since, SNAPSHOT_PAGE);
            && p + |h| <= |log| && |h| <= SNAPSHOT_PAGE && (|h| < SNAPSHOT_PAGE ==> p + |h| == |log|)
            && h == log[p..p + |h|] && Ascending(h)
  {
  }

  lemma FullPageEnds(log: seq<Envelope>, since: nat, end: nat)
    requires Ascending(log) && Past(log, since) < end <= |log|
    ensures log[end - 1].number > since && log[Past(log, since)..end] == Between(log, since, log[end - 1].number)
  {
    var p := Past(log, since);
    assert log[p].number <= log[end - 1].number;
    PastIs(log, log[end - 1].number, end);
  }

  /** The part of a page up to the boundary ends where the boundary is, or the page does. */
  lemma PageEnds(log: seq<Envelope>, since: nat, boundary: nat, p: nat, n: nat, r: nat)
    requires Ascending(log) && p == Past(log, since) && p + n <= |log| && (n < SNAPSHOT_PAGE ==> p + n == |log|)
    requires var h := log[p..p + n]; r == Past(h, boundary)
    requires r < SNAPSHOT_PAGE && n <= SNAPSHOT_PAGE
    ensures log[p..p + r] == Between(log, since, boundary)
  {
    var q := Past(log, boundary);
    var h := log[p..p + n];
    if r > 0 {
      assert h[r - 1] == log[p + r - 1] && h[r - 1].number <= boundary;
    }
    if r < n {
      assert h[r] == log[p + r] && h[r].number > boundary;
    }
    if r > 0 || p == 0 || log[p - 1].number <= boundary {
      PastIs(log, boundary, p + r);
    }
  }

  // -------------------------------------------------------------------------- the socket

  /** `heard` is what the hub has put in the socket's queue and the forwarder has not taken yet. */
  datatype Conn = Conn(registered: bool, heard: seq<Envelope>, boundary: Option<nat>, snapshot: Option<Snapshot>,
                       sent: seq<Envelope>)
  {
    /** Live events up to here are left to the page. */
    function Line(): nat { if boundary.Some? then boundary.value else 0 }

    function Hear(e: Envelope): Conn { if registered then this.(heard := heard + [e]) else this }

    /** A failed read counts as an empty log. */
    function Bound(high: nat, ok: bool): Conn { this.(boundary := Some(if ok then high else 0)) }

    /** A failed read counts as no history. */
    function Page(log: seq<Envelope>, since: nat, ok: bool): Conn
      requires boundary.Some?
    {
      this.(snapshot := Some(SnapshotOf(if ok then LoadSince(log, since, SNAPSHOT_PAGE) else [], boundary.value)))
    }

    function Forward(): Conn
      requires boundary.Some? && heard != []
    {
      this.(heard := heard[1..], sent := if heard[0].number <= boundary.value then sent else sent + [heard[0]])
    }
  }

  /** What the forwarder will send of these events. */
  function Live(events: seq<Envelope>, boundary: nat): seq<Envelope> {
    if events == [] then []
    else (if events[0].number <= boundary then [] else [events[0]]) + Live(events[1..], boundary)
  }

  class Socket {
    var registered: bool
    var heard: seq<Envelope>
    var boundary: Option<nat>
    var snapshot: Option<Snapshot>
    var sent: seq<Envelope>

    function View(): Conn
      reads this
    {
      Conn(registered, heard, boundary, snapshot, sent)
    }

    constructor ()
      ensures View() == Conn(false, [], None, None, [])
    {
      registered, heard, boundary, snapshot, sent := false, [], None, None, [];
    }

    method Register()
      modifies this
      ensures View() == old(View()).(registered := true)
    {
      registered := true;
    }

    method Hear(e: Envelope)
      modifies this
      ensures View() == old(View()).Hear(e)
    {
      if registered {
        heard := heard + [e];
      }
    }

    method ReadBoundary(latest: Option<nat>)
      modifies this
      ensures View() == old(View()).Bound(if latest.Some? then latest.value else 0, latest.Some?)
    {
      boundary := Some(if latest.Some? then latest.value else 0);
    }

    method ReadPage(history: Option<seq<Envelope>>, ghost log: seq<Envelope>, since: nat)
      requires boundary.Some? && (history.Some? ==> history.value == LoadSince(log, since, SNAPSHOT_PAGE))
      modifies this
      ensures View() == old(View()).Page(log, since, history.Some?)
    {
      var loaded := if history.Some? then history.value else [];
      var filtered: seq<Envelope> := [];
      for i := 0 to |loaded|
        invariant filtered == FilterHistory(loaded[..i], boundary.value)
      {
        assert loaded[..i + 1][..i] == loaded[..i];
        if loaded[i].number <= boundary.value {
          filtered := filtered + [loaded[i]];
        }
      }
      assert loaded[..|loaded|] == loaded;
      snapshot := Some(Snapshot(filtered, |filtered| >= SNAPSHOT_PAGE,
                                if filtered == [] then None else Some(filtered[|filtered| - 1].number)));
    }

    /** Forwarding changes neither what the socket will have sent in the end, nor what it has sent so far but by one
        event, which is past the boundary. */
    method ForwardOne()
      requires boundary.Some? && heard != []
      modifies this`heard, this`sent
      ensures heard == old(heard)[1..]
      ensures sent + Live(heard, boundary.value) == old(sent) + Live(old(heard), boundary.value)
      ensures old(sent) <= sent && forall k :: |old(sent)| <= k < |sent| ==> sent[k].number > boundary.value
      ensures View() == old(View()).Forward()
    {
      var e := heard[0];
      heard := heard[1..];
      if e.number <= boundary.value {
        return;
      }
      sent := sent + [e];
    }
  }

  // -------------------------------------------------------------------- every interleaving

  /** `high` is the greatest number ever given; `missed` was published before the socket registered, `skipped`
      came live and was left to the page. */
  datatype World = World(
    log: seq<Envelope>, high: nat, unpublished: multiset<Envelope>, missed: multiset<Envelope>,
    skipped: multiset<Envelope>, conn: Conn, since: nat, boundaryRead: bool, pageRead: bool)

  datatype Step = Append(e: Envelope) | Publish(e: Envelope) | Register | Bound(ok: bool) | Page(ok: bool) | Forward

  predicate CanHappen(w: World, step: Step) {
    match step
    case Append(e) => e.number > w.high
    case Publish(e) => e in w.unpublished
    case Register => !w.conn.registered
    case Bound(_) => w.conn.registered && w.conn.boundary.None?
    case Page(_) => w.conn.boundary.Some? && w.conn.snapshot.None?
    case Forward => w.conn.boundary.Some? && w.conn.snapshot.Some? && w.conn.heard != []
  }

  function Do(w: World, step: Step): World
    requires CanHappen(w, step)
  {
    match step
    case Append(e) => w.(log := w.log + [e], high := e.number, unpublished := w.unpublished + multiset{e})
    case Publish(e) =>
      w.(unpublished := w.unpublished - multiset{e}, conn := w.conn.Hear(e),
         missed := if w.conn.registered then w.missed else w.missed + multiset{e})
    case Register => w.(conn := w.conn.(registered := true))
    case Bound(ok) => w.(conn := w.conn.Bound(w.high, ok), boundaryRead := ok)
    case Page(ok) => w.(conn := w.conn.Page(w.log, w.since, ok), pageRead := ok)
    case Forward =>
      var e := w.conn.heard[0];
      w.(conn := w.conn.Forward(), skipped := if e.number <= w.conn.boundary.value then w.skipped + multiset{e} else w.skipped)
  }

  predicate Possible(w: World, steps: seq<Step>)
    decreases |steps|
  {
    steps == [] || (CanHappen(w, steps[0]) && Possible(Do(w, steps[0]), steps[1..]))
  }

  function Run(w: World, steps: seq<Step>): World
    requires Possible(w, steps)
    decreases |steps|
  {
    if steps == [] then w else Run(Do(w, steps[0]), steps[1..])
  }

  predicate Start(w: World) {
    && Numbered(w.log, w.high)
    && multiset(w.log) == w.unpublished + w.missed && w.skipped == multiset{}
    && w.conn == Conn(false, [], None, None, [])
  }

  /** Every event is somewhere, once. */
  predicate Accounted(w: World) { Numbered(w.log, w.high) && Balanced(w) }

  predicate Numbered(log: seq<Envelope>, high: nat) {
    Ascending(log) && forall i :: 0 <= i < |log| ==> 0 < log[i].number <= high
  }

  predicate Balanced(w: World) {
    && multiset(w.log) == w.unpublished + w.missed + multiset(w.conn.heard) + multiset(w.conn.sent) + w.skipped
  }

  predicate Sorted(w: World) {
    && (w.conn.boundary.None? ==> w.skipped == multiset{} && w.conn.sent == [] && w.conn.snapshot.None?)
    && (w.conn.boundary.Some? ==>
          && w.conn.registered
          && w.conn.boundary.value <= w.high
          && (!w.boundaryRead ==> w.conn.boundary.value == 0)
          && (w.boundaryRead ==> forall e :: e in w.missed ==> e.number <= w.conn.boundary.value)
          && (forall e :: e in w.skipped ==> e.number <= w.conn.boundary.value)
          && (forall e :: e in w.conn.sent ==> e.number > w.conn.boundary.value))
  }

  predicate PageRight(w: World)
    requires Ascending(w.log)
  {
    w.conn.boundary.Some? && w.conn.snapshot.Some? ==>
      var b, s := w.conn.boundary.value, w.conn.snapshot.value;
      if !w.boundaryRead || !w.pageRead then s == Snapshot([], false, None)
      else
        && (!s.hasMore ==> s.events == Between(w.log, w.since, b))
        && (s.hasMore ==> s.next.Some? && w.since < s.next.value <= b && s.events == Between(w.log, w.since, s.next.value))
  }

  predicate Inv(w: World) { Accounted(w) && Sorted(w) && PageRight(w) }

  lemma BetweenStays(log: seq<Envelope>, e: Envelope, since: nat, upTo: nat)
    requires Ascending(log + [e]) && e.number > upTo
    ensures Ascending(log) && Between(log + [e], since, upTo) == Between(log, since, upTo)
  {
    var more := log + [e];
    AscendingBefore(log, e);
    hide Past, PastFrom, Ascending, Between;
    var p, q := Past(log, since), Past(log, upTo);
    PastStays(log, e, upTo);
    PastStays(log, e, since);
    BetweenIs(log, since, upTo);
    BetweenIs(more, since, upTo);
    if p <= q {
      assert q <= |log| && more[p..q] == log[p..q];
    }
  }

  lemma AscendingBefore(log: seq<Envelope>, e: Envelope)
    requires Ascending(log + [e])
    ensures Ascending(log)
  {
    var more := log + [e];
    assert forall i :: 0 <= i < |log| ==> more[i] == log[i];
  }

  lemma BetweenIs(log: seq<Envelope>, since: nat, upTo: nat)
    requires Ascending(log)
    ensures var p, q := Past(log, since), Past(log, upTo);
            q <= |log| && Between(log, since, upTo) == if p <= q then log[p..q] else []
  {
  }

  lemma PastStays(log: seq<Envelope>, e: Envelope, n: nat)
    requires Ascending(log) && Ascending(log + [e])
    ensures var p := Past(log, n);
            p <= |log| && Past(log + [e], n) == if p < |log| || e.number > n then p else |log| + 1
  {
    PastIs(log + [e], n, if Past(log, n) < |log| || e.number > n then Past(log, n) else |log| + 1);
  }

  lemma NumbersAscend(log: seq<Envelope>, high: nat, e: Envelope)
    requires Numbered(log, high) && e.number > high
    ensures Numbered(log + [e], e.number)
  {
  }

  lemma StepKeepsInv(w: World, step: Step)
    requires Inv(w) && CanHappen(w, step)
    ensures Inv(Do(w, step))
  {
    StepKeepsAccounts(w, step);
    StepKeepsSorted(w, step);
    StepKeepsPage(w, step);
  }

  lemma StepKeepsAccounts(w: World, step: Step)
    requires Accounted(w) && CanHappen(w, step)
    ensures Accounted(Do(w, step))
  {
    hide Balanced;
    match step
    case Append(e) => NumbersAscend(w.log, w.high, e); AppendKeepsBalance(w, e);
    case Publish(e) => PublishKeepsBalance(w, e);
    case Forward => ForwardKeepsBalance(w);
    case _ => QuietStepKeepsBalance(w, step);
  }

  lemma AppendKeepsBalance(w: World, e: Envelope)
    requires Balanced(w) && CanHappen(w, Append(e))
    ensures Balanced(Do(w, Append(e)))
  {
  }

  lemma PublishKeepsBalance(w: World, e: Envelope)
    requires Balanced(w) && CanHappen(w, Publish(e))
    ensures Balanced(Do(w, Publish(e)))
  {
    assert w.unpublished == w.unpublished - multiset{e} + multiset{e};
  }

  lemma QuietStepKeepsBalance(w: World, step: Step)
    requires Balanced(w) && CanHappen(w, step) && (step.Register? || step.Bound? || step.Page?)
    ensures Balanced(Do(w, step))
  {
    hide LoadSince, SnapshotOf;
  }

  lemma ForwardKeepsBalance(w: World)
    requires Balanced(w) && CanHappen(w, Forward)
    ensures Balanced(Do(w, Forward))
  {
    hide LoadSince, SnapshotOf;
    var after, e := Do(w, Forward), w.conn.heard[0];
    HeadCounts(w.conn.heard);
    if e.number <= w.conn.boundary.value {
      assert after.skipped == w.skipped + multiset{e} && after.conn.sent == w.conn.sent;
    } else {
      assert after.skipped == w.skipped && multiset(after.conn.sent) == multiset(w.conn.sent) + multiset{e};
    }
  }

  lemma HeadCounts(heard: seq<Envelope>)
    requires heard != []
    ensures multiset(heard) == multiset{heard[0]} + multiset(heard[1..])
  {
    assert heard == [heard[0]] + heard[1..];
  }

  lemma InLogNumber(log: seq<Envelope>, high: nat, e: Envelope)
    requires Numbered(log, high) && e in log
    ensures 0 < e.number <= high
  {
  }

  lemma StepKeepsSorted(w: World, step: Step)
    requires Accounted(w) && Sorted(w) && CanHappen(w, step)
    ensures Sorted(Do(w, step))
  {
    hide Numbered, LoadSince, SnapshotOf, Balanced;
    if step.Bound? {
      BoundKeepsSorted(w, step.ok);
    }
  }

  lemma BoundKeepsSorted(w: World, ok: bool)
    requires Accounted(w) && Sorted(w) && CanHappen(w, Step.Bound(ok))
    ensures Sorted(Do(w, Step.Bound(ok)))
  {
    hide Numbered;
    forall e | e in w.missed ensures e.number <= w.high {
      assert e in multiset(w.log);
      InLogNumber(w.log, w.high, e);
    }
  }

  lemma {:induction false} NothingToShow(history: seq<Envelope>, boundary: nat)
    requires forall i :: 0 <= i < |history| ==> history[i].number > boundary
    ensures SnapshotOf(history, boundary) == Snapshot([], false, None)
  {
    if history != [] {
      NothingToShow(history[..|history| - 1], boundary);
    }
  }

  lemma LoadedNumbers(log: seq<Envelope>, since: nat, high: nat)
    requires Numbered(log, high)
    ensures var h := LoadSince(log, since, SNAPSHOT_PAGE); forall i :: 0 <= i < |h| ==> h[i].number > 0
  {
  }

  lemma StepKeepsPage(w: World, step: Step)
    requires Inv(w) && CanHappen(w, step) && Accounted(Do(w, step))
    ensures PageRight(Do(w, step))
  {
    hide LoadSince, SnapshotOf, Between, Balanced, Ascending;
    match step
    case Append(e) =>
      if w.conn.boundary.Some? && w.conn.snapshot.Some? {
        BetweenStays(w.log, e, w.since, w.conn.boundary.value);
        var s := w.conn.snapshot.value;
        if s.hasMore && s.next.Some? && s.next.value <= w.conn.boundary.value {
          BetweenStays(w.log, e, w.since, s.next.value);
        }
      }
    case Page(ok) =>
      if !ok {
        NothingToShow([], w.conn.boundary.value);
      } else if !w.boundaryRead {
        LoadedNumbers(w.log, w.since, w.high);
        NothingToShow(LoadSince(w.log, w.since, SNAPSHOT_PAGE), 0);
      } else {
        SnapshotCovers(w.log, w.since, w.conn.boundary.value);
      }
    case _ =>
  }

  lemma {:induction false} RunKeepsInv(w: World, steps: seq<Step>)
    requires Inv(w) && Possible(w, steps)
    ensures Inv(Run(w, steps))
    decreases |steps|
  {
    hide Inv, CanHappen, Do;
    if steps != [] {
      StepKeepsInv(w, steps[0]);
      RunKeepsInv(Do(w, steps[0]), steps[1..]);
    }
  }

  /** How often the socket has got this event, by page or live. */
  function Got(w: World, e: Envelope): nat
    requires w.conn.snapshot.Some?
  {
    multiset(w.conn.snapshot.value.events)[e] + multiset(w.conn.sent)[e]
  }

  lemma OnceInLog(log: seq<Envelope>, e: Envelope)
    requires Ascending(log) && e in log
    ensures multiset(log)[e] == 1
  {
    var i :| 0 <= i < |log| && log[i] == e;
    assert log == log[..i] + [e] + log[i + 1..];
    assert e !in log[..i] && e !in log[i + 1..];
  }

  lemma OnceBetween(log: seq<Envelope>, since: nat, upTo: nat, e: Envelope)
    requires Ascending(log) && e in log
    ensures multiset(Between(log, since, upTo))[e] == if since < e.number <= upTo then 1 else 0
  {
    var p, q := Past(log, since), Past(log, upTo);
    var i :| 0 <= i < |log| && log[i] == e;
    var page := Between(log, since, upTo);
    if since < e.number <= upTo {
      assert p <= i < q;
      assert page[i - p] == e;
      assert Ascending(page);
      hide Between, Past;
      OnceInLog(page, e);
    } else {
      NotBetween(log, since, upTo, e);
      hide Between, Past, Ascending;
      assert e !in page;
    }
  }

  lemma NotBetween(log: seq<Envelope>, since: nat, upTo: nat, e: Envelope)
    requires Ascending(log) && !(since < e.number <= upTo)
    ensures e !in Between(log, since, upTo)
  {
    var p, page := Past(log, since), Between(log, since, upTo);
    forall k | 0 <= k < |page| ensures page[k] != e {
      AtMost(log, p, p + k);
      assert page[k] == log[p + k] && since < log[p + k].number <= upTo;
    }
  }

  /** Nothing more is on its way to the socket. */
  predicate Quiet(w: World) { w.conn.snapshot.Some? && w.conn.heard == [] && w.unpublished == multiset{} }

  /** What happens to one event after `since`, once all is quiet: a page that promises more leaves exactly what is
      past its end, up to the boundary. */
  lemma GotWhenRead(w: World, e: Envelope)
    requires Inv(w) && Quiet(w) && w.boundaryRead && w.pageRead && e in w.log && e.number > w.since
    ensures var s, b := w.conn.snapshot.value, w.conn.boundary.value;
            Got(w, e) == if s.hasMore && s.next.value < e.number <= b then 0 else 1
  {
    hide Between, Ascending;
    var s, b := w.conn.snapshot.value, w.conn.boundary.value;
    OnceInLog(w.log, e);
    OnceBetween(w.log, w.since, if s.hasMore then s.next.value else b, e);
    assert multiset(w.log)[e] == w.missed[e] + multiset(w.conn.sent)[e] + w.skipped[e];
    if e.number <= b {
      assert e !in w.conn.sent;
    } else {
      assert e !in w.missed && e !in w.skipped;
    }
  }

  lemma GotWhenUnread(w: World, e: Envelope)
    requires Inv(w) && Quiet(w) && !(w.boundaryRead && w.pageRead) && e in w.log && e.number > w.since
    ensures Got(w, e) == if w.boundaryRead then (if e.number <= w.conn.boundary.value then 0 else 1)
                         else (if e in w.missed then 0 else 1)
  {
    hide Between, Ascending;
    var b := w.conn.boundary.value;
    OnceInLog(w.log, e);
    assert multiset(w.log)[e] == w.missed[e] + multiset(w.conn.sent)[e] + w.skipped[e];
    var i :| 0 <= i < |w.log| && w.log[i] == e;
    assert e.number > 0;
    if e.number <= b {
      assert e !in w.conn.sent;
    } else {
      assert e !in w.skipped;
    }
  }

  /** The page and the live stream together bring each event after `since` once. */
  ghost predicate EachOnce(w: World)
    requires w.conn.snapshot.Some?
  {
    forall e :: e in w.log && e.number > w.since ==> Got(w, e) == 1
  }

  /** In every interleaving, when the page promises no more and both reads worked, each event after `since` arrives
      exactly once. */
  lemma ExactlyOnce(start: World, steps: seq<Step>)
    requires Start(start) && Possible(start, steps)
    ensures var w := Run(start, steps);
            Quiet(w) && w.boundaryRead && w.pageRead && !w.conn.snapshot.value.hasMore ==> EachOnce(w)
  {
    var w := Run(start, steps);
    RunKeepsInv(start, steps);
    if Quiet(w) && w.boundaryRead && w.pageRead && !w.conn.snapshot.value.hasMore {
      forall e | e in w.log && e.number > w.since ensures Got(w, e) == 1 {
        GotWhenRead(w, e);
      }
    }
  }

  /** A read that fails goes unnoticed: the page promises no more. Each event still arrives once exactly when a
      failed boundary read found nothing after `since` published before the socket registered, and a failed page
      read found nothing after `since` in the log. */
  lemma EachOnceDespiteFailureIff(start: World, steps: seq<Step>)
    requires Start(start) && Possible(start, steps)
    ensures var w := Run(start, steps);
            Quiet(w) && !(w.boundaryRead && w.pageRead) ==>
              && !w.conn.snapshot.value.hasMore
              && (EachOnce(w) <==>
                    if w.boundaryRead then forall e :: e in w.log ==> e.number <= w.since || e.number > w.conn.Line()
                    else forall e :: e in w.missed ==> e.number <= w.since)
  {
    hide Between, Ascending;
    var w := Run(start, steps);
    RunKeepsInv(start, steps);
    if Quiet(w) && !(w.boundaryRead && w.pageRead) {
      forall e | e in w.log && e.number > w.since ensures Got(w, e) == 1 <==>
          (if w.boundaryRead then e.number > w.conn.boundary.value else e !in w.missed)
      {
        GotWhenUnread(w, e);
      }
      forall e | e in w.missed ensures e in w.log {
        assert e in multiset(w.log);
      }
    }
  }
}

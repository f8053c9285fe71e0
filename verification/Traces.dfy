/** Orders of taking effect. A trace lists events in the order they ran on the rows; an event that ran
    twice counts where it ran last. */
module Traces {
  import opened Events

  /** `x` ran, and did not run again after `y` last did. */
  predicate Before(trace: seq<Event>, x: Event, y: Event) {
    trace != [] &&
    var init, last := trace[..|trace| - 1], trace[|trace| - 1];
    if last == y then x != y && x in init
    else last != x && Before(init, x, y)
  }

  lemma BeforeMembers(trace: seq<Event>, x: Event, y: Event)
    requires Before(trace, x, y)
    ensures x in trace && y in trace && x != y
  {
  }

  lemma BeforeAppend(trace: seq<Event>, e: Event, x: Event, y: Event)
    ensures Before(trace + [e], x, y) == if e == y then x != y && x in trace else e != x && Before(trace, x, y)
  {
    assert (trace + [e])[..|trace|] == trace;
  }

  lemma {:induction false} BeforeAcross(head: seq<Event>, tail: seq<Event>, x: Event, y: Event)
    requires x in head && x !in tail && y in tail
    ensures Before(head + tail, x, y)
  {
    var n := |tail| - 1;
    assert head + tail == (head + tail[..n]) + [tail[n]];
    BeforeAppend(head + tail[..n], tail[n], x, y);
    if tail[n] != y {
      BeforeAcross(head, tail[..n], x, y);
    }
  }

  lemma {:induction false} BeforeSuffix(head: seq<Event>, tail: seq<Event>, x: Event, y: Event)
    requires Before(tail, x, y)
    ensures Before(head + tail, x, y)
  {
    var n := |tail| - 1;
    assert head + tail == (head + tail[..n]) + [tail[n]];
    BeforeAppend(head + tail[..n], tail[n], x, y);
    if tail[n] != y {
      BeforeSuffix(head, tail[..n], x, y);
    }
  }

  /** What ran last in the tail can only be before something that ran later in the tail. */
  lemma {:induction false} BeforeInTail(head: seq<Event>, tail: seq<Event>, x: Event, y: Event)
    requires x in tail && Before(head + tail, x, y)
    ensures Before(tail, x, y)
  {
    var n := |tail| - 1;
    assert head + tail == (head + tail[..n]) + [tail[n]];
    assert tail == tail[..n] + [tail[n]];
    BeforeAppend(head + tail[..n], tail[n], x, y);
    BeforeAppend(tail[..n], tail[n], x, y);
    if tail[n] != y {
      BeforeInTail(head, tail[..n], x, y);
    }
  }

  /** Events that run neither `x` nor `y` leave their order alone. */
  lemma {:induction false} BeforeUntouched(head: seq<Event>, tail: seq<Event>, x: Event, y: Event)
    requires x !in tail && y !in tail
    ensures Before(head + tail, x, y) == Before(head, x, y)
  {
    if tail == [] {
      assert head + tail == head;
    } else {
      var n := |tail| - 1;
      assert head + tail == (head + tail[..n]) + [tail[n]];
      BeforeAppend(head + tail[..n], tail[n], x, y);
      BeforeUntouched(head, tail[..n], x, y);
    }
  }

  lemma {:induction false} BeforeInsert(head: seq<Event>, e: Event, tail: seq<Event>, x: Event, y: Event)
    requires x != e && y != e
    ensures Before(head + [e] + tail, x, y) == Before(head + tail, x, y)
  {
    if tail == [] {
      assert head + [e] + tail == head + [e] && head + tail == head;
      BeforeAppend(head, e, x, y);
    } else {
      var n := |tail| - 1;
      assert head + [e] + tail == (head + [e] + tail[..n]) + [tail[n]];
      assert head + tail == (head + tail[..n]) + [tail[n]];
      BeforeAppend(head + [e] + tail[..n], tail[n], x, y);
      BeforeAppend(head + tail[..n], tail[n], x, y);
      BeforeInsert(head, e, tail[..n], x, y);
    }
  }

  lemma {:induction false} BeforeByIndex(trace: seq<Event>, i: nat, j: nat)
    requires DistinctIds(trace) && i < j < |trace|
    ensures Before(trace, trace[i], trace[j])
  {
    assert trace == trace[..j] + trace[j..];
    assert trace[i] == trace[..j][i] && trace[j] == trace[j..][0];
    BeforeAcross(trace[..j], trace[j..], trace[i], trace[j]);
  }

  lemma {:induction false} IndexByBefore(trace: seq<Event>, i: nat, j: nat)
    requires DistinctIds(trace) && i < |trace| && j < |trace|
    requires Before(trace, trace[i], trace[j])
    ensures i < j
  {
    if j < i {
      BeforeByIndex(trace, j, i);
      BeforeAntisymmetric(trace, trace[i], trace[j]);
    } else if i == j {
      BeforeMembers(trace, trace[i], trace[j]);
    }
  }

  lemma BeforeAntisymmetric(trace: seq<Event>, x: Event, y: Event)
    ensures !(Before(trace, x, y) && Before(trace, y, x))
  {
  }

  // ------------------------------------------------------- an event that runs twice

  function Without(trace: seq<Event>, e: Event): seq<Event> {
    if trace == [] then []
    else
      var init, last := trace[..|trace| - 1], trace[|trace| - 1];
      if last == e then Without(init, e) else Without(init, e) + [last]
  }

  lemma WithoutMembers(trace: seq<Event>, e: Event, x: Event)
    ensures x in Without(trace, e) <==> x in trace && x != e
  {
    if trace != [] {
      assert trace == trace[..|trace| - 1] + [trace[|trace| - 1]];
    }
  }

  lemma {:induction false} WithoutShorter(trace: seq<Event>, e: Event)
    ensures |Without(trace, e)| <= |trace|
  {
    if trace != [] {
      WithoutShorter(trace[..|trace| - 1], e);
    }
  }

  lemma {:induction false} WithoutKeepsOrder(trace: seq<Event>, e: Event, x: Event, y: Event)
    requires x != e && y != e
    ensures Before(Without(trace, e), x, y) == Before(trace, x, y)
  {
    if trace != [] {
      var init, last := trace[..|trace| - 1], trace[|trace| - 1];
      WithoutKeepsOrder(init, e, x, y);
      WithoutMembers(init, e, x);
      if last != e {
        BeforeAppend(Without(init, e), last, x, y);
      }
    }
  }

  /** Two rows that `effect` makes equal stay so if some other effect runs on both first. */
  lemma AbsorbStep(a: Option<Columns>, b: Option<Columns>, other: Effect, effect: Effect)
    requires After(a, effect) == After(b, effect)
    requires effect.DropSlug? && other.Edit? ==> Slug !in other.patch
    requires effect.Edit? && other.DropSlug? ==> Slug !in effect.patch
    ensures After(After(a, other), effect) == After(After(b, other), effect)
  {
    if other.Edit? && effect.Edit? && a.Some? && b.Some? {
      var x, y := a.value + other.patch + effect.patch, b.value + other.patch + effect.patch;
      forall c: Column
        ensures c in x <==> c in y
        ensures c in x ==> x[c] == y[c]
      {
        if c !in effect.patch {
          SameElsewhere(a.value, b.value, effect.patch, c);
        }
      }
      assert x == y;
    } else if other.DropSlug? && effect.Edit? && a.Some? && b.Some? {
      SameElsewhere(a.value, b.value, effect.patch, Slug);
    }
  }

  lemma SameElsewhere(a: Columns, b: Columns, patch: Columns, c: Column)
    requires a + patch == b + patch && c !in patch
    ensures (c in a <==> c in b) && (c in a ==> a[c] == b[c])
  {
    var x, y := a + patch, b + patch;
    assert c in x <==> c in y;
    assert c in x ==> x[c] == y[c];
  }

  /** Dropping every earlier run of an event that runs again at the end changes no row. */
  lemma {:induction false} EarlierRunsAbsorbed(trace: seq<Event>, e: Event, key: Key)
    ensures AfterEvent(RowAfter(trace, key), e, key) == AfterEvent(RowAfter(Without(trace, e), key), e, key)
  {
    if trace != [] && Touches(e, key) {
      var init, last := trace[..|trace| - 1], trace[|trace| - 1];
      EarlierRunsAbsorbed(init, e, key);
      var effect := e.payload.EffectOn(key).value;
      if last == e {
        AbsorbTwice(RowAfter(init, key), effect);
      } else {
        var rest := Without(init, e);
        assert (rest + [last])[..|rest|] == rest;
        if Touches(last, key) {
          EditsOrSlugs(last, e, key);
          AbsorbStep(RowAfter(init, key), RowAfter(rest, key), last.payload.EffectOn(key).value, effect);
        }
      }
    } else if trace != [] {
      WithoutUnrelated(trace, e, key);
    }
  }

  /** Only project rows are dropped for their slug, and no edit changes a project's slug. */
  lemma EditsOrSlugs(a: Event, b: Event, key: Key)
    requires Touches(a, key) && Touches(b, key)
    ensures var x, y := a.payload.EffectOn(key).value, b.payload.EffectOn(key).value;
            && (x.DropSlug? ==> key.ProjectRow?) && (y.DropSlug? ==> key.ProjectRow?)
            && (x.DropSlug? && y.Edit? ==> Slug !in y.patch) && (y.DropSlug? && x.Edit? ==> Slug !in x.patch)
  {
    if key.ProjectRow? {
      ProjectEdits(a, key);
      ProjectEdits(b, key);
    }
  }

  lemma AbsorbTwice(row: Option<Columns>, effect: Effect)
    ensures After(After(row, effect), effect) == After(row, effect)
  {
    if effect.Edit? && row.Some? {
      assert row.value + effect.patch + effect.patch == row.value + effect.patch;
    }
  }

  lemma {:induction false} WithoutUnrelated(trace: seq<Event>, e: Event, key: Key)
    requires !Touches(e, key)
    ensures RowAfter(Without(trace, e), key) == RowAfter(trace, key)
  {
    if trace != [] {
      var init, last := trace[..|trace| - 1], trace[|trace| - 1];
      WithoutUnrelated(init, e, key);
      if last != e {
        assert (Without(init, e) + [last])[..|Without(init, e)|] == Without(init, e);
      }
    }
  }

  // ------------------------------------------------------------------ the trace lemma

  predicate Touches(e: Event, key: Key) { e.payload.EffectOn(key).Some? }

  /** An event whose later company on a row it can change places with might as well have run last, once. */
  lemma {:induction false} RunsLast(trace: seq<Event>, t: Event, key: Key)
    requires t in trace
    requires forall u :: u in trace && u != t && !Before(trace, u, t) ==> CommuteOn(u, t, key)
    ensures RowAfter(trace, key) == AfterEvent(RowAfter(Without(trace, t), key), t, key)
  {
    hide AfterEvent, CommuteOn, Before, RowAfter;
    var init, last := trace[..|trace| - 1], trace[|trace| - 1];
    assert trace == init + [last];
    RowAfterOne(init, last, key);
    if last == t {
      EarlierRunsAbsorbed(init, t, key);
    } else {
      forall u | u in init && u != t && !Before(init, u, t) ensures CommuteOn(u, t, key) {
        BeforeAppend(init, last, u, t);
      }
      BeforeAppend(init, last, last, t);
      RunsLast(init, t, key);
      var rest := Without(init, t);
      assert Without(trace, t) == rest + [last];
      RowAfterOne(rest, last, key);
      InEitherOrder(RowAfter(rest, key), last, t, key);
    }
  }

  lemma RowAfterOne(events: seq<Event>, e: Event, key: Key)
    ensures RowAfter(events + [e], key) == AfterEvent(RowAfter(events, key), e, key)
  {
    assert (events + [e])[..|events|] == events;
  }

  lemma InEitherOrder(row: Option<Columns>, a: Event, b: Event, key: Key)
    requires CommuteOn(a, b, key)
    ensures AfterEvent(AfterEvent(row, a, key), b, key) == AfterEvent(AfterEvent(row, b, key), a, key)
  {
  }

  predicate GivesSlug(e: Event, key: Key, slug: string) {
    var effect := e.payload.EffectOn(key);
    effect.Some? && effect.value.Put? && HasSlug(effect.value.row, slug)
  }

  /** The event can do something to the row, when only these events ever run. Dropping a row for a slug that none
      of them gives it is nothing. */
  ghost predicate Fires(e: Event, key: Key, among: set<Event>) {
    Touches(e, key) &&
    match e.payload.EffectOn(key).value
    case DropSlug(slug) => exists x :: x in among && GivesSlug(x, key, slug)
    case _ => true
  }

  lemma {:induction false} SlugWasGiven(trace: seq<Event>, key: Key, slug: string)
    requires key.ProjectRow? && RowAfter(trace, key).Some? && HasSlug(RowAfter(trace, key).value, slug)
    ensures exists x :: x in trace && GivesSlug(x, key, slug)
  {
    var init, last := trace[..|trace| - 1], trace[|trace| - 1];
    assert trace == init + [last];
    ProjectEdits(last, key);
    if !GivesSlug(last, key, slug) {
      SlugWasGiven(init, key, slug);
      var x :| x in init && GivesSlug(x, key, slug);
      assert x in trace;
    }
  }

  lemma IdleDoesNothing(trace: seq<Event>, e: Event, key: Key, among: set<Event>)
    requires !Fires(e, key, among) && forall x :: x in trace ==> x in among
    ensures AfterEvent(RowAfter(trace, key), e, key) == RowAfter(trace, key)
  {
    if Touches(e, key) {
      EditsOrSlugs(e, e, key);
      var slug, row := e.payload.EffectOn(key).value.slug, RowAfter(trace, key);
      if row.Some? && HasSlug(row.value, slug) {
        SlugWasGiven(trace, key, slug);
      }
    }
  }

  lemma {:induction false} IdleRow(trace: seq<Event>, key: Key, among: set<Event>)
    requires forall x :: x in trace ==> x in among && !Fires(x, key, among)
    ensures RowAfter(trace, key) == None
  {
    if trace != [] {
      var init, last := trace[..|trace| - 1], trace[|trace| - 1];
      assert trace == init + [last];
      IdleRow(init, key, among);
      IdleDoesNothing(init, last, key, among);
    }
  }

  /** `trace` ran the events of `order` that can do something to the row, and left in place what clashes there. */
  ghost predicate AgreeOn(trace: seq<Event>, order: seq<Event>, key: Key, among: set<Event>) {
    && (forall e :: e in trace || e in order ==> e in among)
    && (forall e :: Fires(e, key, among) ==> (e in trace <==> e in order))
    && (forall x, y :: !CommuteOn(x, y, key) && Before(order, x, y) && x in trace && y in trace ==> Before(trace, x, y))
  }

  /** A row depends only on which events can do something to it and on the order of those that clash on it:
      whatever else ran in between, and however often an event ran before it last did. */
  lemma {:induction false} SameOrderSameRow(trace: seq<Event>, order: seq<Event>, key: Key, among: set<Event>)
    requires DistinctIds(order) && AgreeOn(trace, order, key, among)
    ensures RowAfter(trace, key) == RowAfter(order, key)
    decreases |order|
  {
    hide CommuteOn, AfterEvent, Fires;
    if order == [] {
      IdleRow(trace, key, among);
    } else {
      var init, t := order[..|order| - 1], order[|order| - 1];
      assert order == init + [t];
      if t in trace {
        forall u | u in trace && u != t && !Before(trace, u, t) ensures CommuteOn(u, t, key) {
          LaterCommutes(trace, order, key, among, u);
        }
        RunsLast(trace, t, key);
        WithoutAgrees(trace, order, key, among);
        SameOrderSameRow(Without(trace, t), init, key, among);
      } else {
        InitAgrees(trace, order, key, among);
        SameOrderSameRow(trace, init, key, among);
        IdleDoesNothing(init, t, key, among) by { assert t in order; }
      }
    }
  }

  lemma LaterCommutes(trace: seq<Event>, order: seq<Event>, key: Key, among: set<Event>, u: Event)
    requires DistinctIds(order) && order != [] && AgreeOn(trace, order, key, among)
    requires var t := order[|order| - 1]; t in trace && u in trace && u != t && !Before(trace, u, t)
    ensures CommuteOn(u, order[|order| - 1], key)
  {
    hide CommuteOn, AfterEvent, Fires;
    var init, t := order[..|order| - 1], order[|order| - 1];
    if u in order {
      BeforeAppend(init, t, u, t);
      assert order == init + [t];
    } else {
      assert !Fires(u, key, among);
      IdleCommutes(u, t, key, among);
    }
  }

  /** An event that can do nothing to the row changes places there with all that ever run. */
  lemma IdleCommutes(u: Event, t: Event, key: Key, among: set<Event>)
    requires !Fires(u, key, among) && t in among
    ensures CommuteOn(u, t, key)
  {
    if Touches(u, key) && Touches(t, key) {
      EditsOrSlugs(u, t, key);
      var slug := u.payload.EffectOn(key).value.slug;
      assert !GivesSlug(t, key, slug);
      DropSlugCommutes(slug, t.payload.EffectOn(key).value);
    }
  }

  lemma InitAgrees(trace: seq<Event>, order: seq<Event>, key: Key, among: set<Event>)
    requires AgreeOn(trace, order, key, among) && order != [] && order[|order| - 1] !in trace
    ensures AgreeOn(trace, order[..|order| - 1], key, among)
  {
    hide CommuteOn, Fires;
    var init, t := order[..|order| - 1], order[|order| - 1];
    assert order == init + [t];
    forall x, y | Before(init, x, y) && x in trace && y in trace ensures Before(order, x, y) {
      BeforeAppend(init, t, x, y);
    }
  }

  lemma WithoutAgrees(trace: seq<Event>, order: seq<Event>, key: Key, among: set<Event>)
    requires DistinctIds(order) && AgreeOn(trace, order, key, among) && order != [] && order[|order| - 1] in trace
    ensures AgreeOn(Without(trace, order[|order| - 1]), order[..|order| - 1], key, among)
  {
    hide CommuteOn, Fires;
    var init, t := order[..|order| - 1], order[|order| - 1];
    var rest := Without(trace, t);
    assert order == init + [t];
    forall e ensures e in rest <==> e in trace && e != t {
      WithoutMembers(trace, t, e);
    }
    assert t !in init;
    forall x, y | !CommuteOn(x, y, key) && Before(init, x, y) && x in rest && y in rest ensures Before(rest, x, y) {
      BeforeMembers(init, x, y);
      BeforeAppend(init, t, x, y);
      assert Before(order, x, y);
      WithoutKeepsOrder(trace, t, x, y);
    }
  }

  /** The classical form: two orders of the same events that keep every clashing pair in place fold to the same
      tables. */
  lemma TraceLemma(a: seq<Event>, b: seq<Event>)
    requires DistinctIds(a) && DistinctIds(b)
    requires forall e :: e in a <==> e in b
    requires forall x, y :: Clash(x, y) && Before(b, x, y) ==> Before(a, x, y)
    ensures Fold(a) == Fold(b)
  {
    hide AfterEvent, Fires;
    forall key ensures Row(Fold(a), key) == Row(Fold(b), key) {
      forall x, y | !CommuteOn(x, y, key) && Before(b, x, y) ensures Before(a, x, y) {
        assert Clash(x, y);
      }
      SameOrderSameRow(a, b, key, set e | e in a);
      FoldIsRowwise(a, key);
      FoldIsRowwise(b, key);
    }
    RowsEqual(Fold(a), Fold(b));
  }

  lemma NotInParts(a: seq<Event>, b: seq<Event>, x: Event)
    requires x !in a + b
    ensures x !in a && x !in b
  {
    forall i | 0 <= i < |b| ensures b[i] != x {
      assert (a + b)[|a| + i] == b[i];
    }
  }
}

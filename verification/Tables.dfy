/** What a replay leaves in the tables, told from the events alone. */
module Tables {
  import opened Events

  predicate Creates(event: Event, key: Key) {
    var payload := event.payload;
    match key
    case TaskRow(t) => (payload.TaskCreated? && payload.task == t) || (payload.TaskSplitGenerated? && t in payload.subtasks)
    case CommentRow(t, c) => payload.CommentAdded? && payload.task == t && payload.comment == c
    case ProjectRow(p) => payload.ProjectCreated? && payload.project == p
  }

  /** A comment is never removed: its deletion is a date. */
  predicate Removes(event: Event, key: Key) {
    match key
    case TaskRow(t) => event.payload == TaskDeleted(t)
    case CommentRow(_, _) => false
    case ProjectRow(p) => event.payload == ProjectDeleted(p)
  }

  /** The event at `i` was the last to create the row, and nothing removed it later, not even a project that took
      its slug. */
  predicate MadeAt(events: seq<Event>, key: Key, i: nat)
    requires i < |events|
  {
    && Creates(events[i], key)
    && forall j :: i < j < |events| ==>
         && !Creates(events[j], key) && !Removes(events[j], key)
         && !(events[i].payload.ProjectCreated? && events[j].payload.ProjectCreated? && events[i].payload.slug == events[j].payload.slug)
  }

  /** One event makes, unmakes or keeps a row. */
  lemma RowLives(row: Option<Columns>, event: Event, key: Key)
    ensures var after := AfterEvent(row, event, key);
            && (Creates(event, key) ==> after.Some?)
            && (Removes(event, key) ==> after.None?)
            && (row.None? ==> (after.Some? <==> Creates(event, key)))
            && (row.Some? && !Creates(event, key) ==>
                  (after.None? <==> Removes(event, key)
                                    || (key.ProjectRow? && event.payload.ProjectCreated? && HasSlug(row.value, event.payload.slug))))
  {
  }

  /** A created project has its slug, and nothing changes it. */
  lemma SlugStays(row: Option<Columns>, event: Event, key: Key)
    requires key.ProjectRow?
    ensures var after := AfterEvent(row, event, key);
            && (Creates(event, key) ==> after.Some? && HasSlug(after.value, event.payload.slug))
            && (!Creates(event, key) && row.Some? && after.Some? ==>
                  forall slug :: HasSlug(row.value, slug) <==> HasSlug(after.value, slug))
  {
  }

  ghost predicate StandsBy(row: Option<Columns>, events: seq<Event>, key: Key) {
    && (row.Some? <==> exists i :: 0 <= i < |events| && MadeAt(events, key, i))
    && forall i :: 0 <= i < |events| && MadeAt(events, key, i) && key.ProjectRow? && row.Some? ==>
         HasSlug(row.value, events[i].payload.slug)
  }

  lemma MadeAtStep(init: seq<Event>, last: Event, key: Key, i: nat)
    requires i < |init|
    ensures MadeAt(init + [last], key, i) <==>
              && MadeAt(init, key, i) && !Creates(last, key) && !Removes(last, key)
              && !(init[i].payload.ProjectCreated? && last.payload.ProjectCreated? && init[i].payload.slug == last.payload.slug)
  {
    var events := init + [last];
    assert events[|init|] == last;
    if MadeAt(events, key, i) {
      forall j | i < j < |init|
        ensures !Creates(init[j], key) && !Removes(init[j], key)
        ensures !(init[i].payload.ProjectCreated? && init[j].payload.ProjectCreated? && init[i].payload.slug == init[j].payload.slug)
      {
        assert events[j] == init[j];
      }
    }
  }

  lemma StandsByStep(row: Option<Columns>, init: seq<Event>, last: Event, key: Key)
    requires StandsBy(row, init, key)
    ensures StandsBy(AfterEvent(row, last, key), init + [last], key)
  {
    hide MadeAt, AfterEvent, HasSlug;
    var events, after := init + [last], AfterEvent(row, last, key);
    RowLives(row, last, key);
    assert events[|init|] == last && MadeAt(events, key, |init|) == Creates(last, key) by { LastMade(init, last, key); }
    forall i | 0 <= i < |init|
      ensures MadeAt(events, key, i) ==> MadeAt(init, key, i) && !Creates(last, key)
      ensures MadeAt(init, key, i) && row.Some? && !Creates(last, key) ==> (MadeAt(events, key, i) <==> after.Some?)
    {
      assert events[i] == init[i];
      MadeAtStep(init, last, key, i);
      if MadeAt(init, key, i) && row.Some? {
        OneSlug(row.value, init, last, key, i);
      }
    }
    forall i | 0 <= i < |events| && MadeAt(events, key, i) && key.ProjectRow? && after.Some?
      ensures events[i].payload.ProjectCreated? && HasSlug(after.value, events[i].payload.slug)
    {
      SlugStays(row, last, key);
      MadeIsCreated(events, key, i);
    }
    if row.Some? && !Creates(last, key) {
      var i :| 0 <= i < |init| && MadeAt(init, key, i);
      assert events[i] == init[i];
      assert MadeAt(events, key, i) <==> after.Some?;
    }
  }

  lemma MadeIsCreated(events: seq<Event>, key: Key, i: nat)
    requires i < |events| && MadeAt(events, key, i)
    ensures Creates(events[i], key)
  {
  }

  lemma LastMade(init: seq<Event>, last: Event, key: Key)
    ensures MadeAt(init + [last], key, |init|) <==> Creates(last, key)
  {
  }

  lemma OneSlug(row: Columns, init: seq<Event>, last: Event, key: Key, i: nat)
    requires i < |init| && MadeAt(init, key, i) && (key.ProjectRow? ==> HasSlug(row, init[i].payload.slug))
    ensures key.ProjectRow? && last.payload.ProjectCreated? ==>
              (HasSlug(row, last.payload.slug) <==> init[i].payload.slug == last.payload.slug)
    ensures init[i].payload.ProjectCreated? <==> key.ProjectRow?
  {
  }

  lemma {:induction false} RowStandsBy(events: seq<Event>, key: Key)
    ensures StandsBy(Row(Fold(events), key), events, key)
  {
    hide StandsBy, AfterEvent, Apply;
    if events == [] {
      NothingStands(key);
    } else {
      var init, last := events[..|events| - 1], events[|events| - 1];
      RowStandsBy(init, key);
      ApplyRow(Fold(init), last, key);
      StandsByStep(Row(Fold(init), key), init, last, key);
      assert events == init + [last];
    }
  }

  lemma NothingStands(key: Key)
    ensures StandsBy(None, [], key)
  {
  }

  /** A row is there after a replay exactly when some event created it and none after that removed it, created it
      again or, for a project, took its slug. */
  lemma RowStandsIff(events: seq<Event>, key: Key)
    ensures key in Fold(events) <==> exists i :: 0 <= i < |events| && MadeAt(events, key, i)
  {
    RowStandsBy(events, key);
  }

  /** No replay leaves two projects of one slug. */
  lemma OneProjectPerSlug(events: seq<Event>, p: ProjectId, q: ProjectId, slug: string)
    requires ProjectRow(p) in Fold(events) && HasSlug(Fold(events)[ProjectRow(p)], slug)
    requires ProjectRow(q) in Fold(events) && HasSlug(Fold(events)[ProjectRow(q)], slug)
    ensures p == q
  {
    hide Fold, MadeAt;
    RowStandsBy(events, ProjectRow(p));
    RowStandsBy(events, ProjectRow(q));
    var i :| 0 <= i < |events| && MadeAt(events, ProjectRow(p), i);
    var j :| 0 <= j < |events| && MadeAt(events, ProjectRow(q), j);
    if i < j {
      LaterTakesSlug(events, p, q, i, j);
    } else if j < i {
      LaterTakesSlug(events, q, p, j, i);
    } else {
      MadesOwn(events, p, q, i);
    }
  }

  lemma LaterTakesSlug(events: seq<Event>, p: ProjectId, q: ProjectId, i: nat, j: nat)
    requires i < j < |events| && MadeAt(events, ProjectRow(p), i) && MadeAt(events, ProjectRow(q), j)
    ensures events[i].payload.ProjectCreated? && events[j].payload.ProjectCreated? && events[i].payload.slug != events[j].payload.slug
  {
  }

  lemma MadesOwn(events: seq<Event>, p: ProjectId, q: ProjectId, i: nat)
    requires i < |events| && MadeAt(events, ProjectRow(p), i) && MadeAt(events, ProjectRow(q), i)
    ensures p == q
  {
  }

  /** The event says what a task's status is, or brings the task's row or takes it. */
  predicate TouchesStatus(event: Event, t: TaskId) {
    var payload := event.payload;
    || Creates(event, TaskRow(t)) || Removes(event, TaskRow(t))
    || (payload.TaskStatusChanged? && payload.task == t)
    || (payload.TaskCompleted? && payload.task == t)
    || (payload.TaskUpdated? && payload.task == t && StatusOf in payload.patch)
  }

  predicate Says(event: Event, t: TaskId, status: Status) {
    var payload := event.payload;
    || (payload.TaskStatusChanged? && payload.task == t && payload.status == status)
    || (payload.TaskCompleted? && payload.task == t && status == Done)
  }

  predicate HasStatus(row: Option<Columns>, status: Status) {
    row.Some? && StatusOf in row.value && row.value[StatusOf] == Flag(status)
  }

  lemma StatusStep(row: Option<Columns>, event: Event, t: TaskId, status: Status)
    ensures Says(event, t, status) && row.Some? ==> HasStatus(AfterEvent(row, event, TaskRow(t)), status)
    ensures !TouchesStatus(event, t) && HasStatus(row, status) ==> HasStatus(AfterEvent(row, event, TaskRow(t)), status)
  {
  }

  /** A task that is there has the status the last event that touched it said. Reopening and closing, whatever their
      names, are not among those. */
  lemma {:induction false} LastStatusStays(events: seq<Event>, t: TaskId, i: nat, status: Status)
    requires i < |events| && TaskRow(t) in Fold(events[..i]) && Says(events[i], t, status)
    requires forall j :: i < j < |events| ==> !TouchesStatus(events[j], t)
    ensures HasStatus(Row(Fold(events), TaskRow(t)), status)
  {
    hide HasStatus, AfterEvent, Apply, TouchesStatus, Says;
    var init, last := events[..|events| - 1], events[|events| - 1];
    ApplyRow(Fold(init), last, TaskRow(t));
    StatusStep(Row(Fold(init), TaskRow(t)), last, t, status);
    if i < |init| {
      assert init[..i] == events[..i];
      LastStatusStays(init, t, i, status);
    }
  }
}

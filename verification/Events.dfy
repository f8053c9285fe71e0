/** The events a desktop replica stores, and the rows its projectors keep for them. */
module Events {

  datatype Option<+T> = None | Some(value: T)

  datatype Result<+T> = Success(value: T) | Failure(error: string)

  type EventId = nat
  type TaskId = nat
  type ProjectId = nat
  type CommentId = nat

  datatype Status = Inbox | Todo | InProgress | InReview | Done | Cancelled
  {
    predicate IsTerminal() { Done? || Cancelled? }
  }

  datatype Column =
    | Title | Description | Slug | InProject | StatusOf | Priority
    | CompletedAt | CompletedBy | UpdatedBy | SourceEvent | Body | EditedAt | DeletedAt

  datatype Value = Text(text: string) | Number(number: int) | Flag(status: Status) | Null

  type Columns = map<Column, Value>

  /** One row of a replicated table. Comments sit with the task they belong to. */
  datatype Key =
    | TaskRow(task: TaskId)
    | CommentRow(ofTask: TaskId, comment: CommentId)
    | ProjectRow(project: ProjectId)

  type Rows = map<Key, Columns>

  /** What one event does to one row: write it whole, change columns of a row that exists, delete it, or delete
      it if it holds a slug. */
  datatype Effect = Put(row: Columns) | Edit(patch: Columns) | Drop | DropSlug(slug: string)

  datatype Payload =
    | TaskCreated(task: TaskId, inProject: Option<ProjectId>, row: Columns)
    | TaskUpdated(task: TaskId, patch: Columns)
    | TaskStatusChanged(task: TaskId, status: Status, actor: Value)
    | TaskPriorityChanged(task: TaskId, priority: Value)
    | TaskCompleted(task: TaskId, at: Value, actor: Value)
    | TaskReopened(task: TaskId)
    | TaskClosed(task: TaskId, at: Value)
    | TaskDeleted(task: TaskId)
    | TaskSplitGenerated(parent: TaskId, subtasks: map<TaskId, Columns>)
    | CommentAdded(task: TaskId, comment: CommentId, row: Columns)
    | CommentEdited(task: TaskId, comment: CommentId, patch: Columns)
    | CommentDeleted(task: TaskId, comment: CommentId, at: Value)
    | ProjectCreated(project: ProjectId, slug: string, row: Columns)
    | ProjectUpdated(project: ProjectId, title: Option<Value>, description: Option<Value>)
    | ProjectDeleted(project: ProjectId)
    | PlanTaskAdded(task: TaskId)
    | PlanCreated(project: ProjectId)
    | SessionOpened
  {
    function TargetTask(): Option<TaskId> {
      match this
      case TaskCreated(t, _, _) => Some(t)
      case TaskUpdated(t, _) => Some(t)
      case TaskStatusChanged(t, _, _) => Some(t)
      case TaskPriorityChanged(t, _) => Some(t)
      case TaskCompleted(t, _, _) => Some(t)
      case TaskReopened(t) => Some(t)
      case TaskClosed(t, _) => Some(t)
      case TaskDeleted(t) => Some(t)
      case TaskSplitGenerated(parent, _) => Some(parent)
      case CommentAdded(t, _, _) => Some(t)
      case CommentEdited(t, _, _) => Some(t)
      case CommentDeleted(t, _, _) => Some(t)
      case PlanTaskAdded(t) => Some(t)
      case _ => None
    }

    function TargetProject(): Option<ProjectId> {
      match this
      case TaskCreated(_, p, _) => p
      case ProjectCreated(p, _, _) => Some(p)
      case ProjectUpdated(p, _, _) => Some(p)
      case ProjectDeleted(p) => Some(p)
      case PlanCreated(p) => Some(p)
      case _ => None
    }

    /** The rows the task, comment and project projectors write for this event, whatever the rows hold. */
    function Writes(): map<Key, Effect> {
      match this
      case TaskCreated(t, _, row) => map[TaskRow(t) := Put(row)]
      case TaskUpdated(t, patch) => map[TaskRow(t) := Edit(patch)]
      case TaskStatusChanged(t, status, actor) =>
        var patch := map[StatusOf := Flag(status), UpdatedBy := actor];
        map[TaskRow(t) := Edit(if status.Done? then patch[CompletedBy := actor] else patch)]
      case TaskPriorityChanged(t, p) => map[TaskRow(t) := Edit(map[Priority := p])]
      case TaskCompleted(t, at, actor) =>
        map[TaskRow(t) := Edit(map[StatusOf := Flag(Done), CompletedAt := at, CompletedBy := actor])]
      case TaskReopened(t) => map[TaskRow(t) := Edit(map[CompletedAt := Null])]
      case TaskClosed(t, at) => map[TaskRow(t) := Edit(map[CompletedAt := at])]
      case TaskDeleted(t) => map[TaskRow(t) := Drop]
      case TaskSplitGenerated(_, subtasks) =>
        map key: Key | key in (set s | s in subtasks :: TaskRow(s)) :: Put(subtasks[key.task])
      case CommentAdded(t, c, row) => map[CommentRow(t, c) := Put(row)]
      case CommentEdited(t, c, patch) => map[CommentRow(t, c) := Edit(patch)]
      case CommentDeleted(t, c, at) => map[CommentRow(t, c) := Edit(map[DeletedAt := at])]
      case ProjectCreated(p, slug, row) => map[ProjectRow(p) := Put(row[Slug := Text(slug)])]
      case ProjectUpdated(p, title, description) =>
        map[ProjectRow(p) := Edit((if title.Some? then map[Title := title.value] else map[])
                                  + if description.Some? then map[Description := description.value] else map[])]
      case ProjectDeleted(p) => map[ProjectRow(p) := Drop]
      case _ => map[]
    }

    /** What the event does to one row. Slugs are unique, and a project that is stored replaces another one that
        holds its slug. */
    function EffectOn(key: Key): Option<Effect> {
      if key in Writes() then Some(Writes()[key])
      else if ProjectCreated? && key.ProjectRow? then Some(DropSlug(slug))
      else None
    }
  }

  datatype Event = Event(id: EventId, payload: Payload)

  predicate SameSubject(a: Event, b: Event) {
    || (a.payload.TargetTask().Some? && a.payload.TargetTask() == b.payload.TargetTask())
    || (a.payload.TargetProject().Some? && a.payload.TargetProject() == b.payload.TargetProject())
  }

  function Ids(events: seq<Event>): (ids: set<EventId>)
    ensures forall i :: 0 <= i < |events| ==> events[i].id in ids
  {
    set i | 0 <= i < |events| :: events[i].id
  }

  predicate DistinctIds(events: seq<Event>) {
    forall i, j :: 0 <= i < j < |events| ==> events[i].id != events[j].id
  }

  lemma IdsAppend(events: seq<Event>, e: Event)
    ensures Ids(events + [e]) == Ids(events) + {e.id}
  {
    var longer := events + [e];
    assert longer[|events|] == e;
    forall id ensures id in Ids(longer) <==> id in Ids(events) + {e.id} {
      if id in Ids(events) {
        var i :| 0 <= i < |events| && events[i].id == id;
        assert longer[i].id == id;
      }
    }
  }

  lemma NoIds(events: seq<Event>)
    ensures events == [] ==> Ids(events) == {}
  {
  }

  // ---------------------------------------------------------------- projecting

  function Row(rows: Rows, key: Key): Option<Columns> {
    if key in rows then Some(rows[key]) else None
  }

  function After(row: Option<Columns>, effect: Effect): Option<Columns> {
    match effect
    case Put(new_) => Some(new_)
    case Edit(patch) => if row.Some? then Some(row.value + patch) else None
    case Drop => None
    case DropSlug(slug) => if row.Some? && HasSlug(row.value, slug) then None else row
  }

  predicate HasSlug(row: Columns, slug: string) { Slug in row && row[Slug] == Text(slug) }

  function AfterEvent(row: Option<Columns>, event: Event, key: Key): Option<Columns> {
    var effect := event.payload.EffectOn(key);
    if effect.Some? then After(row, effect.value) else row
  }

  /** Run every projector over one event. */
  function Apply(rows: Rows, event: Event): Rows {
    map key | key in rows.Keys + event.payload.Writes().Keys && AfterEvent(Row(rows, key), event, key).Some? ::
      AfterEvent(Row(rows, key), event, key).value
  }

  lemma ApplyRow(rows: Rows, event: Event, key: Key)
    ensures Row(Apply(rows, event), key) == AfterEvent(Row(rows, key), event, key)
  {
  }

  /** The rows a plain replay of `events` from nothing gives. */
  function Fold(events: seq<Event>): Rows {
    if events == [] then map[] else Apply(Fold(events[..|events| - 1]), events[|events| - 1])
  }

  lemma FoldAppend(events: seq<Event>, event: Event)
    ensures Fold(events + [event]) == Apply(Fold(events), event)
  {
    assert (events + [event])[..|events|] == events;
  }

  /** One row after a replay, without the rest of the tables. */
  function RowAfter(events: seq<Event>, key: Key): Option<Columns> {
    if events == [] then None
    else AfterEvent(RowAfter(events[..|events| - 1], key), events[|events| - 1], key)
  }

  lemma {:induction false} FoldIsRowwise(events: seq<Event>, key: Key)
    ensures Row(Fold(events), key) == RowAfter(events, key)
  {
    if events != [] {
      FoldIsRowwise(events[..|events| - 1], key);
      ApplyRow(Fold(events[..|events| - 1]), events[|events| - 1], key);
    }
  }

  lemma RowsEqual(a: Rows, b: Rows)
    requires forall key :: Row(a, key) == Row(b, key)
    ensures a == b
  {
    assert a.Keys == b.Keys by {
      forall key ensures key in a <==> key in b {
        assert Row(a, key) == Row(b, key);
      }
    }
    forall key | key in a ensures a[key] == b[key] {
      assert Row(a, key) == Row(b, key);
    }
  }

  // ------------------------------------------- which events can change each other

  predicate Owns(event: Event, key: Key) {
    match key
    case TaskRow(t) => event.payload.TargetTask() == Some(t)
    case CommentRow(t, _) => event.payload.TargetTask() == Some(t)
    case ProjectRow(p) => event.payload.TargetProject() == Some(p)
  }

  /** Every row the event writes belongs to the task or project the event names. */
  predicate Keyed(event: Event) {
    forall key :: key in event.payload.Writes() ==> Owns(event, key)
  }

  ghost predicate Commute(a: Event, b: Event) {
    forall rows: Rows :: Apply(Apply(rows, a), b) == Apply(Apply(rows, b), a)
  }

  ghost predicate CommuteOn(a: Event, b: Event, key: Key) {
    forall row: Option<Columns> :: AfterEvent(AfterEvent(row, a, key), b, key) == AfterEvent(AfterEvent(row, b, key), a, key)
  }

  /** There is a row that keeps the outcome of whichever of the two ran last. */
  ghost predicate Clash(a: Event, b: Event) { exists key :: !CommuteOn(a, b, key) }

  lemma ClashIffNotCommute(a: Event, b: Event)
    ensures Clash(a, b) <==> !Commute(a, b)
  {
    if !Clash(a, b) {
      forall rows: Rows ensures Apply(Apply(rows, a), b) == Apply(Apply(rows, b), a) {
        forall key ensures Row(Apply(Apply(rows, a), b), key) == Row(Apply(Apply(rows, b), a), key) {
          BothOrders(rows, a, b, key);
          assert CommuteOn(a, b, key);
        }
        RowsEqual(Apply(Apply(rows, a), b), Apply(Apply(rows, b), a));
      }
    } else {
      var key :| !CommuteOn(a, b, key);
      var row :| AfterEvent(AfterEvent(row, a, key), b, key) != AfterEvent(AfterEvent(row, b, key), a, key);
      var rows: Rows := if row.Some? then map[key := row.value] else map[];
      assert Row(rows, key) == row;
      BothOrders(rows, a, b, key);
      assert Apply(Apply(rows, a), b) != Apply(Apply(rows, b), a);
    }
  }

  lemma BothOrders(rows: Rows, a: Event, b: Event, key: Key)
    ensures Row(Apply(Apply(rows, a), b), key) == AfterEvent(AfterEvent(Row(rows, key), a, key), b, key)
    ensures Row(Apply(Apply(rows, b), a), key) == AfterEvent(AfterEvent(Row(rows, key), b, key), a, key)
  {
    hide AfterEvent, Apply, Row;
    ApplyRow(rows, a, key);
    ApplyRow(rows, b, key);
    ApplyRow(Apply(rows, a), b, key);
    ApplyRow(Apply(rows, b), a, key);
  }

  /** Two projects of one slug, which cannot both be stored. */
  predicate SlugTaken(a: Event, b: Event) {
    && a.payload.ProjectCreated? && b.payload.ProjectCreated?
    && a.payload.project != b.payload.project && a.payload.slug == b.payload.slug
  }

  /** Of two events that `same_subject` does not relate, well keyed both, only creates of one slug clash. */
  lemma UnrelatedClashIffSlugTaken(a: Event, b: Event)
    requires Keyed(a) && Keyed(b) && !SameSubject(a, b)
    ensures Clash(a, b) <==> SlugTaken(a, b)
  {
    if SlugTaken(a, b) {
      var key := ProjectRow(a.payload.project);
      assert AfterEvent(AfterEvent(None, a, key), b, key) == None;
      assert AfterEvent(AfterEvent(None, b, key), a, key).Some?;
      assert !CommuteOn(a, b, key);
    } else {
      forall key ensures CommuteOn(a, b, key) {
        UnrelatedCommuteOn(a, b, key);
      }
    }
  }

  lemma UnrelatedCommuteOn(a: Event, b: Event, key: Key)
    requires Keyed(a) && Keyed(b) && !SameSubject(a, b) && !SlugTaken(a, b)
    ensures CommuteOn(a, b, key)
  {
    assert !(Owns(a, key) && Owns(b, key));
    assert key !in a.payload.Writes() || key !in b.payload.Writes();
    var x, y := a.payload.EffectOn(key), b.payload.EffectOn(key);
    if x.Some? && y.Some? {
      if x.value.DropSlug? {
        SlugMissed(b, key, x.value.slug);
        DropSlugCommutes(x.value.slug, y.value);
      } else {
        SlugMissed(a, key, y.value.slug);
        DropSlugCommutes(y.value.slug, x.value);
      }
    }
  }

  /** An effect that neither gives a row this slug nor takes one away. */
  predicate LeavesSlug(effect: Effect, slug: string) {
    match effect
    case Put(row) => !HasSlug(row, slug)
    case Edit(patch) => Slug !in patch
    case _ => true
  }

  lemma DropSlugCommutes(slug: string, effect: Effect)
    requires LeavesSlug(effect, slug)
    ensures forall row: Option<Columns> :: After(After(row, DropSlug(slug)), effect) == After(After(row, effect), DropSlug(slug))
  {
  }

  lemma SlugMissed(event: Event, key: Key, slug: string)
    requires key.ProjectRow? && event.payload.EffectOn(key).Some?
    requires event.payload.ProjectCreated? && event.payload.slug == slug ==> event.payload.project != key.project
    ensures LeavesSlug(event.payload.EffectOn(key).value, slug)
  {
  }

  /** No edit of a project row touches its slug. */
  lemma ProjectEdits(event: Event, key: Key)
    requires key.ProjectRow?
    ensures var effect := event.payload.EffectOn(key);
            effect.Some? && effect.value.Edit? ==> Slug !in effect.value.patch
  {
  }

  /** The event whose rows are not all its own. */
  lemma UnkeyedIsSplit(event: Event, key: Key)
    requires key in event.payload.Writes() && !Owns(event, key)
    ensures event.payload.TaskSplitGenerated? && key.TaskRow?
    ensures event.payload.Writes()[key].Put?
  {
  }

  /** `same_subject` claims that only events it relates can change each other's outcome. For one event against
      every well-keyed other that holds, except for two kinds: the split, which writes its subtasks' rows under
      the parent's name, and the create of a project, which replaces any other project of its slug. */
  lemma SubjectsDecideOutcome(event: Event)
    ensures (forall other: Event :: Keyed(other) && !SameSubject(event, other) ==> Commute(event, other))
            <==> Keyed(event) && !event.payload.ProjectCreated?
  {
    hide Commute, Clash;
    if !Keyed(event) {
      SplitClashes(event);
    } else if event.payload.ProjectCreated? {
      CreateClashes(event);
    } else {
      forall other: Event | Keyed(other) && !SameSubject(event, other) ensures Commute(event, other) {
        UnrelatedClashIffSlugTaken(event, other);
        ClashIffNotCommute(event, other);
      }
    }
  }

  lemma SplitClashes(event: Event)
    requires !Keyed(event)
    ensures exists other: Event :: Keyed(other) && !SameSubject(event, other) && !Commute(event, other)
  {
    var key :| key in event.payload.Writes() && !Owns(event, key);
    UnkeyedIsSplit(event, key);
    var other := Event(0, TaskDeleted(key.task));
    assert Keyed(other) && !SameSubject(event, other);
    assert AfterEvent(AfterEvent(None, event, key), other, key) == None;
    assert AfterEvent(AfterEvent(None, other, key), event, key).Some?;
    assert !CommuteOn(event, other, key);
    ClashIffNotCommute(event, other);
  }

  lemma CreateClashes(event: Event)
    requires event.payload.ProjectCreated?
    ensures exists other: Event :: Keyed(other) && !SameSubject(event, other) && !Commute(event, other)
  {
    var other := Event(0, ProjectCreated(event.payload.project + 1, event.payload.slug, map[]));
    assert Keyed(other) && !SameSubject(event, other) && SlugTaken(event, other);
    UnrelatedClashIffSlugTaken(event, other);
    ClashIffNotCommute(event, other);
  }
}

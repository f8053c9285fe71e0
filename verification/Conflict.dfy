/** Which of two conflicting records wins when devices merge. */
module Conflict {
  import opened Events

  datatype ConflictOp = Create | Update | Delete | SetStatus(status: Status)
  {
    predicate IsDelete() { Delete? }

    predicate IsDoneStatus() { SetStatus? && status.Done? }
  }

  datatype ConflictRecord = ConflictRecord(id: EventId, occurredAt: int, op: ConflictOp, diff: string)

  datatype ConflictReason = DeleteWins | DoneMonotone | LastWriteWins

  datatype Decision = Decision(winner: ConflictRecord, loser: ConflictRecord, reason: ConflictReason)

  datatype Ordering = Less | Equal | Greater

  function Compare(a: int, b: int): Ordering { if a < b then Less else if a == b then Equal else Greater }

  function CompareLww(a: ConflictRecord, b: ConflictRecord): Ordering {
    match Compare(a.occurredAt, b.occurredAt)
    case Equal => Compare(a.id, b.id)
    case ord => ord
  }

  function ResolveConflict(a: ConflictRecord, b: ConflictRecord): Decision {
    if a.op.IsDelete() != b.op.IsDelete() then
      if a.op.IsDelete() then Decision(a, b, DeleteWins) else Decision(b, a, DeleteWins)
    else if a.op.IsDoneStatus() != b.op.IsDoneStatus() then
      if a.op.IsDoneStatus() then Decision(a, b, DoneMonotone) else Decision(b, a, DoneMonotone)
    else if CompareLww(a, b) != Less then Decision(a, b, LastWriteWins)
    else Decision(b, a, LastWriteWins)
  }

  // ------------------------------------------------------------------------- the order

  /** Deletion outranks completion, which outranks anything later, which outranks the greater id. */
  datatype Rank = Rank(deleted: nat, done: nat, at: int, id: EventId)
  {
    predicate Above(other: Rank) {
      || deleted > other.deleted
      || (deleted == other.deleted && done > other.done)
      || (deleted == other.deleted && done == other.done && at > other.at)
      || (deleted == other.deleted && done == other.done && at == other.at && id > other.id)
    }
  }

  function RankOf(r: ConflictRecord): Rank {
    Rank(if r.op == Delete then 1 else 0, if r.op == SetStatus(Done) then 1 else 0, r.occurredAt, r.id)
  }

  /** The winner is the one of higher rank, and of two of one rank the first. */
  lemma WinnerOutranks(a: ConflictRecord, b: ConflictRecord)
    ensures var d := ResolveConflict(a, b);
            && (d.winner == if RankOf(b).Above(RankOf(a)) then b else a)
            && (d.loser == if RankOf(b).Above(RankOf(a)) then a else b)
            && (d.reason.DeleteWins? <==> (a.op == Delete) != (b.op == Delete))
            && (d.reason.DoneMonotone? <==> (a.op == Delete) == (b.op == Delete) && (a.op == SetStatus(Done)) != (b.op == SetStatus(Done)))
    ensures || (a.op == Delete && b.op != Delete)
            || ((a.op == Delete <==> b.op == Delete) && a.op == SetStatus(Done) && b.op != SetStatus(Done))
            || ((a.op == Delete <==> b.op == Delete) && (a.op == SetStatus(Done) <==> b.op == SetStatus(Done))
                && (a.occurredAt > b.occurredAt || (a.occurredAt == b.occurredAt && a.id > b.id)))
            ==> ResolveConflict(a, b).winner == a && ResolveConflict(b, a).winner == a
  {
  }

  lemma RankIsStrictOrder(a: Rank, b: Rank, c: Rank)
    ensures !(a.Above(b) && b.Above(a))
    ensures a.Above(b) && b.Above(c) ==> a.Above(c)
    ensures a.Above(b) || b.Above(a) || a == b
  {
  }

  /** It matters which record comes first only between two of one rank, which then share their id. */
  lemma SymmetricIff(a: ConflictRecord, b: ConflictRecord)
    ensures ResolveConflict(a, b).winner == ResolveConflict(b, a).winner <==> RankOf(a) != RankOf(b) || a == b
  {
    WinnerOutranks(a, b);
    WinnerOutranks(b, a);
    RankIsStrictOrder(RankOf(a), RankOf(b), RankOf(a));
  }

  // ------------------------------------------------------------------------- many records

  /** Records merged two at a time, in any grouping. */
  datatype Merge = Leaf(record: ConflictRecord) | Merged(left: Merge, right: Merge)
  {
    function Records(): set<ConflictRecord> {
      match this
      case Leaf(r) => {r}
      case Merged(l, r) => l.Records() + r.Records()
    }

    function Winner(): ConflictRecord {
      match this
      case Leaf(r) => r
      case Merged(l, r) => ResolveConflict(l.Winner(), r.Winner()).winner
    }
  }

  /** Whoever wins is one of the records, and none of them outranks it. */
  lemma {:induction false} WinnerIsHighest(m: Merge)
    ensures m.Winner() in m.Records()
    ensures forall r :: r in m.Records() ==> !RankOf(r).Above(RankOf(m.Winner()))
  {
    match m
    case Leaf(_) =>
    case Merged(left, right) =>
      WinnerIsHighest(left);
      WinnerIsHighest(right);
      var a, b := left.Winner(), right.Winner();
      WinnerOutranks(a, b);
      forall r | r in m.Records() ensures !RankOf(r).Above(RankOf(m.Winner())) {
        RankIsStrictOrder(RankOf(r), RankOf(a), RankOf(b));
        RankIsStrictOrder(RankOf(r), RankOf(b), RankOf(a));
        RankIsStrictOrder(RankOf(b), RankOf(r), RankOf(a));
      }
  }

  predicate IdsTellApart(records: set<ConflictRecord>) {
    forall a, b :: a in records && b in records && a.id == b.id ==> a == b
  }

  /** Merging the same records gives the same winner, in whatever order and however they are paired. */
  lemma MergeOrderDoesNotMatter(m: Merge, n: Merge)
    requires m.Records() == n.Records() && IdsTellApart(m.Records())
    ensures m.Winner() == n.Winner()
  {
    WinnerIsHighest(m);
    WinnerIsHighest(n);
    RankIsStrictOrder(RankOf(m.Winner()), RankOf(n.Winner()), RankOf(m.Winner()));
  }
}

/** Where plans come from: sources, each with at most one other source it was drawn from. */
module Sources {
  import opened Events
  import opened Chains

  const SOURCE_CHAIN_MAX := 32

  datatype SourceNode = SourceNode(
    ref: Node, title: Option<string>, occurredAt: Option<string>, note: Option<string>, upstream: Option<Node>,
    created: nat)
  {
    /** What is set stays and what is not is taken over; two different links above cannot be merged. */
    function FillFrom(incoming: SourceNode): (r: Option<SourceNode>)
      ensures r.None? <==> upstream.Some? && incoming.upstream.Some? && upstream != incoming.upstream
    {
      if upstream.Some? && incoming.upstream.Some? && upstream != incoming.upstream then None
      else Some(Coalesce(this, incoming))
    }
  }

  function Or<T>(a: Option<T>, b: Option<T>): Option<T> { if a.Some? then a else b }

  function Coalesce(have: SourceNode, incoming: SourceNode): SourceNode {
    have.(title := Or(have.title, incoming.title), occurredAt := Or(have.occurredAt, incoming.occurredAt),
          note := Or(have.note, incoming.note), upstream := Or(have.upstream, incoming.upstream))
  }

  type Table = map<Node, SourceNode>

  predicate Keyed(table: Table) { forall r :: r in table ==> table[r].ref == r }

  /** The projector: insert, or fill what is empty. */
  function Upsert(table: Table, node: SourceNode): Table {
    table[node.ref := if node.ref in table then Coalesce(table[node.ref], node) else node]
  }

  function UpsertAll(table: Table, nodes: seq<SourceNode>): Table {
    if nodes == [] then table else Upsert(UpsertAll(table, nodes[..|nodes| - 1]), nodes[|nodes| - 1])
  }

  function Above(table: Table): Ups { map r | r in table && table[r].upstream.Some? :: table[r].upstream.value }

  /** Each node linked to the next. */
  function Chained(nodes: seq<SourceNode>): (r: seq<SourceNode>)
    ensures |r| == |nodes|
    ensures forall i :: 0 <= i < |nodes| ==>
              r[i] == if i + 1 < |nodes| then nodes[i].(upstream := Some(nodes[i + 1].ref)) else nodes[i]
  {
    seq(|nodes|, i requires 0 <= i < |nodes| =>
      if i + 1 < |nodes| then nodes[i].(upstream := Some(nodes[i + 1].ref)) else nodes[i])
  }

  // -------------------------------------------------------------------- one node's turn

  /** What a node leaves in the table, and whether the link it has above was kept against a new one; no result
      where that is refused. */
  datatype Turn = Turn(next: SourceNode, kept: bool)

  function TurnOf(table: Table, node: SourceNode, keepExisting: bool): Option<Turn> {
    if node.ref !in table then Some(Turn(node, false))
    else
      var stored := table[node.ref];
      match stored.FillFrom(node)
      case Some(next) => Some(Turn(next, false))
      case None => if keepExisting then Some(Turn(Coalesce(stored, node.(upstream := stored.upstream)), true)) else None
  }

  /** No link that is set changes. */
  predicate LinksKept(before: Table, after: Table) {
    forall r :: r in Above(before) ==> r in Above(after) && Above(after)[r] == Above(before)[r]
  }

  lemma TurnFills(table: Table, node: SourceNode, keepExisting: bool)
    requires Keyed(table) && TurnOf(table, node, keepExisting).Some?
    ensures var turn := TurnOf(table, node, keepExisting).value;
            && turn.next.ref == node.ref
            && Upsert(table, turn.next) == table[node.ref := turn.next]
            && (node.ref !in table ==> turn.next == node && !turn.kept)
            && (node.ref in table ==>
                  && turn.next.title == (if table[node.ref].title.Some? then table[node.ref].title else node.title)
                  && turn.next.occurredAt == (if table[node.ref].occurredAt.Some? then table[node.ref].occurredAt else node.occurredAt)
                  && turn.next.note == (if table[node.ref].note.Some? then table[node.ref].note else node.note)
                  && turn.next.upstream == (if table[node.ref].upstream.Some? then table[node.ref].upstream else node.upstream)
                  && turn.next.created == table[node.ref].created)
            && Keyed(Upsert(table, turn.next)) && LinksKept(table, Upsert(table, turn.next))
            && (node.ref in table && turn.next == table[node.ref] ==> Upsert(table, turn.next) == table)
            && (turn.kept ==> Above(Upsert(table, turn.next)) == Above(table))
            && (!turn.kept && node.upstream.Some? ==> Above(Upsert(table, turn.next)) == Above(table)[node.ref := node.upstream.value])
            && (!turn.kept && node.upstream.None? ==> Above(Upsert(table, turn.next)) == Above(table))
  {
  }

  // --------------------------------------------------------- what a chain comes to, plainly

  /** Node `i` is given a link that differs from the one stored for it, or given it earlier in the chain. */
  predicate Differs(table: Table, chain: seq<SourceNode>, i: nat)
    requires i < |chain|
  {
    && chain[i].upstream.Some?
    && (|| (chain[i].ref in table && table[chain[i].ref].upstream.Some? && table[chain[i].ref].upstream != chain[i].upstream)
        || (exists j :: 0 <= j < i && chain[j].ref == chain[i].ref && chain[j].upstream.Some? && chain[j].upstream != chain[i].upstream))
  }

  /** The first node from `i` on whose link differs; the end if none does. */
  function FirstDiffering(table: Table, chain: seq<SourceNode>, i: nat): (k: nat)
    requires i <= |chain|
    ensures i <= k <= |chain| && (k < |chain| ==> Differs(table, chain, k))
    ensures forall j :: i <= j < k ==> !Differs(table, chain, j)
    decreases |chain| - i
  {
    if i == |chain| || Differs(table, chain, i) then i else FirstDiffering(table, chain, i + 1)
  }

  /** Whatever was stored and set is still. */
  predicate Kept(before: Table, now: Table) {
    forall r :: r in before ==> r in now && StillSet(before[r], now[r])
  }

  predicate StillSet(a: SourceNode, b: SourceNode) {
    && b.ref == a.ref && b.created == a.created
    && (a.title.Some? ==> b.title == a.title) && (a.occurredAt.Some? ==> b.occurredAt == a.occurredAt)
    && (a.note.Some? ==> b.note == a.note) && (a.upstream.Some? ==> b.upstream == a.upstream)
  }

  /** A source that is not among the first `m` of the chain is as it was. */
  ghost predicate RestUntouched(before: Table, now: Table, chain: seq<SourceNode>, m: nat)
    requires m <= |chain|
  {
    forall r :: (forall i :: 0 <= i < m ==> chain[i].ref != r) ==> (r in now <==> r in before) && (r in before ==> now[r] == before[r])
  }

  /** The first `m` nodes are stored, and have whatever they were given, the last `m - linked` but for their links. */
  predicate Stored(now: Table, chain: seq<SourceNode>, m: nat, linked: nat)
    requires m <= |chain|
  {
    forall i :: 0 <= i < m ==> chain[i].ref in now && Has(now[chain[i].ref], chain[i], i < linked)
  }

  predicate Has(stored: SourceNode, node: SourceNode, linked: bool) {
    && (node.title.Some? ==> stored.title.Some?) && (node.occurredAt.Some? ==> stored.occurredAt.Some?)
    && (node.note.Some? ==> stored.note.Some?) && (linked && node.upstream.Some? ==> stored.upstream == node.upstream)
  }

  /** Every link was there or is one the first `n` nodes were given. */
  predicate LinksGiven(before: Table, now: Table, chain: seq<SourceNode>, n: nat)
    requires n <= |chain|
  {
    forall r :: r in now && now[r].upstream.Some? ==>
      || (r in before && before[r].upstream == now[r].upstream)
      || (exists i :: 0 <= i < n && chain[i].ref == r && chain[i].upstream == now[r].upstream)
  }

  /** The first `m` nodes were taken, the last of them keeping a link of its own if `kept`. */
  ghost predicate Took(before: Table, now: Table, chain: seq<SourceNode>, m: nat, kept: bool)
    requires m <= |chain| && (kept ==> m > 0)
  {
    var linked := if kept then m - 1 else m;
    && Kept(before, now) && RestUntouched(before, now, chain, m)
    && Stored(now, chain, m, linked) && LinksGiven(before, now, chain, linked)
  }

  /** A node's turn is refused, or its link kept, exactly when the link it is given differs. */
  lemma TurnDiffers(table: Table, now: Table, chain: seq<SourceNode>, i: nat, keepExisting: bool)
    requires i < |chain| && Took(table, now, chain, i, false)
    ensures match TurnOf(now, chain[i], keepExisting)
            case None => !keepExisting && Differs(table, chain, i)
            case Some(turn) =>
              && (turn.kept <==> Differs(table, chain, i)) && (turn.kept ==> keepExisting)
              && (turn.kept ==> turn.next.upstream.Some? && turn.next.upstream == now[chain[i].ref].upstream != chain[i].upstream)
  {
    hide RestUntouched;
    var node := chain[i];
    if node.upstream.Some? && node.ref in now && now[node.ref].upstream.Some? && now[node.ref].upstream != node.upstream {
      assert Differs(table, chain, i);
    }
    if Differs(table, chain, i) {
      assert node.ref in now && now[node.ref].upstream.Some? && now[node.ref].upstream != node.upstream;
    }
  }

  lemma TookOn(table: Table, now: Table, chain: seq<SourceNode>, i: nat, keepExisting: bool)
    requires Keyed(now) && i < |chain| && Took(table, now, chain, i, false) && TurnOf(now, chain[i], keepExisting).Some?
    ensures var turn := TurnOf(now, chain[i], keepExisting).value;
            Took(table, Upsert(now, turn.next), chain, i + 1, turn.kept)
  {
    var turn, node := TurnOf(now, chain[i], keepExisting).value, chain[i];
    TurnDiffers(table, now, chain, i, keepExisting);
    TurnFills(now, node, keepExisting);
    TurnHas(now, node, keepExisting);
    hide Upsert, TurnOf;
    var later := Upsert(now, turn.next);
    TookRows(table, now, later, chain, i, turn.next);
    TookLinks(table, now, later, chain, i, turn.next, turn.kept);
  }

  lemma TurnHas(now: Table, node: SourceNode, keepExisting: bool)
    requires Keyed(now) && TurnOf(now, node, keepExisting).Some?
    ensures var turn := TurnOf(now, node, keepExisting).value;
            && Has(turn.next, node, !turn.kept)
            && (node.ref in now ==> StillSet(now[node.ref], turn.next))
            && (turn.next.upstream.Some? ==> (node.ref in now && now[node.ref].upstream == turn.next.upstream)
                                             || (!turn.kept && node.upstream == turn.next.upstream))
  {
  }

  /** What taking a chain leaves: nodes up to the first whose link differs, that one with the link it had, and
      nothing else. It is refused exactly when such a link is not to be kept. */
  lemma {:induction false} TakenIs(table: Table, now: Table, chain: seq<SourceNode>, i: nat, keepExisting: bool)
    requires Keyed(now) && i <= |chain| && Took(table, now, chain, i, false)
    ensures var k := FirstDiffering(table, chain, i);
            match Taken(now, chain, i, keepExisting)
            case None => !keepExisting && k < |chain|
            case Some(events) =>
              && (k < |chain| ==> keepExisting) && Keyed(UpsertAll(now, events))
              && Took(table, UpsertAll(now, events), chain, if k < |chain| then k + 1 else k, k < |chain|)
    decreases |chain| - i
  {
    hide Took, Differs, TurnOf, Upsert, Keyed;
    if i < |chain| {
      TurnDiffers(table, now, chain, i, keepExisting);
      var turn := TurnOf(now, chain[i], keepExisting);
      if turn.Some? {
        var later := Upsert(now, turn.value.next);
        var event := if chain[i].ref in now && now[chain[i].ref] == turn.value.next then [] else [turn.value.next];
        TookOn(table, now, chain, i, keepExisting);
        TurnFills(now, chain[i], keepExisting);
        OneEvent(now, event);
        if !turn.value.kept {
          TakenIs(table, later, chain, i + 1, keepExisting);
          var rest := Taken(later, chain, i + 1, keepExisting);
          if rest.Some? {
            UpsertInTurn(now, event, rest.value);
          }
        }
      }
    }
  }

  /** Linking a chain again that is stored already changes nothing and stores no event. */
  lemma RelinkingIsNothing(table: Table, chain: seq<SourceNode>, keepExisting: bool)
    requires Keyed(table) && Taken(table, chain, 0, keepExisting).Some?
    ensures Taken(UpsertAll(table, Taken(table, chain, 0, keepExisting).value), chain, 0, keepExisting) == Some([])
  {
    hide Took, Differs, Taken, UpsertAll, Keyed;
    TookNothing(table, chain);
    TakenIs(table, table, chain, 0, keepExisting);
    var k, after := FirstDiffering(table, chain, 0), UpsertAll(table, Taken(table, chain, 0, keepExisting).value);
    AllThere(table, after, chain, k, keepExisting, 0);
  }

  lemma TookNothing(table: Table, chain: seq<SourceNode>)
    ensures Took(table, table, chain, 0, false)
  {
  }

  lemma {:induction false} AllThere(table: Table, after: Table, chain: seq<SourceNode>, k: nat, keepExisting: bool, i: nat)
    requires i <= k <= |chain| && (k < |chain| ==> keepExisting && Differs(table, chain, k))
    requires Keyed(after) && Took(table, after, chain, if k < |chain| then k + 1 else k, k < |chain|)
    ensures Taken(after, chain, i, keepExisting) == Some([])
    decreases k - i
  {
    hide Took, Differs, TurnOf, Upsert;
    if i < k {
      ThereAlready(table, after, chain, k, keepExisting, i);
      AllThere(table, after, chain, k, keepExisting, i + 1);
      assert [] + Taken(after, chain, i + 1, keepExisting).value == [];
    } else if i < |chain| {
      ThereAlready(table, after, chain, k, keepExisting, i);
    }
  }

  lemma ThereAlready(table: Table, after: Table, chain: seq<SourceNode>, k: nat, keepExisting: bool, i: nat)
    requires i <= k <= |chain| && i < |chain| && (k < |chain| ==> keepExisting && Differs(table, chain, k))
    requires Keyed(after) && Took(table, after, chain, if k < |chain| then k + 1 else k, k < |chain|)
    ensures chain[i].ref in after && Upsert(after, after[chain[i].ref]) == after
    ensures TurnOf(after, chain[i], keepExisting) == Some(Turn(after[chain[i].ref], i == k))
  {
    hide RestUntouched, LinksGiven;
  }

  lemma TookRows(table: Table, now: Table, later: Table, chain: seq<SourceNode>, i: nat, next: SourceNode)
    requires i < |chain| && Kept(table, now) && RestUntouched(table, now, chain, i)
    requires later == now[chain[i].ref := next] && (chain[i].ref in now ==> StillSet(now[chain[i].ref], next))
    ensures Kept(table, later) && RestUntouched(table, later, chain, i + 1)
  {
    forall r | forall j :: 0 <= j < i + 1 ==> chain[j].ref != r
      ensures (r in later <==> r in table) && (r in table ==> later[r] == table[r])
    {
      assert chain[i].ref != r;
    }
  }

  lemma TookLinks(table: Table, now: Table, later: Table, chain: seq<SourceNode>, i: nat, next: SourceNode, kept: bool)
    requires i < |chain| && Stored(now, chain, i, i) && LinksGiven(table, now, chain, i)
    requires later == now[chain[i].ref := next] && (chain[i].ref in now ==> StillSet(now[chain[i].ref], next))
    requires Has(next, chain[i], !kept)
    requires next.upstream.Some? ==> (chain[i].ref in now && now[chain[i].ref].upstream == next.upstream)
                                     || (!kept && chain[i].upstream == next.upstream)
    ensures var linked := if kept then i else i + 1;
            Stored(later, chain, i + 1, linked) && LinksGiven(table, later, chain, linked)
  {
  }

  // ----------------------------------------------------------------------- the whole chain

  /** What taking nodes `i..` in turn adds: the nodes to store, or none where a link would be rewritten. */
  function Taken(table: Table, chain: seq<SourceNode>, i: nat, keepExisting: bool): Option<seq<SourceNode>>
    requires i <= |chain|
    decreases |chain| - i
  {
    if i == |chain| then Some([])
    else
      match TurnOf(table, chain[i], keepExisting)
      case None => None
      case Some(turn) =>
        var event := if chain[i].ref in table && table[chain[i].ref] == turn.next then [] else [turn.next];
        if turn.kept then Some(event)
        else
          match Taken(Upsert(table, turn.next), chain, i + 1, keepExisting)
          case None => None
          case Some(rest) => Some(event + rest)
  }

  lemma {:induction false} UpsertInTurn(table: Table, a: seq<SourceNode>, b: seq<SourceNode>)
    ensures UpsertAll(table, a + b) == UpsertAll(UpsertAll(table, a), b)
  {
    if b == [] {
      assert a + b == a;
    } else {
      assert (a + b)[..|a + b| - 1] == a + b[..|b| - 1];
      UpsertInTurn(table, a, b[..|b| - 1]);
    }
  }

  /** Every link that is new is on the chain of the first node. */
  ghost predicate NewOnChain(before: Ups, now: Ups, first: Node) {
    forall n :: n in now && !(n in before && before[n] == now[n]) ==> exists j: nat :: Meets(now, first, n, j)
  }

  ghost predicate Staging(before: Table, now: Table, chain: seq<SourceNode>, i: nat)
    requires |chain| > 0
  {
    && Keyed(now) && LinksKept(before, now) && NewOnChain(Above(before), Above(now), chain[0].ref)
    && (i < |chain| ==> Meets(Above(now), chain[0].ref, chain[i].ref, i))
  }

  predicate IsChained(chain: seq<SourceNode>) {
    forall i :: 0 <= i < |chain| - 1 ==> chain[i].upstream == Some(chain[i + 1].ref)
  }

  lemma StagingOn(before: Table, now: Table, chain: seq<SourceNode>, i: nat, keepExisting: bool)
    requires IsChained(chain) && i < |chain| && Staging(before, now, chain, i)
    requires TurnOf(now, chain[i], keepExisting).Some?
    ensures var turn := TurnOf(now, chain[i], keepExisting).value;
            Staging(before, Upsert(now, turn.next), chain, if turn.kept then |chain| else i + 1)
  {
    var turn, first, r := TurnOf(now, chain[i], keepExisting).value, chain[0].ref, chain[i].ref;
    var later := Upsert(now, turn.next);
    hide Upsert, TurnOf, Keyed, Above, LinksKept, NewOnChain;
    TurnLinks(now, chain[i], keepExisting);
    LinksKeptTwice(before, now, later);
    NewLinkOnChain(Above(before), Above(now), Above(later), first, r, i);
    assert !turn.kept && i + 1 < |chain| ==> Meets(Above(later), first, chain[i + 1].ref, i + 1);
  }

  lemma TurnLinks(now: Table, node: SourceNode, keepExisting: bool)
    requires Keyed(now) && TurnOf(now, node, keepExisting).Some?
    ensures var turn, ups := TurnOf(now, node, keepExisting).value, Above(now);
            var later := Upsert(now, turn.next);
            && Keyed(later) && LinksKept(now, later)
            && (forall n :: n in ups ==> n in Above(later) && Above(later)[n] == ups[n])
            && (forall n :: n in Above(later) ==> n in ups || n == node.ref)
            && (!turn.kept && node.upstream.Some? ==> node.ref in Above(later) && Above(later)[node.ref] == node.upstream.value)
  {
    TurnFills(now, node, keepExisting);
    hide TurnOf, Upsert, Keyed, Above;
  }

  lemma LinksKeptTwice(a: Table, b: Table, c: Table)
    requires LinksKept(a, b) && LinksKept(b, c)
    ensures LinksKept(a, c)
  {
    hide Above;
  }

  lemma NewLinkOnChain(before: Ups, ups: Ups, more: Ups, first: Node, r: Node, i: nat)
    requires NewOnChain(before, ups, first) && Meets(ups, first, r, i)
    requires forall n :: n in ups ==> n in more && more[n] == ups[n]
    requires forall n :: n in more ==> n in ups || n == r
    ensures NewOnChain(before, more, first) && Meets(more, first, r, i)
  {
    LongerWalk(ups, more, first, i);
    forall n | n in more && !(n in before && before[n] == more[n]) ensures exists j: nat :: Meets(more, first, n, j) {
      if n == r {
        assert Meets(more, first, n, i);
      } else {
        var j: nat :| Meets(ups, first, n, j);
        LongerWalk(ups, more, first, j);
        assert Meets(more, first, n, j);
      }
    }
  }

  /** Taking a chain in turn keeps every link there was, and puts each new one on the chain of its first node. */
  lemma {:induction false} TakenStaging(before: Table, now: Table, chain: seq<SourceNode>, i: nat, keepExisting: bool)
    requires IsChained(chain) && |chain| > 0 && i <= |chain| && Staging(before, now, chain, i)
    requires Taken(now, chain, i, keepExisting).Some?
    ensures Staging(before, UpsertAll(now, Taken(now, chain, i, keepExisting).value), chain, |chain|)
    decreases |chain| - i
  {
    hide Staging, TurnOf, Keyed, LinksKept, Above, Upsert, IsChained;
    if i < |chain| {
      var turn := TurnOf(now, chain[i], keepExisting).value;
      var later := Upsert(now, turn.next);
      StagingOn(before, now, chain, i, keepExisting);
      EventOf(before, now, chain, i, keepExisting);
      if !turn.kept {
        TakenStaging(before, later, chain, i + 1, keepExisting);
        var event := if chain[i].ref in now && now[chain[i].ref] == turn.next then [] else [turn.next];
        UpsertInTurn(now, event, Taken(later, chain, i + 1, keepExisting).value);
      }
    }
  }

  /** A node that is stored already as it would be needs no event. */
  lemma EventOf(before: Table, now: Table, chain: seq<SourceNode>, i: nat, keepExisting: bool)
    requires i < |chain| && |chain| > 0 && Staging(before, now, chain, i) && TurnOf(now, chain[i], keepExisting).Some?
    ensures var turn := TurnOf(now, chain[i], keepExisting).value;
            UpsertAll(now, if chain[i].ref in now && now[chain[i].ref] == turn.next then [] else [turn.next]) == Upsert(now, turn.next)
  {
    TurnFills(now, chain[i], keepExisting);
    hide Upsert, TurnOf;
    var next := TurnOf(now, chain[i], keepExisting).value.next;
    assert [next][..0] == [];
    assert UpsertAll(now, [next]) == Upsert(now, next);
  }

  /** The chain of `first` has at most `below` fewer nodes than a chain may hold. */
  ghost predicate FitsAbove(ups: Ups, first: Node, below: nat) {
    exists m: nat :: Walk(ups, first, m).None? && below + m <= SOURCE_CHAIN_MAX
  }

  /** After a chain is taken, walking up from its first node is a full test for cycles: that walk ends if and only
      if no source anywhere is above itself. Links that were set stay as they were. */
  lemma WalkFromFirstDecides(table: Table, nodes: seq<SourceNode>, keepExisting: bool)
    requires Keyed(table) && Acyclic(Above(table)) && nodes != [] && Taken(table, Chained(nodes), 0, keepExisting).Some?
    ensures var after := UpsertAll(table, Taken(table, Chained(nodes), 0, keepExisting).value);
            && Keyed(after) && LinksKept(table, after)
            && (Ends(Above(after), nodes[0].ref) <==> Acyclic(Above(after)))
  {
    var chain := Chained(nodes);
    var after := UpsertAll(table, Taken(table, chain, 0, keepExisting).value);
    assert Staging(table, table, chain, 0);
    TakenStaging(table, table, chain, 0, keepExisting);
    hide Above, Taken, UpsertAll, Keyed, LinksKept;
    if Ends(Above(after), nodes[0].ref) {
      OneChainDecides(Above(table), Above(after), nodes[0].ref);
    }
    if Acyclic(Above(after)) {
      AcyclicEnds(Above(after), nodes[0].ref);
    }
  }

  // ---------------------------------------------------------------------------- the code

  /** The warning that a source keeps the link it has, and that what was given above it is dropped. */
  datatype KeptLink = KeptLink(ref: Node, upstream: Option<Node>, dropped: Option<Node>)

  datatype Linking =
    | Linked(events: seq<SourceNode>, warning: Option<KeptLink>)
    | UpstreamConflict
    | ClosesCycle
    | ChainTooLong

  /** Follows `SOURCE_CHAIN_MAX` nodes at most. */
  method WalkUp(table: Table, merged: Table, first: Node, below: nat) returns (verdict: Linking)
    ensures var ups := Above(table + merged);
      match verdict
      case Linked(events, _) => events == [] && FitsAbove(ups, first, below)
      case ClosesCycle => !Ends(ups, first) && !FitsAbove(ups, first, below)
      case ChainTooLong => !FitsAbove(ups, first, below) && exists m: nat :: below + m >= SOURCE_CHAIN_MAX && Walk(ups, first, m).Some?
      case UpstreamConflict => false
  {
    ghost var ups := Above(table + merged);
    var seen: set<Node>, cursor, steps: nat := {}, Some(first), 0;
    while cursor.Some?
      invariant cursor == Walk(ups, first, steps) && |seen| == steps
      invariant forall n :: n in seen <==> exists j: nat :: j < steps && Meets(ups, first, n, j)
      invariant steps > 0 ==> below + steps <= SOURCE_CHAIN_MAX
      decreases SOURCE_CHAIN_MAX - below - steps
    {
      var current := cursor.value;
      if current in seen {
        ghost var j: nat :| j < steps && Meets(ups, first, current, j);
        SeenTwice(ups, first, j, steps);
        return ClosesCycle;
      }
      ghost var before := seen;
      seen := seen + {current};
      if below + |seen| > SOURCE_CHAIN_MAX {
        StillGoing(ups, first, steps, below);
        return ChainTooLong;
      }
      cursor := if current in merged then merged[current].upstream
                else if current in table then table[current].upstream else None;
      steps := steps + 1;
      SeenOneMore(ups, first, steps, before, seen, current);
    }
    return Linked([], None);
  }

  lemma StillGoing(ups: Ups, first: Node, steps: nat, below: nat)
    requires Walk(ups, first, steps).Some? && below + steps >= SOURCE_CHAIN_MAX
    ensures !FitsAbove(ups, first, below)
  {
    if m: nat :| Walk(ups, first, m).None? && below + m <= SOURCE_CHAIN_MAX {
      NothingAboveTheEnd(ups, first, m, steps);
    }
  }

  lemma SeenOneMore(ups: Ups, first: Node, steps: nat, before: set<Node>, seen: set<Node>, current: Node)
    requires steps > 0 && Walk(ups, first, steps - 1) == Some(current) && seen == before + {current}
    requires forall n :: n in before <==> exists j: nat :: j < steps - 1 && Meets(ups, first, n, j)
    ensures forall n :: n in seen <==> exists j: nat :: j < steps && Meets(ups, first, n, j)
  {
    assert Meets(ups, first, current, steps - 1);
    forall n, j: nat | j < steps && Meets(ups, first, n, j) ensures n in seen {
      assert j < steps - 1 || n == current;
    }
  }

  lemma OneEvent(table: Table, event: seq<SourceNode>)
    requires |event| <= 1
    ensures UpsertAll(table, event) == if event == [] then table else Upsert(table, event[0])
  {
    if event != [] {
      assert event[..0] == [];
      assert UpsertAll(table, event[..0]) == table;
    }
  }

  function Onto(events: seq<SourceNode>, rest: Option<seq<SourceNode>>): Option<seq<SourceNode>> {
    match rest
    case None => None
    case Some(r) => Some(events + r)
  }

  lemma NoneTakenYet(table: Table, chain: seq<SourceNode>, keepExisting: bool)
    ensures Onto([], Taken(table, chain, 0, keepExisting)) == Taken(table, chain, 0, keepExisting)
    ensures table == table + map[] && UpsertAll(table, []) == table
  {
    var rest := Taken(table, chain, 0, keepExisting);
    assert rest.Some? ==> [] + rest.value == rest.value;
  }

  lemma AllTaken(events: seq<SourceNode>, table: Table, chain: seq<SourceNode>, keepExisting: bool)
    ensures Onto(events, Taken(table, chain, |chain|, keepExisting)) == Some(events)
  {
    assert events + [] == events;
  }

  lemma TakenStep(events: seq<SourceNode>, table: Table, chain: seq<SourceNode>, i: nat, keepExisting: bool)
    requires i < |chain|
    ensures Onto(events, Taken(table, chain, i, keepExisting)) ==
            match TurnOf(table, chain[i], keepExisting)
            case None => None
            case Some(turn) =>
              var event := if chain[i].ref in table && table[chain[i].ref] == turn.next then [] else [turn.next];
              if turn.kept then Some(events + event)
              else Onto(events + event, Taken(Upsert(table, turn.next), chain, i + 1, keepExisting))
  {
    hide TurnOf, Upsert;
    match TurnOf(table, chain[i], keepExisting)
    case None =>
    case Some(turn) =>
      var event := if chain[i].ref in table && table[chain[i].ref] == turn.next then [] else [turn.next];
      if !turn.kept {
        var rest := Taken(Upsert(table, turn.next), chain, i + 1, keepExisting);
        assert rest.Some? ==> events + (event + rest.value) == events + event + rest.value;
      }
  }

  method TakeTurn(table: Table, merged: Table, node: SourceNode, keepExisting: bool)
    returns (stored: Option<SourceNode>, turn: Option<Turn>)
    ensures var now := table + merged;
      && stored == (if node.ref in now then Some(now[node.ref]) else None)
      && turn == TurnOf(now, node, keepExisting)
  {
    stored := if node.ref in merged then Some(merged[node.ref])
              else if node.ref in table then Some(table[node.ref]) else None;
    if stored.None? {
      return stored, Some(Turn(node, false));
    }
    match stored.value.FillFrom(node)
    case Some(next) => return stored, Some(Turn(next, false));
    case None =>
      if !keepExisting {
        return stored, None;
      }
      return stored, Some(Turn(Coalesce(stored.value, node.(upstream := stored.value.upstream)), true));
  }

  /** Takes the nodes in turn; what it has not stored yet it keeps in `merged`. */
  method Stage(table: Table, chain: seq<SourceNode>, keepExisting: bool)
    returns (staged: bool, merged: Table, events: seq<SourceNode>, warning: Option<KeptLink>)
    requires Keyed(table)
    ensures !staged <==> !keepExisting && FirstDiffering(table, chain, 0) < |chain|
    ensures !staged <==> Taken(table, chain, 0, keepExisting).None?
    ensures staged ==>
      var k := FirstDiffering(table, chain, 0);
      && Taken(table, chain, 0, keepExisting) == Some(events) && table + merged == UpsertAll(table, events)
      && Tracked(table, table + merged, chain, if k < |chain| then k + 1 else k, k < |chain|, warning)
  {
    hide Keyed, Upsert, UpsertAll, Taken, TurnOf, LinksKept, Took, Differs, Above;
    merged, events, warning := map[], [], None;
    var i, kept := 0, false;
    ghost var now := table;
    TrackedAtFirst(table, chain);
    NoneTakenYet(table, chain, keepExisting);
    while i < |chain| && !kept
      invariant 0 <= i <= |chain|
      invariant now == table + merged && Keyed(now) && now == UpsertAll(table, events)
      invariant Tracked(table, now, chain, i, kept, warning) && (kept ==> keepExisting)
      invariant Taken(table, chain, 0, keepExisting) == if kept then Some(events) else Onto(events, Taken(now, chain, i, keepExisting))
      decreases |chain| - i, !kept
    {
      TakenStep(events, now, chain, i, keepExisting);
      var stored, turn := TakeTurn(table, merged, chain[i], keepExisting);
      if turn.None? {
        TurnDiffers(table, now, chain, i, keepExisting);
        return false, merged, events, warning;
      }
      var next := turn.value.next;
      kept := turn.value.kept;
      TrackedOn(table, now, chain, i, keepExisting);
      if kept {
        warning := Some(KeptLink(next.ref, next.upstream, chain[i].upstream));
      }
      TurnFills(now, chain[i], keepExisting);
      ghost var event := if stored == Some(next) then [] else [next];
      UpsertInTurn(table, events, event);
      OneEvent(now, event);
      assert events + [] == events;
      if stored != Some(next) {
        merged := merged[next.ref := next];
        events := events + [next];
      }
      now := Upsert(now, next);
      i := i + 1;
    }
    AllTaken(events, now, chain, keepExisting);
    staged := true;
  }

  /** Refuses a link that differs, or keeps the one there is and drops the rest of the chain. The links it accepts
      leave every chain through the first node within the limit, if the chains there were are, and nothing it refuses
      for its length or a cycle would. */
  method LinkSources(table: Table, nodes: seq<SourceNode>, keepExisting: bool) returns (r: Linking)
    requires Keyed(table)
    ensures r.UpstreamConflict? <==> !keepExisting && exists i :: 0 <= i < |nodes| && Differs(table, Chained(nodes), i)
    ensures r.Linked? ==>
      var chain, k, after := Chained(nodes), FirstDiffering(table, Chained(nodes), 0), UpsertAll(table, r.events);
      if k == |chain| then Took(table, after, chain, k, false) && r.warning == None
      else
        && Took(table, after, chain, k + 1, true)
        && r.warning == Some(KeptLink(chain[k].ref, after[chain[k].ref].upstream, chain[k].upstream))
        && r.warning.value.upstream.Some? && r.warning.value.upstream != r.warning.value.dropped
    ensures r.UpstreamConflict? <==> Taken(table, Chained(nodes), 0, keepExisting).None?
    ensures !r.UpstreamConflict? ==>
      var events := Taken(table, Chained(nodes), 0, keepExisting).value;
      && (r.Linked? <==> nodes == [] || Fits(Above(table), Above(UpsertAll(table, events)), nodes[0].ref))
      && (r.Linked? ==> r.events == events)
      && (r.ClosesCycle? ==> !Ends(Above(UpsertAll(table, events)), nodes[0].ref))
      && (nodes != [] && Short(Above(table)) ==>
            (r.Linked? <==> forall n, j: nat :: Meets(Above(UpsertAll(table, events)), n, nodes[0].ref, j) ==>
                              !TooLong(Above(UpsertAll(table, events)), n)))
  {
    hide Keyed, UpsertAll, Above, Ends, FitsAbove, Taken, Took, Differs;
    var chain := Chained(nodes);
    var staged, merged, events, warning := Stage(table, chain, keepExisting);
    if !staged {
      return UpstreamConflict;
    }
    ghost var now := table + merged;
    if nodes == [] {
      return Linked(events, warning);
    }
    var below := SourceDescendants(table, nodes[0].ref);
    r := WalkUp(table, merged, nodes[0].ref, below);
    FitsIsDecided(Above(table), Above(now), nodes[0].ref, below);
    TakenFits(table, nodes, keepExisting, below);
    if r.Linked? {
      r := Linked(events, warning);
    }
  }

  /** How far taking a chain has come, and the warning so far. */
  ghost predicate Tracked(table: Table, now: Table, chain: seq<SourceNode>, i: nat, kept: bool, warning: Option<KeptLink>)
    requires i <= |chain|
  {
    && (kept ==> i > 0) && Took(table, now, chain, i, kept)
    && FirstDiffering(table, chain, 0) == (if kept then i - 1 else FirstDiffering(table, chain, i))
    && if !kept then warning == None
       else
         && chain[i - 1].ref in now
         && warning == Some(KeptLink(chain[i - 1].ref, now[chain[i - 1].ref].upstream, chain[i - 1].upstream))
         && warning.value.upstream.Some? && warning.value.upstream != warning.value.dropped
  }

  lemma TrackedAtFirst(table: Table, chain: seq<SourceNode>)
    ensures Tracked(table, table, chain, 0, false, None)
  {
  }

  lemma TrackedOn(table: Table, now: Table, chain: seq<SourceNode>, i: nat, keepExisting: bool)
    requires Keyed(now) && i < |chain| && Tracked(table, now, chain, i, false, None)
    requires TurnOf(now, chain[i], keepExisting).Some?
    ensures var turn := TurnOf(now, chain[i], keepExisting).value;
            && (turn.kept ==> keepExisting)
            && Tracked(table, Upsert(now, turn.next), chain, i + 1, turn.kept,
                       if turn.kept then Some(KeptLink(turn.next.ref, turn.next.upstream, chain[i].upstream)) else None)
  {
    TurnDiffers(table, now, chain, i, keepExisting);
    TookOn(table, now, chain, i, keepExisting);
    TurnFills(now, chain[i], keepExisting);
    hide Upsert, TurnOf, Took, Differs;
  }

  /** The chain of `first`, on top of what is below it, is within the limit. */
  ghost predicate Fits(ups: Ups, now: Ups, first: Node) {
    exists below :: DepthBelow(ups, first, below) && FitsAbove(now, first, below)
  }

  lemma FitsIsDecided(ups: Ups, now: Ups, first: Node, below: nat)
    requires DepthBelow(ups, first, below)
    ensures Fits(ups, now, first) <==> FitsAbove(now, first, below)
  {
    hide FitsAbove;
    forall d | DepthBelow(ups, first, d) ensures d == below {
    }
  }

  lemma TakenFits(table: Table, nodes: seq<SourceNode>, keepExisting: bool, below: nat)
    requires Keyed(table) && nodes != [] && Taken(table, Chained(nodes), 0, keepExisting).Some?
    requires DepthBelow(Above(table), nodes[0].ref, below)
    ensures var now := Above(UpsertAll(table, Taken(table, Chained(nodes), 0, keepExisting).value));
            Short(Above(table)) ==>
              (FitsAbove(now, nodes[0].ref, below) <==> forall n, j: nat :: Meets(now, n, nodes[0].ref, j) ==> !TooLong(now, n))
  {
    var chain := Chained(nodes);
    var after := UpsertAll(table, Taken(table, chain, 0, keepExisting).value);
    assert Staging(table, table, chain, 0);
    TakenStaging(table, table, chain, 0, keepExisting);
    hide Above, Taken, UpsertAll, Keyed;
    if Short(Above(table)) {
      FitsIffChainsThroughFirstDo(Above(table), Above(after), nodes[0].ref, below);
    }
  }

  /** Walks up at most `SOURCE_CHAIN_MAX` links. Stops at the real top exactly when the chain is no longer. */
  method TopOf(table: Table, start: Node) returns (top: Node)
    ensures exists k: nat :: k <= SOURCE_CHAIN_MAX && Meets(Above(table), start, top, k)
    ensures top !in Above(table) <==> Walk(Above(table), start, SOURCE_CHAIN_MAX + 1).None?
  {
    ghost var ups := Above(table);
    top := start;
    for i := 0 to SOURCE_CHAIN_MAX
      invariant Meets(ups, start, top, i)
    {
      if !(top in table && table[top].upstream.Some?) {
        NothingAboveTheEnd(ups, start, i + 1, SOURCE_CHAIN_MAX + 1);
        return;
      }
      top := table[top].upstream.value;
    }
  }

  // ----------------------------------------------------------------------- over whole runs

  /** One call, and how many of the events it returned reach the table before a stop. */
  datatype Call = Call(nodes: seq<SourceNode>, keepExisting: bool, applied: nat)

  ghost function AfterCall(table: Table, call: Call): Table {
    var taken := Taken(table, Chained(call.nodes), 0, call.keepExisting);
    if taken.Some? && (call.nodes != [] ==> Fits(Above(table), Above(UpsertAll(table, taken.value)), call.nodes[0].ref)) then
      UpsertAll(table, if call.applied < |taken.value| then taken.value[..call.applied] else taken.value)
    else table
  }

  ghost function AfterCalls(table: Table, calls: seq<Call>): Table {
    if calls == [] then table else AfterCall(AfterCalls(table, calls[..|calls| - 1]), calls[|calls| - 1])
  }

  lemma {:induction false} UpsertsKeepLinks(table: Table, nodes: seq<SourceNode>)
    requires Keyed(table)
    ensures Keyed(UpsertAll(table, nodes)) && LinksKept(table, UpsertAll(table, nodes)) && Kept(table, UpsertAll(table, nodes))
  {
    if nodes != [] {
      UpsertsKeepLinks(table, nodes[..|nodes| - 1]);
      UpsertKeepsLinks(UpsertAll(table, nodes[..|nodes| - 1]), nodes[|nodes| - 1]);
    }
  }

  lemma UpsertKeepsLinks(table: Table, node: SourceNode)
    requires Keyed(table)
    ensures Keyed(Upsert(table, node)) && LinksKept(table, Upsert(table, node)) && Kept(table, Upsert(table, node))
  {
  }

  lemma CallKeepsChains(table: Table, call: Call)
    requires Keyed(table) && Acyclic(Above(table))
    ensures var after := AfterCall(table, call);
            Keyed(after) && LinksKept(table, after) && Kept(table, after) && Acyclic(Above(after))
  {
    hide Keyed, LinksKept, Kept, Acyclic, Above, Taken, UpsertAll, Fits;
    NothingChanges(table);
    var after, taken := AfterCall(table, call), Taken(table, Chained(call.nodes), 0, call.keepExisting);
    if taken.Some? && call.nodes != [] && Fits(Above(table), Above(UpsertAll(table, taken.value)), call.nodes[0].ref) {
      WalkFromFirstDecides(table, call.nodes, call.keepExisting);
      UpsertsKeepLinks(table, taken.value);
      FitsEnds(Above(table), Above(UpsertAll(table, taken.value)), call.nodes[0].ref);
      if call.applied < |taken.value| {
        UpsertsKeepLinks(table, taken.value[..call.applied]);
        assert taken.value == taken.value[..call.applied] + taken.value[call.applied..];
        UpsertInTurn(table, taken.value[..call.applied], taken.value[call.applied..]);
        UpsertsKeepLinks(after, taken.value[call.applied..]);
        KeptLinksAcyclic(after, UpsertAll(table, taken.value));
      }
    }
    if call.nodes == [] {
      NothingTaken(table, call.nodes, call.keepExisting);
    }
  }

  lemma NothingChanges(table: Table)
    ensures LinksKept(table, table) && Kept(table, table)
  {
  }

  lemma FitsEnds(ups: Ups, now: Ups, first: Node)
    requires Fits(ups, now, first)
    ensures Ends(now, first)
  {
  }

  lemma KeptLinksAcyclic(fewer: Table, more: Table)
    requires LinksKept(fewer, more) && Acyclic(Above(more))
    ensures Acyclic(Above(fewer))
  {
    FewerLinksAcyclic(Above(fewer), Above(more));
  }

  lemma NothingTaken(table: Table, nodes: seq<SourceNode>, keepExisting: bool)
    requires nodes == []
    ensures Taken(table, Chained(nodes), 0, keepExisting) == Some([]) && UpsertAll(table, []) == table
  {
  }

  /** However chains are linked, and wherever storing them stops, no source ever comes to be above itself, and no
      link or text once set changes. */
  lemma {:induction false} RunKeepsChains(table: Table, calls: seq<Call>)
    requires Keyed(table) && Acyclic(Above(table))
    ensures var after := AfterCalls(table, calls);
            Keyed(after) && LinksKept(table, after) && Kept(table, after) && Acyclic(Above(after))
  {
    hide AfterCall, Keyed, LinksKept, Kept, Acyclic, Above;
    NothingChanges(table);
    if calls != [] {
      var before := AfterCalls(table, calls[..|calls| - 1]);
      RunKeepsChains(table, calls[..|calls| - 1]);
      CallKeepsChains(before, calls[|calls| - 1]);
      LinksKeptOn(table, before, AfterCalls(table, calls));
    }
  }

  lemma LinksKeptOn(a: Table, b: Table, c: Table)
    requires LinksKept(a, b) && LinksKept(b, c) && Kept(a, b) && Kept(b, c)
    ensures LinksKept(a, c) && Kept(a, c)
  {
  }

  /** So every chain ends, after as many steps as there are links at most. */
  lemma EveryChainEnds(table: Table, calls: seq<Call>, from: Node)
    requires Keyed(table) && Acyclic(Above(table))
    ensures var ups := Above(AfterCalls(table, calls)); Walk(ups, from, |ups| + 1).None?
  {
    RunKeepsChains(table, calls);
    AcyclicEnds(Above(AfterCalls(table, calls)), from);
  }

  // ---------------------------------------------------------------- how long chains can get

  predicate TooLong(ups: Ups, n: Node) { Walk(ups, n, SOURCE_CHAIN_MAX).Some? }

  ghost predicate Short(ups: Ups) { forall n: Node :: !TooLong(ups, n) }

  /** Where a walk that ended goes on, it takes a new link. */
  lemma {:induction false} FirstNewLink(ups: Ups, now: Ups, n: Node, k: nat) returns (c: Node, j: nat)
    requires (forall m :: m in ups ==> m in now && now[m] == ups[m])
    requires Walk(now, n, k).Some? && Walk(ups, n, k).None?
    ensures j < k && Meets(ups, n, c, j) && c in now && c !in ups
  {
    var last := Walk(ups, n, k - 1);
    if last.Some? {
      LongerWalk(ups, now, n, k - 1);
      return last.value, k - 1;
    }
    c, j := FirstNewLink(ups, now, n, k - 1);
  }

  /** The length check looks below the first node only. All chains stay within the limit exactly when what lies
      below each node of the new chain, other branches included, leaves room for what is above that node. */
  lemma ChainsStayShortIff(ups: Ups, now: Ups, first: Node)
    requires Short(ups) && NewOnChain(ups, now, first)
    requires forall m :: m in ups ==> m in now && now[m] == ups[m]
    ensures Short(now) <==>
            forall n, c, j: nat, i: nat :: j <= SOURCE_CHAIN_MAX && Meets(ups, n, c, j) && Meets(now, first, c, i) ==>
              Walk(now, c, SOURCE_CHAIN_MAX - j).None?
  {
    forall n, c, j: nat | j <= SOURCE_CHAIN_MAX && Meets(ups, n, c, j)
      ensures TooLong(now, n) == Walk(now, c, SOURCE_CHAIN_MAX - j).Some?
    {
      LongerWalk(ups, now, n, j);
      WalkOn(now, n, j, SOURCE_CHAIN_MAX - j);
    }
    forall n | TooLong(now, n)
      ensures exists c, j: nat, i: nat :: j <= SOURCE_CHAIN_MAX && Meets(ups, n, c, j) && Meets(now, first, c, i)
    {
      assert !TooLong(ups, n);
      var c, j := FirstNewLink(ups, now, n, SOURCE_CHAIN_MAX);
      var i: nat :| Meets(now, first, c, i);
    }
  }

  /** How far below `first` the chains through it start, looking no further than a chain may reach. */
  ghost predicate DepthBelow(ups: Ups, first: Node, depth: nat) {
    && depth < SOURCE_CHAIN_MAX && (exists n :: Meets(ups, n, first, depth))
    && forall n, j: nat :: j < SOURCE_CHAIN_MAX && Meets(ups, n, first, j) ==> j <= depth
  }

  /** Where chains are within the limit before, the check is exact for the chains through the first node: it passes
      if and only if each of them holds at most `SOURCE_CHAIN_MAX` nodes after. */
  lemma FitsIffChainsThroughFirstDo(ups: Ups, now: Ups, first: Node, below: nat)
    requires Short(ups) && NewOnChain(ups, now, first) && DepthBelow(ups, first, below)
    requires forall m :: m in ups ==> m in now && now[m] == ups[m]
    ensures FitsAbove(now, first, below) <==> forall n, j: nat :: Meets(now, n, first, j) ==> !TooLong(now, n)
  {
    if FitsAbove(now, first, below) {
      forall n, j: nat | Meets(now, n, first, j) ensures !TooLong(now, n) {
        BelowIsOld(ups, now, first, n, j);
        WithinDepth(ups, first, below, n, j);
        WalkOn(now, n, j, SOURCE_CHAIN_MAX - j);
        var m: nat :| Walk(now, first, m).None? && below + m <= SOURCE_CHAIN_MAX;
        NothingAboveTheEnd(now, first, m, SOURCE_CHAIN_MAX - j);
      }
    }
    if forall n, j: nat :: Meets(now, n, first, j) ==> !TooLong(now, n) {
      var n :| Meets(ups, n, first, below);
      LongerWalk(ups, now, n, below);
      assert Meets(now, n, first, below) && !TooLong(now, n);
      WalkOn(now, n, below, SOURCE_CHAIN_MAX - below);
    }
  }

  lemma WithinDepth(ups: Ups, first: Node, below: nat, n: Node, j: nat)
    requires Short(ups) && DepthBelow(ups, first, below) && Meets(ups, n, first, j)
    ensures j <= below
  {
    assert !TooLong(ups, n);
    if j >= SOURCE_CHAIN_MAX {
      NothingAboveTheEnd(ups, n, SOURCE_CHAIN_MAX, j);
    }
  }

  /** No new link lies below the first node of a chain that ends. */
  lemma BelowIsOld(ups: Ups, now: Ups, first: Node, n: Node, j: nat)
    requires NewOnChain(ups, now, first) && Ends(now, first) && Meets(now, n, first, j)
    requires forall m :: m in ups ==> m in now && now[m] == ups[m]
    ensures Meets(ups, n, first, j)
  {
    forall k: nat, c: Node | k < j && Meets(now, n, c, k) ensures c in ups <==> c in now {
      NotNewBelow(ups, now, first, n, j, k, c);
    }
    SameWalk(now, ups, n, j);
  }

  lemma NotNewBelow(ups: Ups, now: Ups, first: Node, n: Node, j: nat, k: nat, c: Node)
    requires NewOnChain(ups, now, first) && Ends(now, first) && Meets(now, n, first, j) && k < j && Meets(now, n, c, k)
    requires forall m :: m in ups ==> m in now && now[m] == ups[m]
    ensures c in now ==> c in ups
  {
    hide Walk;
    WalkOn(now, n, k, j - k);
    if i: nat :| Meets(now, first, c, i) {
      WalkOn(now, first, i, j - k);
      CycleNeverEnds(now, first, 0, first, i + (j - k)) by { FirstMeetsItself(now, first); }
    }
  }

  lemma FirstMeetsItself(ups: Ups, first: Node)
    ensures Meets(ups, first, first, 0)
  {
  }

  lemma OneStepDown(ups: Ups, n: Node, first: Node, depth: nat)
    ensures Meets(ups, n, first, depth + 1) <==> n in ups && Meets(ups, ups[n], first, depth)
  {
    assert Walk(ups, n, 1) == if n in ups then Some(ups[n]) else None;
    if n in ups {
      WalkOn(ups, n, 1, depth);
    } else {
      NothingAboveTheEnd(ups, n, 1, depth + 1);
    }
  }

  lemma {:induction false} NothingFurtherDown(ups: Ups, first: Node, depth: nat, n: Node, j: nat)
    requires (forall m :: !Meets(ups, m, first, depth)) && depth <= j
    ensures !Meets(ups, n, first, j)
    decreases j
  {
    if depth < j {
      OneStepDown(ups, n, first, j - 1);
      if n in ups {
        NothingFurtherDown(ups, first, depth, ups[n], j - 1);
      }
    }
  }

  /** The nodes below, one level after the other. */
  method SourceDescendants(table: Table, first: Node) returns (below: nat)
    ensures DepthBelow(Above(table), first, below)
  {
    ghost var ups := Above(table);
    var level := {first};
    below := 0;
    assert Meets(ups, first, first, 0);
    while below + 1 < SOURCE_CHAIN_MAX
      invariant below < SOURCE_CHAIN_MAX && level != {}
      invariant forall n :: n in level <==> Meets(ups, n, first, below)
    {
      var next := set r | r in table && table[r].upstream.Some? && table[r].upstream.value in level;
      ghost var lower := below + 1;
      forall n ensures n in next <==> Meets(ups, n, first, lower) {
        OneStepDown(ups, n, first, below);
      }
      if next == {} {
        forall n, j: nat | Meets(ups, n, first, j) ensures j <= below {
          if j > below {
            NothingFurtherDown(ups, first, lower, n, j);
          }
        }
        LevelReached(ups, first, below, level);
        return;
      }
      level := next;
      below := below + 1;
    }
    LevelReached(ups, first, below, level);
  }

  lemma LevelReached(ups: Ups, first: Node, below: nat, level: set<Node>)
    requires level != {} && forall n :: n in level <==> Meets(ups, n, first, below)
    ensures exists n :: Meets(ups, n, first, below)
  {
    var n :| n in level;
    assert Meets(ups, n, first, below);
  }

  function Plain(r: Node, upstream: Option<Node>): SourceNode { SourceNode(r, None, None, None, upstream, 0) }

  /** 1 below 2 below 3 and so on, as far as a chain may go. */
  function ChainTo(n: nat): (table: Table)
    requires n <= SOURCE_CHAIN_MAX
    ensures forall r :: r in table <==> 1 <= r <= n
    ensures forall r :: r in table ==> table[r] == Plain(r, if r < SOURCE_CHAIN_MAX then Some(r + 1) else None)
  {
    if n == 0 then map[]
    else ChainTo(n - 1)[n := Plain(n, if n < SOURCE_CHAIN_MAX then Some(n + 1) else None)]
  }

  function FullChain(): Table { ChainTo(SOURCE_CHAIN_MAX) }

  lemma {:induction false} UpTheChain(ups: Ups, from: Node, k: nat)
    requires from >= 1 && from + k <= SOURCE_CHAIN_MAX
    requires forall r: Node :: 1 <= r < SOURCE_CHAIN_MAX ==> r in ups && ups[r] == r + 1
    ensures Walk(ups, from, k) == Some(from + k)
  {
    if k > 0 {
      UpTheChain(ups, from, k - 1);
    }
  }

  lemma FullChainIsShort()
    ensures Short(Above(FullChain()))
  {
    var ups := Above(FullChain());
    forall n: Node ensures !TooLong(ups, n) {
      if 1 <= n <= SOURCE_CHAIN_MAX {
        UpTheChain(ups, n, SOURCE_CHAIN_MAX - n);
        NothingAboveTheEnd(ups, n, SOURCE_CHAIN_MAX - n + 1, SOURCE_CHAIN_MAX);
      } else {
        NothingAboveTheEnd(ups, n, 1, SOURCE_CHAIN_MAX);
      }
    }
  }

  /** The table once `newcomer` was put below the top of a full chain and `top` above it. */
  function Overgrown(newcomer: Node, top: Node): Table {
    FullChain()[newcomer := Plain(newcomer, Some(SOURCE_CHAIN_MAX))]
               [SOURCE_CHAIN_MAX := Plain(SOURCE_CHAIN_MAX, Some(top))]
               [top := Plain(top, None)]
  }

  lemma OvergrownIsTaken(newcomer: Node, top: Node)
    requires newcomer > SOURCE_CHAIN_MAX && top > SOURCE_CHAIN_MAX && newcomer != top
    ensures var nodes := [Plain(newcomer, None), Plain(SOURCE_CHAIN_MAX, None), Plain(top, None)];
            var taken := Taken(FullChain(), Chained(nodes), 0, false);
            taken.Some? && UpsertAll(FullChain(), taken.value) == Overgrown(newcomer, top)
  {
    var nodes := [Plain(newcomer, None), Plain(SOURCE_CHAIN_MAX, None), Plain(top, None)];
    var chain, t0 := Chained(nodes), FullChain();
    var c0, c1, c2 := Plain(newcomer, Some(SOURCE_CHAIN_MAX)), Plain(SOURCE_CHAIN_MAX, Some(top)), Plain(top, None);
    assert chain == [c0, c1, c2];
    var t1 := Upsert(t0, c0);
    var t2 := Upsert(t1, c1);
    assert TurnOf(t0, c0, false) == Some(Turn(c0, false));
    assert TurnOf(t1, c1, false) == Some(Turn(c1, false)) && t1[SOURCE_CHAIN_MAX] != c1;
    assert TurnOf(t2, c2, false) == Some(Turn(c2, false)) && top !in t2;
    hide TurnOf, Upsert, Chained, FullChain;
    assert Taken(Upsert(t2, c2), chain, 3, false) == Some([]) && [c2] + [] == [c2];
    assert Taken(t2, chain, 2, false) == Some([c2]);
    assert Taken(t1, chain, 1, false) == Some([c1] + [c2]);
    assert Taken(t0, chain, 0, false) == Some([c0] + ([c1] + [c2]));
    var e := [c0] + ([c1] + [c2]);
    assert e[..2] == [c0, c1] && e[..2][..1] == [c0] && e[..2][..1][..0] == [];
    assert UpsertAll(t0, [c0]) == t1;
    assert UpsertAll(t0, [c0, c1]) == t2;
  }

  /** Linking a new node under the top of a full chain, and another one above that top, is accepted: the check
      starts from the new node, which has nothing below it. */
  lemma AcceptedLinksCanGrowTooLong(newcomer: Node, top: Node)
    requires newcomer > SOURCE_CHAIN_MAX && top > SOURCE_CHAIN_MAX && newcomer != top
    ensures Short(Above(FullChain()))
    ensures var nodes := [Plain(newcomer, None), Plain(SOURCE_CHAIN_MAX, None), Plain(top, None)];
            var taken := Taken(FullChain(), Chained(nodes), 0, false);
            && taken.Some?
            && Fits(Above(FullChain()), Above(UpsertAll(FullChain(), taken.value)), newcomer)
            && TooLong(Above(UpsertAll(FullChain(), taken.value)), 1)
  {
    FullChainIsShort();
    NothingBelow(newcomer);
    OvergrownIsTaken(newcomer, top);
    hide Taken, UpsertAll;
    var ups := Above(Overgrown(newcomer, top));
    OvergrownLinks(newcomer, top);
    hide Overgrown, Above;
    UpTheChain(ups, 1, SOURCE_CHAIN_MAX - 1);
    assert Walk(ups, 1, SOURCE_CHAIN_MAX) == Some(top);
    assert Walk(ups, newcomer, 1) == Some(SOURCE_CHAIN_MAX);
    assert Walk(ups, newcomer, 2) == Some(top);
    assert Walk(ups, newcomer, 3) == None;
  }

  lemma NothingBelow(newcomer: Node)
    requires newcomer > SOURCE_CHAIN_MAX
    ensures DepthBelow(Above(FullChain()), newcomer, 0)
  {
    var ups := Above(FullChain());
    assert Meets(ups, newcomer, newcomer, 0);
    forall n, j: nat | j > 0 ensures !Meets(ups, n, newcomer, j) {
      var last := Walk(ups, n, j - 1);
      assert last.Some? && last.value in ups ==> ups[last.value] < newcomer;
    }
  }

  lemma OvergrownLinks(newcomer: Node, top: Node)
    requires newcomer > SOURCE_CHAIN_MAX && top > SOURCE_CHAIN_MAX && newcomer != top
    ensures var ups := Above(Overgrown(newcomer, top));
            && newcomer in ups && ups[newcomer] == SOURCE_CHAIN_MAX
            && SOURCE_CHAIN_MAX in ups && ups[SOURCE_CHAIN_MAX] == top && top !in ups
            && forall r: Node :: 1 <= r < SOURCE_CHAIN_MAX ==> r in ups && ups[r] == r + 1
  {
    FullChainRows();
    hide FullChain, ChainTo;
  }

  lemma FullChainRows()
    ensures forall r :: r in FullChain() <==> 1 <= r <= SOURCE_CHAIN_MAX
    ensures forall r :: r in FullChain() ==> FullChain()[r].upstream == if r < SOURCE_CHAIN_MAX then Some(r + 1) else None
  {
  }
}

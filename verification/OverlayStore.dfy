/** The append-only overlay table: optimistic accepts and rollbacks by copying, each
    one serialized transaction, issued by any number of clients on any presets. */
module OverlayStore {
  import opened Text
  import opened Overlay

  datatype Row = Row(
    preset: string, version: int, active: bool, payload: Overlay,
    base: int, source: Option<int>, proposal: Option<int>)

  /** A request. An apply carries its changes validated; None where validation fails. */
  datatype Op =
    | Apply(preset: string, changes: Option<Overlay>, base: int, proposal: Option<int>)
    | Rollback(preset: string, source: int)

  ghost predicate OpOk(op: Op) {
    op.Apply? && op.changes.Some? ==> Valid(op.changes.value)
  }

  datatype Reply = Done(row: Row) | Stale | Rejected

  // ---- queries ----

  /** SELECT ... WHERE preset = p, in insertion order. */
  function Of(rows: seq<Row>, p: string): (h: seq<Row>)
    ensures |h| <= |rows|
    ensures forall r :: r in h ==> r.preset == p && r in rows
  {
    if rows == [] then []
    else
      var last := rows[|rows| - 1];
      Of(rows[..|rows| - 1], p) + (if last.preset == p then [last] else [])
  }

  /** ... AND active = 1. */
  function ActiveIn(h: seq<Row>): Option<Row> {
    if h == [] then None
    else if h[|h| - 1].active then Some(h[|h| - 1])
    else ActiveIn(h[..|h| - 1])
  }

  /** ... AND version = v. */
  function VersionIn(h: seq<Row>, v: int): Option<Row> {
    if h == [] then None
    else if h[|h| - 1].version == v then Some(h[|h| - 1])
    else VersionIn(h[..|h| - 1], v)
  }

  /** COALESCE(MAX(version), 0). */
  function MaxVersionIn(h: seq<Row>): int {
    if h == [] then 0
    else
      var m := MaxVersionIn(h[..|h| - 1]);
      if |h| == 1 || h[|h| - 1].version > m then h[|h| - 1].version else m
  }

  /** SELECT ... WHERE proposal_id = id. */
  function ByProposal(rows: seq<Row>, id: int): (r: Option<Row>)
    ensures r.Some? ==> r.value in rows && r.value.proposal == Some(id)
    ensures r.None? ==> forall x :: x in rows ==> x.proposal != Some(id)
  {
    if rows == [] then None
    else if rows[|rows| - 1].proposal == Some(id) then Some(rows[|rows| - 1])
    else ByProposal(rows[..|rows| - 1], id)
  }

  /** UPDATE ... SET active = 0 WHERE preset = p. */
  function Deactivated(rows: seq<Row>, p: string): (r: seq<Row>)
    ensures |r| == |rows|
    ensures forall i :: 0 <= i < |rows| ==>
      r[i] == if rows[i].preset == p then rows[i].(active := false) else rows[i]
  {
    seq(|rows|, i requires 0 <= i < |rows| => if rows[i].preset == p then rows[i].(active := false) else rows[i])
  }

  // ---- the invariant ----

  /** Versions are 1..n, each built on the one before it, only the newest active. */
  ghost predicate HistoryOk(h: seq<Row>) {
    forall k :: 0 <= k < |h| ==>
      && h[k].version == k + 1
      && h[k].base == k
      && h[k].active == (k == |h| - 1)
  }

  ghost predicate Inv(rows: seq<Row>) {
    && (forall p :: HistoryOk(Of(rows, p)))
    && (forall i, j :: 0 <= i < j < |rows| && rows[i].proposal.Some? ==> rows[i].proposal != rows[j].proposal)
  }

  ghost predicate AllValid(rows: seq<Row>) {
    forall r :: r in rows ==> Valid(r.payload)
  }

  /** Snapshot at a version; version 0 is the implicit empty baseline. */
  function SnapshotAt(h: seq<Row>, v: int): Overlay
    requires 0 <= v <= |h|
  {
    if v == 0 then EMPTY else h[v - 1].payload
  }

  /** What a transaction does, told by the preset histories alone. */
  ghost predicate Transaction(before: seq<Row>, op: Op, after: seq<Row>, reply: Reply) {
    match op
    case Apply(p, changes, base, proposal) => ApplyTx(before, p, changes, base, proposal, after, reply)
    case Rollback(p, source) => RollbackTx(before, p, source, after, reply)
  }

  ghost predicate ApplyTx(before: seq<Row>, p: string, changes: Option<Overlay>, base: int, proposal: Option<int>,
                          after: seq<Row>, reply: Reply)
  {
    var h := Of(before, p);
    if changes.None? then
      after == before && reply == Rejected
    else if Known(before, proposal) then
      after == before && reply.Done? && reply.row in before && reply.row.proposal == proposal
    else if base != |h| then
      after == before && reply == Stale
    else
      var merged := Merge(SnapshotAt(h, |h|), changes.value);
      if merged.None? then
        after == before && reply == Rejected
      else
        && reply == Done(Row(p, |h| + 1, true, merged.value, |h|, None, proposal))
        && Appends(before, reply.row, after)
  }

  ghost predicate RollbackTx(before: seq<Row>, p: string, source: int, after: seq<Row>, reply: Reply) {
    var h := Of(before, p);
    if !(0 <= source <= |h|) then
      after == before && reply == Rejected
    else
      && reply == Done(Row(p, |h| + 1, true, SnapshotAt(h, source), |h|, Some(source), None))
      && Appends(before, reply.row, after)
  }

  /** The proposal has been stored before. */
  ghost predicate Known(rows: seq<Row>, proposal: Option<int>) {
    proposal.Some? && exists x :: x in rows && x.proposal == proposal
  }

  ghost predicate Appends(before: seq<Row>, row: Row, after: seq<Row>) {
    after == Deactivated(before, row.preset) + [row]
  }

  // ---- the queries under the invariant ----

  lemma {:induction false} ActiveIsLast(h: seq<Row>)
    requires HistoryOk(h)
    ensures ActiveIn(h) == if h == [] then None else Some(h[|h| - 1])
  {
  }

  lemma {:induction false} QueriesAre(h: seq<Row>, v: int)
    requires forall k :: 0 <= k < |h| ==> h[k].version == k + 1
    ensures MaxVersionIn(h) == |h|
    ensures VersionIn(h, v) == if 1 <= v <= |h| then Some(h[v - 1]) else None
  {
    if h != [] { QueriesAre(h[..|h| - 1], v); }
  }

  lemma {:induction false} OfDeactivated(rows: seq<Row>, p: string, q: string)
    ensures Of(Deactivated(rows, p), q) == if p == q then Deactivated(Of(rows, p), p) else Of(rows, q)
  {
    if rows != [] {
      var front := rows[..|rows| - 1];
      assert Deactivated(rows, p)[..|rows| - 1] == Deactivated(front, p);
      OfDeactivated(front, p, q);
    }
  }

  lemma OfAppended(before: seq<Row>, row: Row, q: string)
    ensures Of(Deactivated(before, row.preset) + [row], q)
            == if q == row.preset then Deactivated(Of(before, q), q) + [row] else Of(before, q)
  {
    var after := Deactivated(before, row.preset) + [row];
    assert after[..|after| - 1] == Deactivated(before, row.preset);
    OfDeactivated(before, row.preset, q);
  }

  /** A stored row is never changed, except that it stops being the active one. */
  ghost predicate Extends(h: seq<Row>, later: seq<Row>) {
    && |h| <= |later|
    && forall k :: 0 <= k < |h| ==> later[k].(active := h[k].active) == h[k]
  }

  lemma AppendedHistory(before: seq<Row>, row: Row, q: string)
    requires HistoryOk(Of(before, q))
    requires q == row.preset ==> row.version == |Of(before, q)| + 1 && row.base == |Of(before, q)| && row.active
    ensures var later := Of(Deactivated(before, row.preset) + [row], q);
      HistoryOk(later) && Extends(Of(before, q), later)
  {
    hide Of;
    OfAppended(before, row, q);
  }

  lemma AppendKeepsInv(before: seq<Row>, row: Row, after: seq<Row>)
    requires Inv(before) && Appends(before, row, after)
    requires row.version == |Of(before, row.preset)| + 1 && row.base == |Of(before, row.preset)| && row.active
    requires !Known(before, row.proposal)
    ensures Inv(after)
    ensures forall q :: Extends(Of(before, q), Of(after, q))
  {
    forall q ensures HistoryOk(Of(after, q)) && Extends(Of(before, q), Of(after, q)) {
      AppendedHistory(before, row, q);
    }
    forall i, j | 0 <= i < j < |after| && after[i].proposal.Some? ensures after[i].proposal != after[j].proposal {
      assert after[i].proposal == before[i].proposal && before[i] in before;
    }
  }

  /** Every transaction keeps the table well formed and only appends. */
  lemma TransactionKeepsInv(before: seq<Row>, op: Op, after: seq<Row>, reply: Reply)
    requires Inv(before) && Transaction(before, op, after, reply)
    ensures Inv(after)
    ensures forall q :: Extends(Of(before, q), Of(after, q))
  {
    if after != before {
      AppendKeepsInv(before, reply.row, after);
    }
  }

  lemma EmptyValid()
    ensures Valid(EMPTY)
  {
  }

  lemma SnapshotValid(rows: seq<Row>, p: string, v: int)
    requires AllValid(rows) && 0 <= v <= |Of(rows, p)|
    ensures Valid(SnapshotAt(Of(rows, p), v))
  {
    EmptyValid();
    if v > 0 {
      assert Of(rows, p)[v - 1] in Of(rows, p);
    }
  }

  lemma AppendKeepsValid(before: seq<Row>, row: Row)
    requires AllValid(before) && Valid(row.payload)
    ensures AllValid(Deactivated(before, row.preset) + [row])
  {
    var d := Deactivated(before, row.preset);
    forall r | r in d + [row] ensures Valid(r.payload) {
      if r in d {
        var i :| 0 <= i < |d| && d[i] == r;
        assert before[i] in before && before[i].payload == r.payload;
      }
    }
  }

  /** Only valid snapshots are ever stored. */
  lemma TransactionKeepsValid(before: seq<Row>, op: Op, after: seq<Row>, reply: Reply)
    requires AllValid(before) && OpOk(op) && Transaction(before, op, after, reply)
    ensures AllValid(after)
  {
    if after != before {
      var h := Of(before, op.preset);
      SnapshotValid(before, op.preset, if op.Apply? then |h| else op.source);
      if op.Apply? {
        MergeValid(SnapshotAt(h, |h|), op.changes.value);
      }
      AppendKeepsValid(before, reply.row);
    }
  }

  // ---- the store ----

  class Store {
    var rows: seq<Row>

    constructor ()
      ensures rows == [] && Inv(rows)
    {
      rows := [];
    }

    /** The active snapshot and its version. */
    method Active(preset: string) returns (version: int, overlay: Overlay)
      requires Inv(rows)
      ensures version == |Of(rows, preset)| && overlay == SnapshotAt(Of(rows, preset), version)
    {
      assert HistoryOk(Of(rows, preset));
      ActiveIsLast(Of(rows, preset));
      match ActiveIn(Of(rows, preset)) {
        case None => version, overlay := 0, EMPTY;
        case Some(row) => version, overlay := row.version, row.payload;
      }
    }

    method Append(row: Row)
      modifies this
      ensures rows == Deactivated(old(rows), row.preset) + [row]
    {
      rows := Deactivated(rows, row.preset);
      rows := rows + [row];
    }

    method ApplyChanges(preset: string, changes: RawOverlay, base: int, proposal: Option<int>)
      returns (reply: Reply)
      requires Inv(rows)
      modifies this
      ensures Transaction(old(rows), Apply(preset, Clean(changes), base, proposal), rows, reply)
      ensures Inv(rows)
      ensures rows != old(rows) ==>
        && reply.Done? && Clean(changes).Some? && base == |Of(old(rows), preset)|
        && MergedFrom(SnapshotAt(Of(old(rows), preset), base), Clean(changes).value, reply.row.payload)
    {
      hide Of, Deactivated, Clean, Merge, MergedFrom;
      var cleaned := Clean(changes);
      if cleaned.None? { return Rejected; }
      if proposal.Some? {
        var prior := ByProposal(rows, proposal.value);
        if prior.Some? { return Done(prior.value); }
      }
      var version, current := Active(preset);
      if version != base { return Stale; }
      var merged := Merge(current, cleaned.value);
      if merged.None? { return Rejected; }
      MergeTakes(current, cleaned.value);
      assert HistoryOk(Of(rows, preset));
      QueriesAre(Of(rows, preset), 0);
      var row := Row(preset, MaxVersionIn(Of(rows, preset)) + 1, true, merged.value, base, None, proposal);
      Append(row);
      reply := Done(row);
      AppendKeepsInv(old(rows), row, rows);
    }

    method RollbackTo(preset: string, source: int) returns (reply: Reply)
      requires Inv(rows)
      modifies this
      ensures Transaction(old(rows), Rollback(preset, source), rows, reply)
      ensures Inv(rows)
    {
      hide Of, Deactivated;
      assert HistoryOk(Of(rows, preset));
      QueriesAre(Of(rows, preset), source);
      var found := VersionIn(Of(rows, preset), source);
      if source != 0 && found.None? { return Rejected; }
      var snapshot := if found.Some? then found.value.payload else EMPTY;
      var version, current := Active(preset);
      var row := Row(preset, MaxVersionIn(Of(rows, preset)) + 1, true, snapshot, version, Some(source), None);
      Append(row);
      reply := Done(row);
      AppendKeepsInv(old(rows), row, rows);
    }
  }

  // ---- runs: any interleaving of transactions on any presets ----

  datatype Run = Run(states: seq<seq<Row>>, ops: seq<Op>, replies: seq<Reply>)

  ghost predicate IsRun(run: Run) {
    && |run.states| == |run.ops| + 1 && |run.replies| == |run.ops|
    && run.states[0] == []
    && (forall i :: 0 <= i < |run.ops| ==> OpOk(run.ops[i]))
    && forall i :: 0 <= i < |run.ops| ==> Transaction(run.states[i], run.ops[i], run.states[i + 1], run.replies[i])
  }

  lemma {:induction false} RunKeepsInv(run: Run, i: nat)
    requires IsRun(run) && i < |run.states|
    ensures Inv(run.states[i])
  {
    hide Merge, Of, Transaction;
    if i > 0 {
      RunKeepsInv(run, i - 1);
      TransactionKeepsInv(run.states[i - 1], run.ops[i - 1], run.states[i], run.replies[i - 1]);
    }
  }

  lemma {:induction false} RunKeepsValid(run: Run, i: nat)
    requires IsRun(run) && i < |run.states|
    ensures AllValid(run.states[i])
  {
    hide Merge, Transaction, OpOk;
    if i > 0 {
      RunKeepsValid(run, i - 1);
      TransactionKeepsValid(run.states[i - 1], run.ops[i - 1], run.states[i], run.replies[i - 1]);
    }
  }

  /** Payloads, versions, parents and proposal ids of stored rows never change. */
  lemma {:induction false} RunAppendOnly(run: Run, i: nat, j: nat, q: string)
    requires IsRun(run) && i <= j < |run.states|
    ensures Extends(Of(run.states[i], q), Of(run.states[j], q))
    decreases j
  {
    hide Of, Transaction, Inv;
    if i < j {
      RunAppendOnly(run, i, j - 1, q);
      RunKeepsInv(run, j - 1);
      TransactionKeepsInv(run.states[j - 1], run.ops[j - 1], run.states[j], run.replies[j - 1]);
      ExtendsTransitive(Of(run.states[i], q), Of(run.states[j - 1], q), Of(run.states[j], q));
    }
  }

  lemma ExtendsTransitive(a: seq<Row>, b: seq<Row>, c: seq<Row>)
    requires Extends(a, b) && Extends(b, c)
    ensures Extends(a, c)
  {
  }

  /** The transaction stored a new version for an apply. */
  ghost predicate Wins(before: seq<Row>, op: Op, after: seq<Row>) {
    op.Apply? && after != before
  }

  lemma WinGrows(before: seq<Row>, op: Op, after: seq<Row>, reply: Reply)
    requires Transaction(before, op, after, reply) && Wins(before, op, after)
    ensures |Of(before, op.preset)| == op.base && |Of(after, op.preset)| == op.base + 1
    ensures Of(after, op.preset)[op.base].proposal == op.proposal
  {
    hide Merge, Of;
    OfAppended(before, reply.row, op.preset);
  }

  /** A stored apply takes effect: the new active snapshot is the one before it with the
      accepted changes on top. */
  lemma AcceptedTakesEffect(run: Run, i: nat)
    requires IsRun(run) && i < |run.ops| && Wins(run.states[i], run.ops[i], run.states[i + 1])
    ensures var op := run.ops[i]; var h, later := Of(run.states[i], op.preset), Of(run.states[i + 1], op.preset);
      op.changes.Some? && MergedFrom(SnapshotAt(h, |h|), op.changes.value, SnapshotAt(later, |later|))
  {
    hide Merge, Of, MergedFrom;
    var op := run.ops[i];
    OfAppended(run.states[i], run.replies[i].row, op.preset);
    MergeTakes(SnapshotAt(Of(run.states[i], op.preset), op.base), op.changes.value);
  }

  lemma WrongBaseIsStale(before: seq<Row>, op: Op, after: seq<Row>, reply: Reply)
    requires Transaction(before, op, after, reply) && op.Apply? && op.changes.Some?
    requires !Known(before, op.proposal) && op.base != |Of(before, op.preset)|
    ensures reply == Stale && after == before
  {
  }

  /** No lost update: of all applies of a run that target one version of one preset,
      at most one is stored; a later one that is valid and not a retry is told it is
      stale and leaves the table as it is. */
  lemma OneWinnerPerBase(run: Run, i: nat, j: nat)
    requires IsRun(run) && i < j < |run.ops| && Wins(run.states[i], run.ops[i], run.states[i + 1])
    requires run.ops[j].Apply? && run.ops[j].preset == run.ops[i].preset && run.ops[j].base == run.ops[i].base
    ensures !Wins(run.states[j], run.ops[j], run.states[j + 1])
    ensures run.ops[j].changes.Some? && !Known(run.states[j], run.ops[j].proposal) ==> run.replies[j] == Stale
  {
    hide Transaction, Of, Known;
    var before, after, op := run.states[j], run.states[j + 1], run.ops[j];
    WinGrows(run.states[i], run.ops[i], run.states[i + 1], run.replies[i]);
    RunAppendOnly(run, i + 1, j, op.preset);
    if op.changes.Some? && !Known(before, op.proposal) {
      WrongBaseIsStale(before, op, after, run.replies[j]);
    }
    if after != before {
      WinGrows(before, op, after, run.replies[j]);
      assert false;
    }
  }

  /** A valid apply on the current version, not seen before, does get stored. */
  lemma FreshOnCurrentWins(before: seq<Row>, op: Op, after: seq<Row>, reply: Reply)
    requires Transaction(before, op, after, reply) && op.Apply? && op.changes.Some?
    requires op.base == |Of(before, op.preset)| && !Known(before, op.proposal)
    ensures var merged := Merge(SnapshotAt(Of(before, op.preset), op.base), op.changes.value);
      if merged.Some? then
        && Wins(before, op, after)
        && reply == Done(Row(op.preset, op.base + 1, true, merged.value, op.base, None, op.proposal))
      else after == before && reply == Rejected
  {
    hide Merge, Of;
    assert after != before ==> |after| == |before| + 1;
  }

  /** Accepting the same proposal again, for any preset and base, stores nothing and
      answers with a row carrying that proposal. */
  lemma RetryIsNoOp(run: Run, i: nat, j: nat)
    requires IsRun(run) && i < j < |run.ops| && Wins(run.states[i], run.ops[i], run.states[i + 1])
    requires run.ops[i].proposal.Some?
    requires run.ops[j].Apply? && run.ops[j].proposal == run.ops[i].proposal && run.ops[j].changes.Some?
    ensures run.states[j + 1] == run.states[j]
    ensures run.replies[j].Done? && run.replies[j].row.proposal == run.ops[i].proposal
  {
    hide Transaction, Of, Known;
    var p := run.ops[i].preset;
    WinGrows(run.states[i], run.ops[i], run.states[i + 1], run.replies[i]);
    RunAppendOnly(run, i + 1, j, p);
    var later := Of(run.states[j], p);
    assert later[run.ops[i].base].proposal == run.ops[i].proposal && later[run.ops[i].base] in later;
    KnownIsNoOp(run.states[j], run.ops[j], run.states[j + 1], run.replies[j], later[run.ops[i].base]);
  }

  lemma KnownIsNoOp(before: seq<Row>, op: Op, after: seq<Row>, reply: Reply, row: Row)
    requires Transaction(before, op, after, reply) && op.Apply? && op.changes.Some?
    requires op.proposal.Some? && row in before && row.proposal == op.proposal
    ensures after == before && reply.Done? && reply.row.proposal == op.proposal
  {
    hide Merge, Of;
  }

  // ---- replay ----

  /** What happened to one preset. */
  datatype Event = Accepted(changes: Overlay) | Restored(source: int)

  function Events(run: Run, i: nat, p: string): seq<Event>
    requires |run.states| == |run.ops| + 1 && i <= |run.ops|
  {
    if i == 0 then []
    else
      Events(run, i - 1, p)
      + (if run.states[i] == run.states[i - 1] then [] else EventOf(run.ops[i - 1], p))
  }

  ghost predicate EventsOk(events: seq<Event>) {
    forall k :: 0 <= k < |events| ==>
      && (events[k].Accepted? ==> ShortItems(events[k].changes.tools))
      && (events[k].Restored? ==> 0 <= events[k].source <= k)
  }

  /** The snapshot the events lead to. */
  function Replay(events: seq<Event>): Overlay
    requires EventsOk(events)
    decreases |events|
  {
    if events == [] then EMPTY
    else
      var n := |events| - 1;
      match events[n]
      case Accepted(c) => Layer(Replay(events[..n]), c)
      case Restored(v) => Replay(events[..v])
  }

  /** Every stored payload is the replay of the events up to it. */
  ghost predicate Replays(h: seq<Row>, events: seq<Event>) {
    && EventsOk(events)
    && |h| == |events|
    && forall k :: 0 <= k <= |h| ==> SnapshotAt(h, k) == Replay(events[..k])
  }

  lemma ReplaysSnoc(h: seq<Row>, events: seq<Event>, later: seq<Row>, e: Event)
    requires Replays(h, events) && EventsOk(events + [e])
    requires Extends(h, later) && |later| == |h| + 1
    requires later[|h|].payload == Replay(events + [e])
    ensures Replays(later, events + [e])
  {
    hide Layer;
    var all := events + [e];
    forall k | 0 <= k <= |later| ensures SnapshotAt(later, k) == Replay(all[..k]) {
      if k <= |h| {
        CutInFirst(events, [e], k);
        assert k > 0 ==> later[k - 1].payload == h[k - 1].payload;
      } else {
        assert all[..k] == all;
      }
    }
  }

  lemma ReplayLast(events: seq<Event>, e: Event)
    requires EventsOk(events) && EventsOk(events + [e])
    ensures e.Accepted? ==> Replay(events + [e]) == Layer(Replay(events), e.changes)
    ensures e.Restored? ==> Replay(events + [e]) == Replay(events[..e.source])
  {
    var all := events + [e];
    assert all[..|events|] == events;
    if e.Restored? {
      assert all[|events|].Restored?;
      CutInFirst(events, [e], e.source);
    }
  }

  lemma SnapshotReplays(h: seq<Row>, events: seq<Event>)
    requires Replays(h, events)
    ensures SnapshotAt(h, |h|) == Replay(events)
  {
    assert events[..|h|] == events;
  }

  lemma {:induction false} RunReplays(run: Run, i: nat, p: string)
    requires IsRun(run) && i <= |run.ops|
    ensures Replays(Of(run.states[i], p), Events(run, i, p))
  {
    hide Transaction, Replays, Inv, Of, EventOf;
    if i == 0 {
      NothingReplays(p);
    } else {
      RunReplays(run, i - 1, p);
      RunKeepsInv(run, i - 1);
      var before, after, op := run.states[i - 1], run.states[i], run.ops[i - 1];
      if before != after {
        EventReplays(before, op, after, run.replies[i - 1], p, Events(run, i - 1, p));
      } else {
        assert Events(run, i - 1, p) + [] == Events(run, i - 1, p);
      }
    }
  }

  lemma NothingReplays(p: string)
    ensures Replays(Of([], p), [])
  {
  }

  lemma ValidIsShort(o: Overlay)
    requires Valid(o)
    ensures ShortItems(o.tools)
  {
  }

  lemma LayerIsShort(a: Overlay, b: Overlay)
    requires ShortItems(a.tools) && ShortItems(b.tools)
    ensures ShortItems(Layer(a, b).tools)
  {
  }

  function EventOf(op: Op, p: string): seq<Event> {
    if op.preset != p then []
    else match op
      case Apply(_, changes, _, _) => if changes.Some? then [Accepted(changes.value)] else []
      case Rollback(_, source) => [Restored(source)]
  }

  lemma EventReplays(before: seq<Row>, op: Op, after: seq<Row>, reply: Reply, p: string, events: seq<Event>)
    requires Inv(before) && OpOk(op) && Transaction(before, op, after, reply) && before != after
    requires Replays(Of(before, p), events)
    ensures Replays(Of(after, p), events + EventOf(op, p))
  {
    hide Replays, Inv, Of, Layer, Fits, Valid, ShortItems;
    var h := Of(before, p);
    OfAppended(before, reply.row, p);
    if op.preset != p {
      assert events + [] == events;
    } else {
      TransactionKeepsInv(before, op, after, reply);
      ReplaysLength(h, events);
      match op
      case Apply(_, changes, _, _) =>
        ValidIsShort(changes.value);
        AcceptReplays(h, events, Of(after, p), changes.value);
      case Rollback(_, source) => RestoreReplays(h, events, Of(after, p), source);
    }
  }

  lemma ReplaysLength(h: seq<Row>, events: seq<Event>)
    requires Replays(h, events)
    ensures |h| == |events|
  {
  }

  lemma AcceptReplays(h: seq<Row>, events: seq<Event>, later: seq<Row>, c: Overlay)
    requires Replays(h, events) && ShortItems(c.tools)
    requires Extends(h, later) && |later| == |h| + 1 && later[|h|].payload == Layer(SnapshotAt(h, |h|), c)
    ensures Replays(later, events + [Accepted(c)])
  {
    hide Layer, ShortItems;
    SnapshotReplays(h, events);
    ReplayLast(events, Accepted(c));
    ReplaysSnoc(h, events, later, Accepted(c));
  }

  lemma RestoreReplays(h: seq<Row>, events: seq<Event>, later: seq<Row>, v: int)
    requires Replays(h, events) && 0 <= v <= |h|
    requires Extends(h, later) && |later| == |h| + 1 && later[|h|].payload == SnapshotAt(h, v)
    ensures Replays(later, events + [Restored(v)])
  {
    hide Layer, ShortItems;
    ReplayLast(events, Restored(v));
    ReplaysSnoc(h, events, later, Restored(v));
  }

  /** All changes accepted from event `from` on, combined in order. */
  function Combined(events: seq<Event>, from: nat): Overlay
    requires from <= |events|
    decreases |events|
  {
    if |events| == from then EMPTY
    else match events[|events| - 1]
      case Accepted(c) => Layer(Combined(events[..|events| - 1], from), c)
      case Restored(_) => EMPTY
  }

  ghost predicate AcceptedFrom(events: seq<Event>, from: nat) {
    from <= |events| && forall k :: from <= k < |events| ==> events[k].Accepted?
  }

  lemma LayerUnit(o: Overlay)
    ensures Layer(o, EMPTY) == o
  {
    AppendAllUnit(o.skills);
    ReplaceUnit(o.tools);
    ReplaceUnit(o.config);
  }

  lemma {:induction false} ReplayCombines(events: seq<Event>, from: nat)
    requires EventsOk(events) && AcceptedFrom(events, from)
    ensures Replay(events) == Layer(Replay(events[..from]), Combined(events, from))
    ensures ShortItems(Combined(events, from).tools)
    decreases |events|
  {
    hide Layer;
    if |events| == from {
      assert events[..from] == events;
      assert ShortItems(EMPTY.tools);
      LayerUnit(Replay(events));
    } else {
      var n := |events| - 1;
      ReplayCombines(events[..n], from);
      CutTwice(events, n, from);
      LayerIsShort(Combined(events[..n], from), events[n].changes);
      LayerAssoc(Replay(events[..from]), Combined(events[..n], from), events[n].changes);
    }
  }

  lemma CutTwice<T>(s: seq<T>, n: nat, k: nat)
    requires k <= n <= |s|
    ensures s[..n][..k] == s[..k]
  {
  }

  /** Snapshot the latest rollback restored, or the empty baseline. */
  function LatestSource(events: seq<Event>): (int, nat)
    ensures LatestSource(events).1 <= |events|
  {
    if events == [] then (0, 0)
    else match events[|events| - 1]
      case Accepted(_) => LatestSource(events[..|events| - 1])
      case Restored(v) => (v, |events|)
  }

  /** The latest rollback is the event before position `from` and restored version `v`; or
      there was none, and both are 0. */
  ghost predicate SinceRollback(events: seq<Event>, v: int, from: nat) {
    && 0 <= v <= from && AcceptedFrom(events, from)
    && if from == 0 then v == 0 else events[from - 1] == Restored(v)
  }

  lemma {:induction false} LatestSourceIs(events: seq<Event>)
    requires EventsOk(events)
    ensures var (v, from) := LatestSource(events);
      && 0 <= v <= from <= |events| && SinceRollback(events, v, from)
      && Replay(events[..from]) == Replay(events[..v])
  {
    hide Layer, ShortItems;
    if events != [] {
      var n := |events| - 1;
      match events[n] {
        case Accepted(_) =>
          LatestSourceIs(events[..n]);
          var (v, from) := LatestSource(events[..n]);
          CutTwice(events, n, from);
          CutTwice(events, n, v);
        case Restored(v) =>
          assert events[..|events|] == events;
      }
    }
  }

  /** At every point of every run, the active snapshot of every preset is the snapshot
      its latest rollback restored (or the empty baseline) merged with everything
      accepted since, in order, as one merge. */
  lemma ActiveIsReplay(run: Run, i: nat, p: string)
    requires IsRun(run) && i <= |run.ops|
    ensures var h, events := Of(run.states[i], p), Events(run, i, p);
      var (v, from) := LatestSource(events);
      && 0 <= v <= |h| && SinceRollback(events, v, from)
      && Merge(SnapshotAt(h, v), Combined(events, from)) == Some(SnapshotAt(h, |h|))
  {
    hide Layer, Transaction, Replay, Combined;
    var h, events := Of(run.states[i], p), Events(run, i, p);
    RunReplays(run, i, p);
    LatestSourceIs(events);
    var (v, from) := LatestSource(events);
    ReplayCombines(events, from);
    SnapshotReplays(h, events);
    RunKeepsValid(run, i);
    SnapshotValid(run.states[i], p, |h|);
  }

  // ---- what the active snapshot holds ----

  /** `end` is `start` after these changes in order: each key has the value of the last change
      that names it, or else what it had at the start. */
  ghost predicate LastWins<K(!new), V>(start: map<K, V>, changes: seq<map<K, V>>, end: map<K, V>) {
    && (forall k, n :: LastNaming(changes, k, n) ==> k in end && end[k] == changes[n][k])
    && (forall k :: NeverNamed(changes, k) ==> (k in end <==> k in start) && (k in end ==> end[k] == start[k]))
  }

  ghost predicate LastNaming<K, V>(changes: seq<map<K, V>>, k: K, n: int) {
    0 <= n < |changes| && k in changes[n] && forall m :: n < m < |changes| ==> k !in changes[m]
  }

  ghost predicate NeverNamed<K, V>(changes: seq<map<K, V>>, k: K) {
    forall n :: 0 <= n < |changes| ==> k !in changes[n]
  }

  lemma NoChange<K(!new), V>(start: map<K, V>)
    ensures LastWins(start, [], start)
  {
  }

  lemma OneMoreChange<K(!new), V>(start: map<K, V>, changes: seq<map<K, V>>, before: map<K, V>, more: map<K, V>, end: map<K, V>)
    requires LastWins(start, changes, before) && NewerWins(before, more, end)
    ensures LastWins(start, changes + [more], end)
  {
    var all := changes + [more];
    forall k, n | LastNaming(all, k, n) ensures k in end && end[k] == all[n][k] {
      if n < |changes| {
        assert k !in all[|changes|];
        assert forall m :: n < m < |changes| ==> all[m] == changes[m];
        assert LastNaming(changes, k, n);
      }
    }
    forall k | NeverNamed(all, k) ensures (k in end <==> k in start) && (k in end ==> end[k] == start[k]) {
      assert k !in all[|changes|];
      assert forall m :: 0 <= m < |changes| ==> all[m] == changes[m];
      assert NeverNamed(changes, k);
    }
  }

  /** The texts that are not empty, in order, with blank lines between them. */
  function JoinAll(parts: seq<string>): string {
    if parts == [] then "" else
      var front, last := JoinAll(parts[..|parts| - 1]), parts[|parts| - 1];
      if front != "" && last != "" then front + "\n\n" + last else front + last
  }

  lemma JoinAllNext(parts: seq<string>, more: string)
    ensures JoinAll(parts + [more]) == JoinParts(JoinAll(parts), more)
    ensures JoinAll([more]) == more
  {
    assert (parts + [more])[..|parts|] == parts;
    assert [more][..0] == [];
  }

  /** What the changes accepted from event `from` on say about one part. */
  function PartsFrom<T>(events: seq<Event>, from: nat, part: Overlay -> T): (r: seq<T>)
    requires AcceptedFrom(events, from)
    ensures |r| == |events| - from && forall k :: 0 <= k < |r| ==> r[k] == part(events[from + k].changes)
  {
    seq(|events| - from, k requires 0 <= k < |events| - from => part(events[from + k].changes))
  }

  lemma PartsNext<T>(events: seq<Event>, from: nat, part: Overlay -> T)
    requires AcceptedFrom(events, from) && from < |events|
    ensures AcceptedFrom(events[..|events| - 1], from)
    ensures PartsFrom(events, from, part)
            == PartsFrom(events[..|events| - 1], from, part) + [part(events[|events| - 1].changes)]
  {
  }

  function Tools(o: Overlay): map<string, string> { o.tools }

  function Settings(o: Overlay): map<ConfigKey, real> { o.config }

  function Prompt(o: Overlay): string { o.prompt }

  /** The text of one skill, empty when there is none. */
  function Skill(name: string): Overlay -> string {
    (o: Overlay) => if name in o.skills then o.skills[name] else ""
  }

  /** `now` is `start` after the changes accepted from event `from` on. */
  ghost predicate Holds(start: Overlay, events: seq<Event>, from: nat, now: Overlay)
    requires AcceptedFrom(events, from)
  {
    && LastWins(start.tools, PartsFrom(events, from, Tools), now.tools)
    && LastWins(start.config, PartsFrom(events, from, Settings), now.config)
    && now.prompt == JoinAll([start.prompt] + PartsFrom(events, from, Prompt))
    && forall name :: Skill(name)(now) == JoinAll([Skill(name)(start)] + PartsFrom(events, from, Skill(name)))
  }

  lemma NothingHeld(start: Overlay, events: seq<Event>)
    ensures AcceptedFrom(events, |events|) && Holds(start, events, |events|, start)
  {
    NoChange(start.tools);
    NoChange(start.config);
    assert PartsFrom(events, |events|, Tools) == [] && PartsFrom(events, |events|, Settings) == [];
    assert [start.prompt] + PartsFrom(events, |events|, Prompt) == [start.prompt];
    JoinAllNext([], start.prompt);
    forall name ensures Skill(name)(start) == JoinAll([Skill(name)(start)] + PartsFrom(events, |events|, Skill(name))) {
      assert [Skill(name)(start)] + PartsFrom(events, |events|, Skill(name)) == [Skill(name)(start)];
      JoinAllNext([], Skill(name)(start));
    }
  }

  lemma SkillLayered(a: Overlay, b: Overlay, name: string)
    ensures Skill(name)(Layer(a, b)) == JoinParts(Skill(name)(a), Skill(name)(b))
  {
    hide JoinParts;
    LookupAppended(a.skills, b.skills, name);
  }

  lemma TextNext(start: string, parts: seq<string>, now: string, more: string)
    requires now == JoinAll([start] + parts)
    ensures JoinParts(now, more) == JoinAll([start] + (parts + [more]))
  {
    hide JoinParts, JoinAll;
    JoinAllNext([start] + parts, more);
    Regroup([start], parts, [more]);
  }

  lemma HoldsNext(start: Overlay, events: seq<Event>, from: nat, now: Overlay)
    requires AcceptedFrom(events, from) && from < |events|
    requires AcceptedFrom(events[..|events| - 1], from) && Holds(start, events[..|events| - 1], from, now)
    ensures Holds(start, events, from, Layer(now, events[|events| - 1].changes))
  {
    hide LastWins, JoinAll, NewerWins, AppendAll, JoinParts;
    var front, c := events[..|events| - 1], events[|events| - 1].changes;
    PartsNext(events, from, Tools);
    ReplacedAre(now.tools, c.tools);
    OneMoreChange(start.tools, PartsFrom(front, from, Tools), now.tools, c.tools, now.tools + c.tools);
    PartsNext(events, from, Settings);
    ReplacedAre(now.config, c.config);
    OneMoreChange(start.config, PartsFrom(front, from, Settings), now.config, c.config, now.config + c.config);
    PartsNext(events, from, Prompt);
    TextNext(start.prompt, PartsFrom(front, from, Prompt), now.prompt, c.prompt);
    forall name
      ensures Skill(name)(Layer(now, c)) == JoinAll([Skill(name)(start)] + PartsFrom(events, from, Skill(name)))
    {
      PartsNext(events, from, Skill(name));
      SkillLayered(now, c, name);
      TextNext(Skill(name)(start), PartsFrom(front, from, Skill(name)), Skill(name)(now), Skill(name)(c));
    }
  }

  lemma {:induction false} ReplayHolds(events: seq<Event>, v: int, from: nat)
    requires EventsOk(events) && SinceRollback(events, v, from)
    ensures Holds(Replay(events[..v]), events, from, Replay(events))
    decreases |events|
  {
    hide Layer, Holds, ShortItems;
    if |events| == from {
      assert events[..|events|] == events;
      if from > 0 {
        assert events[from - 1] == Restored(v);
      }
      NothingHeld(Replay(events[..v]), events);
    } else {
      var n := |events| - 1;
      ReplayHolds(events[..n], v, from);
      CutTwice(events, n, v);
      HoldsNext(Replay(events[..v]), events, from, Replay(events[..n]));
    }
  }

  /** At every point of every run, for every preset and its latest rollback (or the empty
      baseline): a tool or config key of the active snapshot has the value of the last change
      accepted since that names it, or else what it had in the restored snapshot; the prompt
      and each skill are the restored text followed by all that was accepted since. */
  lemma ActiveHolds(run: Run, i: nat, p: string, v: int, from: nat)
    requires IsRun(run) && i <= |run.ops| && SinceRollback(Events(run, i, p), v, from)
    ensures var h := Of(run.states[i], p);
      v <= |h| && Holds(SnapshotAt(h, v), Events(run, i, p), from, SnapshotAt(h, |h|))
  {
    hide Layer, Transaction, Replay, Holds, Events;
    var h, events := Of(run.states[i], p), Events(run, i, p);
    RunReplays(run, i, p);
    ReplayHolds(events, v, from);
    SnapshotReplays(h, events);
    assert v <= |h| && SnapshotAt(h, v) == Replay(events[..v]);
  }
}

/** Range-partitioned parallel download into one preallocated file. */
module ParallelDownload {

  type Byte = x: int | 0 <= x < 256

  const MIN_PART: nat := 33554432 // 32 << 20

  // ---- the partition ----

  function MinOf(a: int, b: int): int { if a < b then a else b }

  function MaxOf(a: int, b: int): int { if a < b then b else a }

  /** `_streams()`: the configured count, at least 1. */
  function StreamCount(streams: int, total: nat): int {
    MaxOf(1, MinOf(streams, total / MIN_PART))
  }

  /** Whether a download is split at all; an unknown size is 0. */
  predicate Splits(streams: int, total: nat) {
    total >= 2 * MIN_PART && streams > 1
  }

  /** Where stream `i` of `n` starts; it ends before `Bound(i + 1, ...)`. */
  function Bound(i: nat, n: nat, total: nat): nat
    requires n > 0
  {
    i * total / n
  }

  lemma QuotientBetween(a: int, n: nat, q: int)
    requires n > 0
    ensures q * n <= a ==> q <= a / n
    ensures a < (q + 1) * n ==> a / n <= q
  {
    var d, r := a / n, a % n;
    assert a == d * n + r;
    assert (d + 1) * n == d * n + n;
    if d < q {
      MulMono(d + 1, q, n);
    } else if d > q {
      MulMono(q + 1, d, n);
    }
  }

  lemma MulMono(a: int, b: int, n: nat)
    requires a <= b
    ensures a * n <= b * n
  {
    assert (b - a) * n >= 0;
    assert (b - a) * n == b * n - a * n;
  }

  /** Every range holds at least `part` bytes when `n` parts of that size fit. */
  lemma RangeHolds(i: nat, n: nat, total: nat, part: nat)
    requires n > 0 && n * part <= total
    ensures Bound(i + 1, n, total) - Bound(i, n, total) >= part
  {
    var q := Bound(i, n, total);
    var it := i * total;
    assert (i + 1) * total == it + total;
    assert q * n <= it by {
      assert it == q * n + it % n;
    }
    assert (q + part) * n == q * n + n * part;
    QuotientBetween(it + total, n, q + part);
  }

  lemma BoundEnds(n: nat, total: nat)
    requires n > 0
    ensures Bound(0, n, total) == 0 && Bound(n, n, total) == total
  {
    QuotientBetween(n * total, n, total);
    assert total * n == n * total;
    assert (total + 1) * n == n * total + n;
  }

  /** Bounds that start at 0, end at `total` and grow by at least `part` a step. */
  ghost predicate Partition(bounds: seq<nat>, total: nat, part: nat) {
    && |bounds| >= 2 && bounds[0] == 0 && bounds[|bounds| - 1] == total
    && forall i :: 0 <= i < |bounds| - 1 ==> bounds[i + 1] - bounds[i] >= part
  }

  /** The computed ranges of a split download: at least two streams, no more than were
      asked for, each of at least 32 MiB, one after the other from 0 to `total`. */
  lemma RangesPartition(streams: int, total: nat)
    requires Splits(streams, total)
    ensures var n := StreamCount(streams, total);
      && 2 <= n <= streams
      && Partition(seq(n + 1, i requires 0 <= i < n + 1 => Bound(i, n, total)), total, MIN_PART)
  {
    var n := StreamCount(streams, total);
    QuotientBetween(total, MIN_PART, 2);
    assert n * MIN_PART <= total by {
      assert n <= total / MIN_PART;
      MulMono(n, total / MIN_PART, MIN_PART);
    }
    BoundEnds(n, total);
    forall i | 0 <= i < n ensures Bound(i + 1, n, total) - Bound(i, n, total) >= MIN_PART {
      RangeHolds(i, n, total, MIN_PART);
    }
  }

  /** How many streams: as many as were asked for, unless the ranges would become smaller than
      32 MiB; and a download is split exactly when that leaves two. */
  lemma StreamsAreMaximal(streams: int, total: nat)
    ensures var n := StreamCount(streams, total);
      && (Splits(streams, total) <==> n >= 2)
      && (n >= 2 ==> n * 33554432 <= total && (n == streams || (n < streams && total < (n + 1) * 33554432)))
      && (n < 2 ==> n == 1 && (streams <= 1 || total < 67108864))
  {
    var q := total / 33554432;
    assert q * 33554432 <= total < (q + 1) * 33554432;
  }

  /** The ranges are as even as whole bytes allow. */
  lemma RangesEven(i: nat, n: nat, total: nat)
    requires n > 0
    ensures var size := Bound(i + 1, n, total) - Bound(i, n, total); total / n <= size <= total / n + 1
  {
    var q, r, it := total / n, total % n, i * total;
    var b := it / n;
    assert total == q * n + r && it == b * n + it % n;
    assert (i + 1) * total == it + total;
    assert (b + q) * n == b * n + q * n;
    assert (b + q + 2) * n == b * n + q * n + 2 * n;
    QuotientBetween(it + total, n, b + q);
    QuotientBetween(it + total, n, b + q + 1);
  }

  lemma {:induction false} BoundsGrow(bounds: seq<nat>, total: nat, part: nat, i: nat, j: nat)
    requires Partition(bounds, total, part) && i <= j < |bounds|
    ensures bounds[i] <= bounds[j]
  {
    if i < j {
      BoundsGrow(bounds, total, part, i, j - 1);
    }
  }

  ghost predicate Owns(bounds: seq<nat>, i: nat, k: nat) {
    i + 1 < |bounds| && bounds[i] <= k < bounds[i + 1]
  }

  /** Non-empty, pairwise disjoint and covering: every byte has exactly one stream. */
  lemma {:induction false} OwnerExists(bounds: seq<nat>, total: nat, part: nat, k: nat, upto: nat) returns (i: nat)
    requires Partition(bounds, total, part) && upto < |bounds| && k < bounds[upto]
    ensures Owns(bounds, i, k)
  {
    if bounds[upto - 1] <= k {
      i := upto - 1;
    } else {
      i := OwnerExists(bounds, total, part, k, upto - 1);
    }
  }

  lemma OwnerUnique(bounds: seq<nat>, total: nat, part: nat, k: nat, i: nat, j: nat)
    requires Partition(bounds, total, part) && Owns(bounds, i, k) && Owns(bounds, j, k)
    ensures i == j
  {
    if i < j {
      BoundsGrow(bounds, total, part, i + 1, j);
    } else if j < i {
      BoundsGrow(bounds, total, part, j + 1, i);
    }
  }

  // ---- the workers ----

  datatype Phase = Reading | Finished | Failed

  /** One stream: attempt 1 or 2, and the next offset. `high`, the highest offset any attempt
      reached, is bookkeeping of this model. */
  datatype Worker = Worker(attempt: nat, pos: nat, high: nat, phase: Phase)

  /** What may happen next to one worker: a chunk arrives, its response ends, or it fails
      (a transport error, or a stop request it saw). Cancelling may come at any time. */
  datatype Event = Chunk(i: nat, len: nat) | Eof(i: nat) | Fault(i: nat) | Cancel

  function Advance(workers: seq<Worker>, bounds: seq<nat>): int
    requires |workers| < |bounds|
  {
    if workers == [] then 0 else
      var n := |workers| - 1;
      Advance(workers[..n], bounds) + workers[n].pos - bounds[n]
  }

  lemma {:induction false} AdvanceUpdate(workers: seq<Worker>, bounds: seq<nat>, i: nat, w: Worker)
    requires |workers| < |bounds| && i < |workers|
    ensures Advance(workers[i := w], bounds) == Advance(workers, bounds) + w.pos - workers[i].pos
  {
    var n := |workers| - 1;
    if i == n {
      assert workers[i := w][..n] == workers[..n];
    } else {
      AdvanceUpdate(workers[..n], bounds, i, w);
      assert workers[i := w][..n] == workers[..n][i := w];
    }
  }

  function Room(bounds: seq<nat>, i: nat): int
    requires i + 1 < |bounds|
  {
    var lo: int, hi: int := bounds[i], bounds[i + 1];
    hi - lo
  }

  /** The room of the ranges that have been restarted. */
  function RestartedRoom(workers: seq<Worker>, bounds: seq<nat>): int
    requires |workers| < |bounds|
  {
    if workers == [] then 0 else
      var n := |workers| - 1;
      RestartedRoom(workers[..n], bounds) + if workers[n].attempt == 1 then 0 else Room(bounds, n)
  }

  lemma {:induction false} RoomUpdate(workers: seq<Worker>, bounds: seq<nat>, i: nat, w: Worker)
    requires |workers| < |bounds| && i < |workers|
    ensures var room := Room(bounds, i);
      RestartedRoom(workers[i := w], bounds) == RestartedRoom(workers, bounds)
        + (if w.attempt == 1 then 0 else room) - (if workers[i].attempt == 1 then 0 else room)
  {
    var n := |workers| - 1;
    if i == n {
      assert workers[i := w][..n] == workers[..n];
    } else {
      RoomUpdate(workers[..n], bounds, i, w);
      assert workers[i := w][..n] == workers[..n][i := w];
    }
  }

  lemma {:induction false} RoomStart(workers: seq<Worker>, bounds: seq<nat>)
    requires |workers| < |bounds| && forall i :: 0 <= i < |workers| ==> workers[i].attempt == 1
    ensures RestartedRoom(workers, bounds) == 0
  {
    if workers != [] {
      RoomStart(workers[..|workers| - 1], bounds);
    }
  }

  /** Neither the progress of the current attempts nor the room of the restarted ranges is
      more than the whole prefix. */
  lemma {:induction false} RoomIsBounded(workers: seq<Worker>, bounds: seq<nat>)
    requires |workers| < |bounds| && bounds[0] == 0
    requires forall i :: 0 <= i < |workers| ==> bounds[i] <= workers[i].pos <= bounds[i + 1]
    ensures RestartedRoom(workers, bounds) <= bounds[|workers|] && Advance(workers, bounds) <= bounds[|workers|]
  {
    if workers != [] {
      var n := |workers| - 1;
      RoomIsBounded(workers[..n], bounds);
      assert bounds[n] <= workers[n].pos <= bounds[n + 1];
    }
  }

  lemma {:induction false} AdvanceStart(workers: seq<Worker>, bounds: seq<nat>)
    requires |workers| < |bounds| && forall i :: 0 <= i < |workers| ==> workers[i].pos == bounds[i]
    ensures Advance(workers, bounds) == 0
  {
    if workers != [] {
      AdvanceStart(workers[..|workers| - 1], bounds);
    }
  }

  /** Streams that all reached their end have advanced over the whole prefix. */
  lemma {:induction false} AdvanceFull(workers: seq<Worker>, bounds: seq<nat>)
    requires |workers| < |bounds| && bounds[0] == 0
    requires forall i :: 0 <= i < |workers| ==> workers[i].pos == bounds[i + 1]
    ensures Advance(workers, bounds) == bounds[|workers|]
  {
    if workers != [] {
      AdvanceFull(workers[..|workers| - 1], bounds);
    }
  }

  /** A worker between its bounds; only a restart falls behind what was written before. */
  predicate Placed(w: Worker, lo: nat, hi: nat) {
    && lo <= w.pos <= w.high <= hi && w.attempt in {1, 2}
    && (w.attempt == 1 ==> w.pos == w.high)
  }

  ghost predicate AllPlaced(workers: seq<Worker>, bounds: seq<nat>) {
    |bounds| == |workers| + 1 && forall i :: 0 <= i < |workers| ==> Placed(workers[i], bounds[i], bounds[i + 1])
  }

  /** Between `lo` and `hi` the file shows the remote bytes up to `high` and zeros above. */
  ghost predicate Shows(file: seq<Byte>, remote: seq<Byte>, lo: nat, high: nat, hi: nat) {
    && |file| == |remote| && lo <= hi <= |remote|
    && forall k :: lo <= k < hi ==> file[k] == if k < high then remote[k] else 0
  }

  ghost predicate AllShow(file: seq<Byte>, remote: seq<Byte>, workers: seq<Worker>, bounds: seq<nat>) {
    && |file| == |remote| && |bounds| == |workers| + 1
    && forall i :: 0 <= i < |workers| ==> Shows(file, remote, bounds[i], workers[i].high, bounds[i + 1])
  }

  /** The file after `len` bytes of the remote were written at `pos`. */
  function Written(file: seq<Byte>, remote: seq<Byte>, pos: nat, len: nat): (r: seq<Byte>)
    requires |file| == |remote| && pos + len <= |file|
    ensures |r| == |file|
    ensures forall k :: 0 <= k < |file| ==> r[k] == if pos <= k < pos + len then remote[k] else file[k]
  {
    file[..pos] + remote[pos..pos + len] + file[pos + len..]
  }

  lemma ChunkShows(file: seq<Byte>, remote: seq<Byte>, lo: nat, w: Worker, hi: nat, len: nat)
    requires Placed(w, lo, hi) && Shows(file, remote, lo, w.high, hi)
    requires w.pos + len <= hi
    ensures Shows(Written(file, remote, w.pos, len), remote, lo, MaxOf(w.high, w.pos + len), hi)
  {
  }

  lemma OthersShow(file: seq<Byte>, remote: seq<Byte>, pos: nat, len: nat, lo: nat, high: nat, hi: nat)
    requires Shows(file, remote, lo, high, hi)
    requires pos + len <= |remote| && (pos + len <= lo || hi <= pos)
    ensures Shows(Written(file, remote, pos, len), remote, lo, high, hi)
  {
  }

  /** A write inside one range leaves what every other stream wrote. */
  lemma WriteShows(file: seq<Byte>, remote: seq<Byte>, workers: seq<Worker>, bounds: seq<nat>, i: nat, len: nat)
    requires Partition(bounds, |remote|, 1) && AllShow(file, remote, workers, bounds) && AllPlaced(workers, bounds)
    requires i < |workers| && workers[i].pos + len <= bounds[i + 1] <= |remote|
    ensures var w := workers[i];
      AllShow(Written(file, remote, w.pos, len), remote,
              workers[i := w.(pos := w.pos + len, high := MaxOf(w.high, w.pos + len))], bounds)
  {
    hide Shows, Partition;
    var w := workers[i];
    forall j | 0 <= j < |workers|
      ensures Shows(Written(file, remote, w.pos, len), remote, bounds[j],
                    if j == i then MaxOf(w.high, w.pos + len) else workers[j].high, bounds[j + 1])
    {
      if j == i {
        ChunkShows(file, remote, bounds[i], w, bounds[i + 1], len);
      } else {
        if j < i {
          BoundsGrow(bounds, |remote|, 1, j + 1, i);
        } else {
          BoundsGrow(bounds, |remote|, 1, i + 1, j);
        }
        OthersShow(file, remote, w.pos, len, bounds[j], workers[j].high, bounds[j + 1]);
      }
    }
  }

  /** Replacing a worker by one with the same high mark changes nothing that is shown. */
  lemma SameHighShows(file: seq<Byte>, remote: seq<Byte>, workers: seq<Worker>, bounds: seq<nat>, i: nat, w: Worker)
    requires AllShow(file, remote, workers, bounds) && i < |workers| && w.high == workers[i].high
    ensures AllShow(file, remote, workers[i := w], bounds)
  {
    hide Shows;
  }

  lemma PlaceNext(workers: seq<Worker>, bounds: seq<nat>, i: nat, w: Worker)
    requires AllPlaced(workers, bounds) && i < |workers| && Placed(w, bounds[i], bounds[i + 1])
    ensures AllPlaced(workers[i := w], bounds)
    ensures Advance(workers[i := w], bounds) == Advance(workers, bounds) + w.pos - workers[i].pos
    ensures var room := Room(bounds, i);
      RestartedRoom(workers[i := w], bounds) == RestartedRoom(workers, bounds)
        + (if w.attempt == 1 then 0 else room) - (if workers[i].attempt == 1 then 0 else room)
  {
    hide Placed;
    AdvanceUpdate(workers, bounds, i, w);
    RoomUpdate(workers, bounds, i, w);
  }

  ghost predicate SomeFailed(workers: seq<Worker>) {
    exists i :: 0 <= i < |workers| && workers[i].phase.Failed?
  }

  lemma NextFailed(workers: seq<Worker>, i: nat, w: Worker)
    requires i < |workers|
    ensures SomeFailed(workers[i := w]) ==> SomeFailed(workers) || w.phase.Failed?
  {
  }

  class Download {
    const remote: seq<Byte>
    const bounds: seq<nat>
    const file: array<Byte>
    var workers: seq<Worker>
    var done: nat
    var stopped: bool
    var cancelled: bool
    var errors: nat
    /** Bytes that attempts which failed had delivered. */
    ghost var wasted: nat

    ghost predicate Valid()
      reads this, file
    {
      && Partition(bounds, |remote|, 1)
      && AllPlaced(workers, bounds)
      && AllShow(file[..], remote, workers, bounds)
      && (stopped <==> errors > 0)
      && (SomeFailed(workers) ==> errors > 0)
      && done == Advance(workers, bounds) + wasted
      && wasted <= RestartedRoom(workers, bounds)
    }

    constructor (remote: seq<Byte>, streams: int)
      requires Splits(streams, |remote|)
      ensures Valid() && fresh(file) && this.remote == remote
      ensures errors == 0 && !cancelled && wasted == 0 && done == 0
      ensures |workers| == StreamCount(streams, |remote|) > 0 && |bounds| == |workers| + 1
      ensures forall i :: 0 <= i < |bounds| ==> bounds[i] == Bound(i, |workers|, |remote|)
      ensures forall i :: 0 <= i < |workers| ==> workers[i] == Worker(1, bounds[i], bounds[i], Reading)
    {
      hide Partition, AllShow, AllPlaced, Bound, StreamCount;
      var total := |remote|;
      var n := StreamCount(streams, total);
      RangesPartition(streams, total);
      var starts := seq(n + 1, i requires 0 <= i < n + 1 => Bound(i, n, total));
      var ws := seq(n, i requires 0 <= i < n => Worker(1, starts[i], starts[i], Reading));
      FreshWorkers(remote, starts, ws);
      this.remote := remote;
      bounds := starts;
      file := new Byte[total](k => 0);
      workers := ws;
      done, stopped, cancelled, errors, wasted := 0, false, false, 0, 0;
      new;
      assert file[..] == seq(total, k => 0);
    }

    /** A chunk of `len` bytes of the requested range arrives and is written at its offset. */
    method TakeChunk(i: nat, len: nat)
      requires Valid() && i < |workers| && workers[i].phase.Reading?
      requires 0 < len && i + 1 < |bounds| && workers[i].pos + len <= bounds[i + 1]
      modifies this`workers, this`done, file
      ensures Valid()
      ensures var w := old(workers[i]);
        workers == old(workers)[i := w.(pos := w.pos + len, high := MaxOf(w.high, w.pos + len))]
      ensures done == old(done) + len
    {
      hide Partition, AllShow, Advance, RestartedRoom, SomeFailed;
      var w := workers[i];
      ChunkFits(file[..], remote, workers, bounds, i);
      var next := w.(pos := w.pos + len, high := MaxOf(w.high, w.pos + len));
      PlaceNext(workers, bounds, i, next);
      NextFailed(workers, i, next);
      WriteShows(file[..], remote, workers, bounds, i, len);
      forall k | w.pos <= k < w.pos + len {
        file[k] := remote[k];
      }
      assert file[..] == Written(old(file[..]), remote, w.pos, len);
      workers := workers[i := next];
      done := done + len;
    }

    /** The response ends; the worker returns without looking at how much it got. */
    method EndOfResponse(i: nat)
      requires Valid() && i < |workers| && workers[i].phase.Reading?
      modifies this`workers
      ensures Valid()
      ensures workers == old(workers)[i := old(workers[i]).(phase := Finished)]
    {
      hide Partition, AllShow, Advance, RestartedRoom, SomeFailed;
      var next := workers[i].(phase := Finished);
      PlaceNext(workers, bounds, i, next);
      NextFailed(workers, i, next);
      SameHighShows(file[..], remote, workers, bounds, i, next);
      workers := workers[i := next];
    }

    /** An attempt fails: the second failure, or a failure while stopping, is recorded and
        stops the siblings; the first attempt is followed by one restart of the range. */
    method AttemptFails(i: nat)
      requires Valid() && i < |workers| < |bounds| && workers[i].phase.Reading?
      modifies this`workers, this`errors, this`stopped, this`wasted
      ensures Valid()
      ensures var w := old(workers[i]);
        workers == old(workers)[i := if w.attempt == 1 then w.(attempt := 2, pos := bounds[i]) else w.(phase := Failed)]
      ensures errors == old(errors) + (if old(stopped || cancelled) || old(workers[i]).attempt == 2 then 1 else 0)
      ensures wasted == old(wasted) + (if old(workers[i]).attempt == 1 then old(workers[i]).pos - bounds[i] else 0)
    {
      hide Partition, AllShow, Advance, RestartedRoom, SomeFailed;
      var w := workers[i];
      assert Placed(w, bounds[i], bounds[i + 1]);
      if stopped || cancelled || w.attempt == 2 {
        errors := errors + 1;
        stopped := true;
      }
      var next := if w.attempt == 1 then w.(attempt := 2, pos := bounds[i]) else w.(phase := Failed);
      PlaceNext(workers, bounds, i, next);
      NextFailed(workers, i, next);
      SameHighShows(file[..], remote, workers, bounds, i, next);
      if w.attempt == 1 {
        wasted := wasted + (w.pos - bounds[i]);
      }
      workers := workers[i := next];
    }

    method CancelRun()
      requires Valid()
      modifies this`cancelled
      ensures Valid() && cancelled
    {
      cancelled := true;
    }
  }

  /** What the steps of a script decide: the workers, the recorded errors, the cancel. */
  datatype Flow = Flow(workers: seq<Worker>, errors: nat, cancelled: bool)

  /** One step, told on the workers' ranges: a chunk that fits moves its stream on; the end of
      a response ends it; a failure restarts the first attempt, ends the second, and is
      recorded for the second or while the download is stopping. Anything else is ignored. */
  function Next(bounds: seq<nat>, s: Flow, e: Event): Flow {
    if e.Cancel? then s.(cancelled := true)
    else if !(e.i < |s.workers| < |bounds| && s.workers[e.i].phase.Reading?) then s
    else
      var w := s.workers[e.i];
      match e
      case Chunk(i, len) =>
        if 0 < len && w.pos + len <= bounds[i + 1] then
          s.(workers := s.workers[i := w.(pos := w.pos + len, high := MaxOf(w.high, w.pos + len))])
        else s
      case Eof(i) => s.(workers := s.workers[i := w.(phase := Finished)])
      case Fault(i) =>
        Flow(s.workers[i := if w.attempt == 1 then w.(attempt := 2, pos := bounds[i]) else w.(phase := Failed)],
             s.errors + (if s.errors > 0 || s.cancelled || w.attempt == 2 then 1 else 0), s.cancelled)
  }

  function Played(bounds: seq<nat>, s: Flow, script: seq<Event>): Flow {
    if script == [] then s else Next(bounds, Played(bounds, s, script[..|script| - 1]), script[|script| - 1])
  }

  lemma ChunkFits(file: seq<Byte>, remote: seq<Byte>, workers: seq<Worker>, bounds: seq<nat>, i: nat)
    requires AllShow(file, remote, workers, bounds) && i < |workers|
    ensures |file| == |remote| && |bounds| == |workers| + 1 && bounds[i + 1] <= |remote|
  {
    assert Shows(file, remote, bounds[i], workers[i].high, bounds[i + 1]);
  }

  lemma FreshWorkers(remote: seq<Byte>, bounds: seq<nat>, workers: seq<Worker>)
    requires Partition(bounds, |remote|, MIN_PART) && |workers| == |bounds| - 1
    requires forall i :: 0 <= i < |workers| ==> workers[i] == Worker(1, bounds[i], bounds[i], Reading)
    ensures Partition(bounds, |remote|, 1) && AllPlaced(workers, bounds)
    ensures Advance(workers, bounds) == 0 && RestartedRoom(workers, bounds) == 0
    ensures AllShow(seq(|remote|, k => 0), remote, workers, bounds) && !SomeFailed(workers)
  {
    AdvanceStart(workers, bounds);
    RoomStart(workers, bounds);
    var zeros := seq(|remote|, k => 0);
    forall i | 0 <= i < |workers|
      ensures Placed(workers[i], bounds[i], bounds[i + 1])
      ensures Shows(zeros, remote, bounds[i], workers[i].high, bounds[i + 1])
    {
      BoundsGrow(bounds, |remote|, MIN_PART, i + 1, |workers|);
    }
  }

  // ---- the finished file ----

  ghost predicate AllDone(workers: seq<Worker>) {
    forall i :: 0 <= i < |workers| ==> !workers[i].phase.Reading?
  }

  /** Whatever no attempt delivered is zero in the remote file as well. */
  ghost predicate GapsAreZero(remote: seq<Byte>, workers: seq<Worker>, bounds: seq<nat>)
    requires |bounds| == |workers| + 1
  {
    forall i :: 0 <= i < |workers| ==> ZeroBetween(remote, workers[i].high, bounds[i + 1])
  }

  ghost predicate ZeroBetween(remote: seq<Byte>, lo: nat, hi: nat) {
    forall k :: lo <= k < hi && k < |remote| ==> remote[k] == 0
  }

  /** Every range was delivered to its end. */
  ghost predicate AllDelivered(workers: seq<Worker>, bounds: seq<nat>)
    requires |bounds| == |workers| + 1
  {
    forall i :: 0 <= i < |workers| ==> workers[i].pos == bounds[i + 1]
  }

  lemma ShownIsRemote(file: seq<Byte>, remote: seq<Byte>, lo: nat, high: nat, hi: nat)
    requires Shows(file, remote, lo, high, hi) && lo <= high
    ensures (forall k :: lo <= k < hi ==> file[k] == remote[k]) <==> ZeroBetween(remote, high, hi)
  {
    if forall k :: lo <= k < hi ==> file[k] == remote[k] {
      forall k | high <= k < hi && k < |remote| ensures remote[k] == 0 {
        assert file[k] == remote[k];
      }
    }
  }

  /** The file equals the remote one exactly when what is missing is zero anyway: a response
      that ends early is not noticed. */
  lemma FileIsRemote(file: seq<Byte>, remote: seq<Byte>, workers: seq<Worker>, bounds: seq<nat>)
    requires Partition(bounds, |remote|, 1) && AllPlaced(workers, bounds) && AllShow(file, remote, workers, bounds)
    ensures file == remote <==> GapsAreZero(remote, workers, bounds)
  {
    hide Shows, ZeroBetween;
    forall i | 0 <= i < |workers|
      ensures Shows(file, remote, bounds[i], workers[i].high, bounds[i + 1]) && bounds[i] <= workers[i].high
    {
      assert Placed(workers[i], bounds[i], bounds[i + 1]);
    }
    if GapsAreZero(remote, workers, bounds) {
      forall k | 0 <= k < |remote| ensures file[k] == remote[k] {
        var i := OwnerExists(bounds, |remote|, 1, k, |workers|);
        ShownIsRemote(file, remote, bounds[i], workers[i].high, bounds[i + 1]);
      }
    }
    if file == remote {
      forall i | 0 <= i < |workers| ensures ZeroBetween(remote, workers[i].high, bounds[i + 1]) {
        ShownIsRemote(file, remote, bounds[i], workers[i].high, bounds[i + 1]);
      }
    }
  }

  /** Full delivery without a recorded error gives the remote file, and the progress
      counter shows its size plus whatever restarted attempts had delivered before. */
  lemma DeliveredIsRemote(d: Download)
    requires d.Valid() && AllDelivered(d.workers, d.bounds)
    ensures d.file[..] == d.remote && |d.remote| <= d.done == |d.remote| + d.wasted <= 2 * |d.remote|
  {
    hide AllShow, Partition, Advance, RestartedRoom;
    ProgressIsBounded(d);
    assert d.bounds[0] == 0 && d.bounds[|d.workers|] == |d.remote| by {
      EndsOf(d.bounds, |d.remote|);
    }
    AdvanceFull(d.workers, d.bounds);
    forall i | 0 <= i < |d.workers| ensures ZeroBetween(d.remote, d.workers[i].high, d.bounds[i + 1]) {
      assert Placed(d.workers[i], d.bounds[i], d.bounds[i + 1]);
    }
    FileIsRemote(d.file[..], d.remote, d.workers, d.bounds);
  }

  /** Each range is restarted at most once, so whatever happens, at any time, the bytes
      fetched in vain are no more than the file, and the progress counter never passes twice
      its size. */
  lemma ProgressIsBounded(d: Download)
    requires d.Valid()
    ensures d.wasted <= |d.remote| && d.done <= |d.remote| + d.wasted
  {
    hide AllShow, Partition, Advance, RestartedRoom, SomeFailed;
    EndsOf(d.bounds, |d.remote|);
    forall i | 0 <= i < |d.workers| ensures d.bounds[i] <= d.workers[i].pos <= d.bounds[i + 1] {
      assert Placed(d.workers[i], d.bounds[i], d.bounds[i + 1]);
    }
    RoomIsBounded(d.workers, d.bounds);
  }

  lemma EndsOf(bounds: seq<nat>, total: nat)
    requires Partition(bounds, total, 1)
    ensures |bounds| >= 2 && bounds[0] == 0 && bounds[|bounds| - 1] == total
  {
  }

  /** One step of a script; a step that cannot happen in this state is ignored. */
  method Happens(d: Download, e: Event)
    requires d.Valid()
    modifies d, d.file
    ensures d.Valid()
    ensures Flow(d.workers, d.errors, d.cancelled) == Next(d.bounds, Flow(old(d.workers), old(d.errors), old(d.cancelled)), e)
  {
    hide Partition, Placed, AllShow, Advance, RestartedRoom, AllPlaced, SomeFailed;
    match e {
      case Chunk(i, len) =>
        if i < |d.workers| < |d.bounds| && d.workers[i].phase.Reading? && 0 < len
           && d.workers[i].pos + len <= d.bounds[i + 1] {
          d.TakeChunk(i, len);
        }
      case Eof(i) =>
        if i < |d.workers| < |d.bounds| && d.workers[i].phase.Reading? { d.EndOfResponse(i); }
      case Fault(i) =>
        if i < |d.workers| < |d.bounds| && d.workers[i].phase.Reading? { d.AttemptFails(i); }
      case Cancel =>
        d.CancelRun();
    }
  }

  /** Any interleaving of the workers' steps, in any order and with any failures: when all
      workers have ended and none recorded an error, every worker's last response ended by
      itself, and the file is the remote one exactly when the missing bytes are zeros, in
      particular when every range was delivered to its end. */
  method Drive(d: Download, script: seq<Event>) returns (ok: bool)
    requires d.Valid()
    modifies d, d.file
    ensures d.Valid() && d.done <= 2 * |d.remote|
    ensures Flow(d.workers, d.errors, d.cancelled)
            == Played(d.bounds, Flow(old(d.workers), old(d.errors), old(d.cancelled)), script)
    ensures ok <==> AllDone(d.workers) && d.errors == 0
    ensures ok ==> forall i :: 0 <= i < |d.workers| ==> d.workers[i].phase.Finished?
    ensures ok ==> (d.file[..] == d.remote <==> GapsAreZero(d.remote, d.workers, d.bounds))
    ensures ok && AllDelivered(d.workers, d.bounds) ==> d.file[..] == d.remote && d.done == |d.remote| + d.wasted
  {
    hide Partition, Placed, AllShow, Advance, RestartedRoom, GapsAreZero, AllDelivered, Next;
    ghost var start := Flow(d.workers, d.errors, d.cancelled);
    for n := 0 to |script|
      invariant d.Valid()
      invariant Flow(d.workers, d.errors, d.cancelled) == Played(d.bounds, start, script[..n])
    {
      assert script[..n + 1][..n] == script[..n];
      Happens(d, script[n]);
    }
    assert script[..|script|] == script;
    ok := d.errors == 0 && forall i :: 0 <= i < |d.workers| ==> !d.workers[i].phase.Reading?;
    ProgressIsBounded(d);
    FileIsRemote(d.file[..], d.remote, d.workers, d.bounds);
    if ok && AllDelivered(d.workers, d.bounds) {
      DeliveredIsRemote(d);
    }
  }

  /** A download that raises no error and leaves the wrong file: every response ends at
      once, so nothing but zeros is there. It takes one byte that is not zero. */
  method ShortResponsesPass(remote: seq<Byte>, streams: int, k: nat) returns (d: Download)
    requires Splits(streams, |remote|) && k < |remote| && remote[k] != 0
    ensures fresh(d) && d.remote == remote && d.Valid()
    ensures AllDone(d.workers) && d.errors == 0 && !d.cancelled && d.file[..] != remote
  {
    hide Partition, AllShow, Advance, RestartedRoom, Splits;
    d := new Download(remote, streams);
    for i := 0 to |d.workers|
      invariant fresh(d) && d.remote == remote && d.Valid() && d.errors == 0 && !d.cancelled
      invariant |d.bounds| == |d.workers| + 1
      invariant forall j :: 0 <= j < |d.workers| ==>
        d.workers[j] == Worker(1, d.bounds[j], d.bounds[j], if j < i then Finished else Reading)
    {
      d.EndOfResponse(i);
    }
    EndsOf(d.bounds, |remote|);
    var owner := OwnerExists(d.bounds, |remote|, 1, k, |d.workers|);
    assert !ZeroBetween(remote, d.workers[owner].high, d.bounds[owner + 1]);
    FileIsRemote(d.file[..], remote, d.workers, d.bounds);
  }
}

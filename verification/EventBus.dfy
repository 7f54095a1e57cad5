/** Bounded publish/subscribe with a replay buffer per run. */
module EventBus {
  import opened Text

  /** An event envelope; an event without a sequence number has 0. */
  datatype Event = Event(seqNo: int, payload: string)

  /** The events a subscriber that has seen up to `after` still wants. */
  function Wanted(events: seq<Event>, after: int): seq<Event> {
    if events == [] then [] else
      var n := |events| - 1;
      Wanted(events[..n], after) + if events[n].seqNo > after then [events[n]] else []
  }

  /** What a queue of capacity `max` (0 or less: unbounded) holds after being offered
      `items` while nobody reads. */
  function Fitting(items: seq<Event>, max: int): seq<Event> {
    if max > 0 then Last(items, max) else items
  }

  /** Offering one event to a queue that holds `items`: full means the oldest one goes. */
  function Offered(items: seq<Event>, max: int, e: Event): seq<Event> {
    if max > 0 && |items| >= max then items[1..] + [e] else items + [e]
  }

  /** Appending to what was kept and cutting back keeps the last events of the whole log. */
  lemma KeepLast(log: seq<Event>, e: Event, size: nat)
    ensures var buf := Last(log, size) + [e];
      Last(log + [e], size) == if |buf| > size then buf[|buf| - size..] else buf
    ensures Last<Event>([], size) == []
  {
    LastOfLast(log, [e], size);
  }

  lemma FittingNext(items: seq<Event>, max: int, e: Event)
    ensures Fitting(items + [e], max) == Offered(Fitting(items, max), max, e)
  {
    if max > 0 {
      LastOfLast(items, [e], max);
    }
  }

  ghost predicate Suffix(s: seq<Event>, of: seq<Event>) {
    |s| <= |of| && of[|of| - |s|..] == s
  }

  lemma SuffixNext(s: seq<Event>, of: seq<Event>, e: Event)
    requires Suffix(s, of)
    ensures Suffix(s + [e], of + [e])
    ensures s != [] ==> Suffix(s[1..], of) && Suffix(s[1..] + [e], of + [e])
  {
  }

  /** A subscriber's queue. */
  class Queue {
    const maxSize: int
    var items: seq<Event>
    /** Everything ever offered to it. */
    ghost var offered: seq<Event>

    ghost predicate Valid()
      reads this
    {
      Suffix(items, offered) && (maxSize > 0 ==> |items| <= maxSize)
    }

    constructor (maxSize: int)
      ensures Valid() && items == [] && offered == [] && this.maxSize == maxSize
    {
      this.maxSize := maxSize;
      items, offered := [], [];
    }

    /** Appends the event, dropping the oldest one when the queue is full. */
    method Offer(e: Event)
      requires Valid()
      modifies this
      ensures Valid()
      ensures offered == old(offered) + [e]
      ensures items == Offered(old(items), maxSize, e)
    {
      SuffixNext(items, offered, e);
      if maxSize > 0 && |items| >= maxSize {
        items := items[1..];
      }
      items := items + [e];
      offered := offered + [e];
    }

    /** The subscriber takes the oldest event. */
    method Get() returns (e: Option<Event>)
      requires Valid()
      modifies this`items
      ensures Valid()
      ensures if old(items) == [] then e == None && items == [] else e == Some(old(items)[0]) && items == old(items)[1..]
    {
      if items == [] {
        return None;
      }
      e := Some(items[0]);
      items := items[1..];
    }
  }

  /** Offers one event to every subscriber. */
  method FanOut(targets: set<Queue>, e: Event)
    requires forall q :: q in targets ==> q.Valid()
    modifies targets
    ensures forall q :: q in targets ==> q.Valid() && q.offered == old(q.offered) + [e]
    ensures forall q :: q in targets ==> q.items == Offered(old(q.items), q.maxSize, e)
  {
    hide Suffix, Offered;
    var rest := targets;
    while rest != {}
      invariant rest <= targets
      invariant forall q :: q in targets ==> q.Valid()
      invariant forall q :: q in rest ==> q.items == old(q.items) && q.offered == old(q.offered)
      invariant forall q :: q in targets - rest ==> q.offered == old(q.offered) + [e]
      invariant forall q :: q in targets - rest ==> q.items == Offered(old(q.items), q.maxSize, e)
      decreases |rest|
    {
      var q :| q in rest;
      q.Offer(e);
      rest := rest - {q};
    }
  }

  /** Pre-loads a new queue with the buffered events it still wants. */
  method Replay(q: Queue, buf: seq<Event>, after: int)
    requires q.Valid() && q.offered == [] && q.items == []
    modifies q
    ensures q.Valid() && q.offered == Wanted(buf, after) && q.items == Fitting(q.offered, q.maxSize)
  {
    hide Suffix, Offered;
    for i := 0 to |buf|
      invariant q.Valid() && q.offered == Wanted(buf[..i], after) && q.items == Fitting(q.offered, q.maxSize)
    {
      assert buf[..i + 1][..i] == buf[..i];
      if buf[i].seqNo > after {
        FittingNext(q.offered, q.maxSize, buf[i]);
        q.Offer(buf[i]);
      }
    }
    assert buf[..|buf|] == buf;
  }

  class EventBus {
    const bufferSize: nat
    const maxQueue: int
    var subs: map<string, set<Queue>>
    var buffer: map<string, seq<Event>>
    /** Per run, everything published since the buffer was last forgotten. */
    ghost var published: map<string, seq<Event>>
    /** Every queue this bus has handed out. */
    ghost var queues: set<Queue>

    ghost predicate Valid()
      reads this, queues
    {
      && (forall run :: run in subs ==> subs[run] <= queues)
      && (forall q :: q in queues ==> q.Valid() && q.maxSize == maxQueue)
      && buffer.Keys == published.Keys
      && (forall run :: run in buffer ==> buffer[run] == Last(published[run], bufferSize))
    }

    /** The run's events since its last `Forget`. */
    ghost function Since(run: string): seq<Event>
      reads this
    {
      if run in published then published[run] else []
    }

    function Subscribers(run: string): set<Queue>
      reads this
    {
      if run in subs then subs[run] else {}
    }

    constructor (bufferSize: nat, maxQueue: int)
      ensures Valid() && queues == {} && this.bufferSize == bufferSize && this.maxQueue == maxQueue
      ensures forall run :: Since(run) == [] && Subscribers(run) == {}
    {
      this.bufferSize, this.maxQueue := bufferSize, maxQueue;
      subs, buffer, published, queues := map[], map[], map[], {};
    }

    method Publish(run: string, e: Event)
      requires Valid()
      modifies this`buffer, this`published, Subscribers(run)
      ensures Valid()
      ensures published == old(published)[run := old(Since(run)) + [e]]
      ensures forall q :: q in Subscribers(run) ==> q.offered == old(q.offered) + [e]
      ensures forall q :: q in Subscribers(run) ==> q.items == Offered(old(q.items), maxQueue, e)
    {
      hide Suffix, Last, Offered;
      Remember(run, e);
      FanOut(Subscribers(run), e);
    }

    /** Appends to the replay buffer and cuts it back to its size. */
    method Remember(run: string, e: Event)
      requires Valid()
      modifies this`buffer, this`published
      ensures Valid()
      ensures published == old(published)[run := old(Since(run)) + [e]]
    {
      hide Suffix, Last, Queue.Valid;
      var buf := if run in buffer then buffer[run] else [];
      assert buf == Last(Since(run), bufferSize) by {
        KeepLast(Since(run), e, bufferSize);
      }
      KeepLast(Since(run), e, bufferSize);
      buf := buf + [e];
      if |buf| > bufferSize {
        buf := buf[|buf| - bufferSize..];
      }
      buffer := buffer[run := buf];
      published := published[run := Since(run) + [e]];
    }

    method Subscribe(run: string, after: int) returns (q: Queue)
      requires Valid()
      modifies this`subs, this`queues
      ensures Valid() && fresh(q) && q in Subscribers(run) && queues == old(queues) + {q}
      ensures subs == old(subs)[run := old(Subscribers(run)) + {q}]
      ensures q.offered == Wanted(Last(Since(run), bufferSize), after)
      ensures q.items == Fitting(q.offered, maxQueue)
    {
      hide Suffix, Fitting, Wanted;
      q := new Queue(maxQueue);
      var buf := if run in buffer then buffer[run] else [];
      Replay(q, buf, after);
      subs := subs[run := Subscribers(run) + {q}];
      queues := queues + {q};
    }

    method Unsubscribe(run: string, q: Queue)
      requires Valid()
      modifies this`subs
      ensures Valid()
      ensures forall r :: Subscribers(r) == old(Subscribers(r)) - if r == run then {q} else {}
    {
      if run in subs {
        subs := subs[run := subs[run] - {q}];
      }
    }

    method Forget(run: string)
      requires Valid()
      modifies this`subs, this`buffer, this`published
      ensures Valid()
      ensures Since(run) == [] && Subscribers(run) == {}
      ensures forall r :: r != run ==> Since(r) == old(Since(r)) && Subscribers(r) == old(Subscribers(r))
    {
      buffer := buffer - {run};
      subs := subs - {run};
      published := published - {run};
    }
  }

  // ---- reconnecting ----

  /** The numbers the emitter gives: one more each time, starting at `first`. */
  ghost predicate Numbered(events: seq<Event>, first: int) {
    forall k :: 0 <= k < |events| ==> events[k].seqNo == first + k
  }

  /** The events from position `skip` on. */
  function From(events: seq<Event>, skip: int): seq<Event> {
    if skip <= 0 then events else if skip >= |events| then [] else events[skip..]
  }

  lemma FromNext(events: seq<Event>, e: Event, skip: int)
    ensures From(events + [e], skip) == From(events, skip) + if skip <= |events| then [e] else []
  {
  }

  /** From numbered events, the wanted ones are those from the one after `after` on. */
  lemma {:induction false} WantedIsTail(events: seq<Event>, first: int, after: int)
    requires Numbered(events, first)
    ensures Wanted(events, after) == From(events, after - first + 1)
  {
    hide From;
    if events != [] {
      var n := |events| - 1;
      WantedIsTail(events[..n], first, after);
      FromNext(events[..n], events[n], after - first + 1);
      assert events[..n] + [events[n]] == events;
    } else {
      FromEmpty(after - first + 1);
    }
  }

  lemma FromEmpty(skip: int)
    ensures From([], skip) == []
  {
  }

  /** The wanted part of what the buffer kept is the kept part of what was wanted. */
  lemma FromOfLast(events: seq<Event>, skip: nat, bufferSize: nat)
    ensures From(Last(events, bufferSize), skip - (|events| - |Last(events, bufferSize)|)) ==
            Last(From(events, skip), bufferSize)
  {
  }

  /** Resubscribing after number `after` replays exactly the missed events, with no gap and
      no repeat, if and only if the buffer still reaches back far enough and the replay fits
      the queue. */
  lemma ReplayIsExact(events: seq<Event>, first: int, after: int, bufferSize: nat, maxQueue: int)
    requires Numbered(events, first) && first - 1 <= after
    ensures var missed := From(events, after - first + 1);
      Fitting(Wanted(Last(events, bufferSize), after), maxQueue) == missed <==>
      |missed| <= bufferSize && (maxQueue > 0 ==> |missed| <= maxQueue)
  {
    hide Wanted, Last, From, Fitting;
    WantedIsKept(events, first, after, bufferSize);
    TakenWhole(From(events, after - first + 1), bufferSize, maxQueue);
  }

  /** The wanted part of the buffer is what the buffer kept of the missed events. */
  lemma WantedIsKept(events: seq<Event>, first: int, after: int, bufferSize: nat)
    requires Numbered(events, first) && first - 1 <= after
    ensures Wanted(Last(events, bufferSize), after) == Last(From(events, after - first + 1), bufferSize)
  {
    hide Wanted, Last, From, Numbered;
    KeptNumbered(events, first, bufferSize);
    var kept := Last(events, bufferSize);
    WantedIsTail(kept, first + (|events| - |kept|), after);
    FromOfLast(events, after - first + 1, bufferSize);
  }

  lemma TakenWhole(missed: seq<Event>, bufferSize: nat, maxQueue: int)
    ensures Fitting(Last(missed, bufferSize), maxQueue) == missed <==>
            |missed| <= bufferSize && (maxQueue > 0 ==> |missed| <= maxQueue)
  {
    assert Fitting(Last(missed, bufferSize), maxQueue) == missed ==> |Fitting(Last(missed, bufferSize), maxQueue)| == |missed|;
  }

  lemma HeadMoves(a: seq<Event>, b: seq<Event>)
    requires b != []
    ensures (a + [b[0]]) + b[1..] == a + b
  {
  }

  /** The subscriber empties its queue. */
  method Drain(q: Queue) returns (seen: seq<Event>)
    requires q.Valid()
    modifies q`items
    ensures q.Valid() && q.items == [] && seen == old(q.items)
  {
    hide Suffix;
    seen := [];
    while q.items != []
      invariant q.Valid() && seen + q.items == old(q.items)
      decreases |q.items|
    {
      HeadMoves(seen, q.items);
      var e := q.Get();
      seen := seen + [e.value];
    }
  }

  lemma FromMore(events: seq<Event>, later: seq<Event>, skip: nat)
    requires skip <= |events|
    ensures From(events, skip) + later == From(events + later, skip)
  {
  }

  /** A client that has seen everything up to number `after` resubscribes, the run goes on
      publishing `later`, and the client then reads: it sees exactly the events after
      `after`, those from before and from after its return, if the buffer reached back far
      enough and its queue did not overflow. */
  method Reconnect(bus: EventBus, run: string, after: int, later: seq<Event>, ghost first: int)
    returns (seen: seq<Event>)
    requires bus.Valid() && Numbered(bus.Since(run) + later, first) && 0 <= after - first + 1 <= |bus.Since(run)|
    modifies bus, bus.queues
    ensures bus.Valid() && bus.Since(run) == old(bus.Since(run)) + later
    ensures var skip := after - first + 1; var owed := From(old(bus.Since(run)) + later, skip);
      |old(bus.Since(run))| - skip <= bus.bufferSize && (bus.maxQueue > 0 ==> |owed| <= bus.maxQueue) ==> seen == owed
  {
    hide Suffix, Last, Wanted, Offered, Fitting, From, Numbered;
    ghost var events, skip := bus.Since(run), after - first + 1;
    BufferReaches(events, later, first, after, bus.bufferSize);
    var q := bus.Subscribe(run, after);
    HandedOut(bus, run, q);
    PublishAll(bus, run, later, q);
    HandedOut(bus, run, q);
    seen := Drain(q);
    FitsWhole(From(events, skip) + later, bus.maxQueue);
    FromMore(events, later, skip);
  }

  lemma NextPrefix(now: seq<Event>, before: seq<Event>, later: seq<Event>, i: nat)
    requires i < |later| && now == before + later[..i]
    ensures now + [later[i]] == before + later[..i + 1]
  {
    assert later[..i + 1] == later[..i] + [later[i]];
  }

  /** Publishes a list of events while nobody reads from `q`. */
  method PublishAll(bus: EventBus, run: string, later: seq<Event>, q: Queue)
    requires bus.Valid() && q in bus.Subscribers(run) && q.items == Fitting(q.offered, bus.maxQueue)
    modifies bus, bus.queues
    ensures bus.Valid() && bus.queues == old(bus.queues) && bus.subs == old(bus.subs)
    ensures bus.Since(run) == old(bus.Since(run)) + later
    ensures q.offered == old(q.offered) + later && q.items == Fitting(q.offered, bus.maxQueue)
  {
    hide Suffix, Last, Offered, Fitting, EventBus.Valid;
    HandedOut(bus, run, q);
    for i := 0 to |later|
      invariant bus.Valid() && bus.queues == old(bus.queues) && bus.subs == old(bus.subs)
      invariant bus.Subscribers(run) <= bus.queues && q in bus.Subscribers(run)
      invariant bus.Since(run) == old(bus.Since(run)) + later[..i]
      invariant q.offered == old(q.offered) + later[..i] && q.items == Fitting(q.offered, bus.maxQueue)
    {
      FittingNext(q.offered, bus.maxQueue, later[i]);
      NextPrefix(q.offered, old(q.offered), later, i);
      NextPrefix(bus.Since(run), old(bus.Since(run)), later, i);
      bus.Publish(run, later[i]);
    }
    assert later[..|later|] == later;
  }

  lemma HandedOut(bus: EventBus, run: string, q: Queue)
    requires bus.Valid() && q in bus.Subscribers(run)
    ensures q in bus.queues && q.Valid() && q.maxSize == bus.maxQueue && bus.Subscribers(run) <= bus.queues
  {
  }

  /** If the buffer still holds everything missed, the wanted part of it is what was missed. */
  lemma BufferReaches(events: seq<Event>, later: seq<Event>, first: int, after: int, bufferSize: nat)
    requires Numbered(events + later, first) && 0 <= after - first + 1 <= |events|
    ensures |events| - (after - first + 1) <= bufferSize ==>
      Wanted(Last(events, bufferSize), after) == From(events, after - first + 1)
  {
    hide Wanted, Last, From;
    PrefixNumbered(events, later, first);
    WantedIsKept(events, first, after, bufferSize);
    LastWhole(From(events, after - first + 1), bufferSize);
    FromSize(events, after - first + 1);
  }

  lemma PrefixNumbered(events: seq<Event>, later: seq<Event>, first: int)
    requires Numbered(events + later, first)
    ensures Numbered(events, first)
  {
    assert forall k :: 0 <= k < |events| ==> (events + later)[k] == events[k];
  }

  lemma KeptNumbered(events: seq<Event>, first: int, n: nat)
    requires Numbered(events, first)
    ensures |Last(events, n)| <= |events| && Numbered(Last(events, n), first + (|events| - |Last(events, n)|))
  {
  }

  lemma LastWhole(s: seq<Event>, n: nat)
    ensures |s| <= n ==> Last(s, n) == s
  {
  }

  lemma FromSize(events: seq<Event>, skip: nat)
    requires skip <= |events|
    ensures |From(events, skip)| == |events| - skip
  {
  }

  lemma FitsWhole(items: seq<Event>, max: int)
    ensures (max > 0 ==> |items| <= max) ==> Fitting(items, max) == items
  {
  }
}

/** In-place compaction of old tool results: stale reads, long results, old images. */
module Compaction {
  import opened Text
  import opened Json
  import opened Transcript

  datatype Config = Config(enabled: bool, maxChars: int, keepLast: int, dedupe: bool)

  datatype Stats = Stats(compacted: nat, deduplicated: nat, logPruned: nat, savedChars: int, estimatedTokens: int)

  const ZERO := Stats(0, 0, 0, 0, 0)

  /** Tool results always carry text (runtime/loop.py:919-925); images ride in user messages. */
  ghost predicate ToolsArePlain(msgs: seq<Message>) {
    forall i :: 0 <= i < |msgs| && msgs[i].role.ToolResult? ==> !msgs[i].content.Blocks?
  }

  // ---- what is protected, and which arguments a result belongs to ----

  function ToolIdx(msgs: seq<Message>): seq<nat> {
    if msgs == [] then [] else
      var n := |msgs| - 1;
      ToolIdx(msgs[..n]) + if msgs[n].role.ToolResult? then [n] else []
  }

  /** `idx[-keep:]`, and nothing for 0. */
  function TailFrom(idx: seq<nat>, keep: int): seq<nat> {
    if keep == 0 then []
    else if keep > 0 then Last(idx, keep)
    else if -keep <= |idx| then idx[-keep..]
    else []
  }

  function Protect(cfg: Config, pinned: set<int>, msgs: seq<Message>): set<nat> {
    (set i | i in TailFrom(ToolIdx(msgs), cfg.keepLast)) + (set i | i in pinned && 0 <= i < |msgs| :: i as nat)
  }

  function AddCalls(acc: map<string, Fields>, calls: seq<ToolCall>): map<string, Fields> {
    if calls == [] then acc else
      var c := calls[|calls| - 1];
      var before := AddCalls(acc, calls[..|calls| - 1]);
      if c.id != "" && c.args.Some? then before[c.id := c.args.value] else before
  }

  function CallArgs(msgs: seq<Message>): map<string, Fields> {
    if msgs == [] then map[] else
      var last := msgs[|msgs| - 1];
      var before := CallArgs(msgs[..|msgs| - 1]);
      if last.role.Assistant? then AddCalls(before, last.calls) else before
  }

  function ArgsOf(calls: map<string, Fields>, m: Message): Fields {
    if m.callId in calls then calls[m.callId] else []
  }

  // ---- stage 1: stale reads ----

  predicate Fresh(m: Message) { m.role.ToolResult? && !Marked(m.TextOf()) }

  /** A successful read that still shows its text. */
  predicate GoodRead(env: Env, calls: map<string, Fields>, m: Message) {
    && Fresh(m) && m.name == "fs.read" && Succeeded(env, m.TextOf())
    && ReadKeyOf(env, ArgsOf(calls, m)).Some?
  }

  function KeyOf(env: Env, calls: map<string, Fields>, m: Message): ReadKey
    requires GoodRead(env, calls, m)
  {
    ReadKeyOf(env, ArgsOf(calls, m)).value
  }

  /** A successful write that still shows its text. */
  predicate GoodWrite(env: Env, calls: map<string, Fields>, m: Message) {
    && Fresh(m) && IsWriteTool(m.name) && Succeeded(env, m.TextOf())
    && PathOf(env, ArgsOf(calls, m)) != ""
  }

  ghost predicate NewerRead(env: Env, calls: map<string, Fields>, msgs: seq<Message>, i: nat)
    requires i < |msgs| && GoodRead(env, calls, msgs[i])
  {
    exists j :: i < j < |msgs| && GoodRead(env, calls, msgs[j]) && KeyOf(env, calls, msgs[j]) == KeyOf(env, calls, msgs[i])
  }

  ghost predicate LaterWrite(env: Env, calls: map<string, Fields>, msgs: seq<Message>, i: nat)
    requires i < |msgs| && GoodRead(env, calls, msgs[i])
  {
    exists j :: i < j < |msgs| && GoodWrite(env, calls, msgs[j])
                && PathOf(env, ArgsOf(calls, msgs[j])) == KeyOf(env, calls, msgs[i]).0
  }

  /** A read that a later successful read of the same slice, or a later successful write
      of the file, has made useless. */
  ghost predicate Stale(env: Env, calls: map<string, Fields>, msgs: seq<Message>, i: nat)
    requires i < |msgs|
  {
    GoodRead(env, calls, msgs[i]) && (NewerRead(env, calls, msgs, i) || LaterWrite(env, calls, msgs, i))
  }

  ghost function Dedupe1(env: Env, calls: map<string, Fields>, protect: set<nat>, msgs: seq<Message>, i: nat): Message
    requires i < |msgs|
  {
    if i !in protect && Stale(env, calls, msgs, i) then
      msgs[i].(content := Plain(StaleText(KeyOf(env, calls, msgs[i]).0, NewerRead(env, calls, msgs, i))))
    else msgs[i]
  }

  ghost function Deduped(env: Env, calls: map<string, Fields>, protect: set<nat>, msgs: seq<Message>): (r: seq<Message>)
    ensures |r| == |msgs| && forall i :: 0 <= i < |msgs| ==> r[i] == Dedupe1(env, calls, protect, msgs, i)
  {
    seq(|msgs|, i requires 0 <= i < |msgs| => Dedupe1(env, calls, protect, msgs, i))
  }

  // ---- stage 2: long results ----

  predicate TooLong(cfg: Config, protect: set<nat>, m: Message, i: nat) {
    Fresh(m) && i !in protect && |m.TextOf()| > cfg.maxChars
  }

  function Stub1(env: Env, cfg: Config, calls: map<string, Fields>, protect: set<nat>, m: Message, i: nat): Message {
    if TooLong(cfg, protect, m, i) then m.(content := Plain(StubText(env, m.name, ArgsOf(calls, m), m.TextOf()))) else m
  }

  function Stubbed(env: Env, cfg: Config, calls: map<string, Fields>, protect: set<nat>, msgs: seq<Message>): (r: seq<Message>)
    ensures |r| == |msgs| && forall i :: 0 <= i < |msgs| ==> r[i] == Stub1(env, cfg, calls, protect, msgs[i], i)
  {
    seq(|msgs|, i requires 0 <= i < |msgs| => Stub1(env, cfg, calls, protect, msgs[i], i))
  }

  // ---- stage 3: old images ----

  ghost predicate ImageLater(msgs: seq<Message>, i: nat) {
    exists j :: i < j < |msgs| && HasImage(msgs[j])
  }

  ghost function Elide1(msgs: seq<Message>, i: nat): Message
    requires i < |msgs|
  {
    if HasImage(msgs[i]) && ImageLater(msgs, i) then ElideImages(msgs[i]) else msgs[i]
  }

  ghost function Elided(msgs: seq<Message>): (r: seq<Message>)
    ensures |r| == |msgs| && forall i :: 0 <= i < |msgs| ==> r[i] == Elide1(msgs, i)
  {
    seq(|msgs|, i requires 0 <= i < |msgs| => Elide1(msgs, i))
  }

  // ---- the whole pass ----

  ghost function AfterDedupe(env: Env, cfg: Config, pinned: set<int>, msgs: seq<Message>): seq<Message> {
    if cfg.dedupe then Deduped(env, CallArgs(msgs), Protect(cfg, pinned, msgs), msgs) else msgs
  }

  ghost function AfterStubs(env: Env, cfg: Config, pinned: set<int>, msgs: seq<Message>): seq<Message> {
    Stubbed(env, cfg, CallArgs(msgs), Protect(cfg, pinned, msgs), AfterDedupe(env, cfg, pinned, msgs))
  }

  ghost function Compacted(env: Env, cfg: Config, pinned: set<int>, msgs: seq<Message>): seq<Message> {
    if cfg.enabled then Elided(AfterStubs(env, cfg, pinned, msgs)) else msgs
  }

  // ---- accounting ----

  function Total(msgs: seq<Message>): nat {
    if msgs == [] then 0 else Total(msgs[..|msgs| - 1]) + msgs[|msgs| - 1].Weight()
  }

  predicate AnyMessage(m: Message) { true }

  predicate FromLogTool(m: Message) { IsLogTool(m.name) }

  /** How many messages of a kind differ between two transcripts of the same length. */
  function Changed(before: seq<Message>, after: seq<Message>, kind: Message -> bool): nat
    requires |before| == |after|
  {
    if before == [] then 0 else
      var n := |before| - 1;
      Changed(before[..n], after[..n], kind) + if before[n] != after[n] && kind(before[n]) then 1 else 0
  }

  lemma {:induction false} TotalUpdate(msgs: seq<Message>, i: nat, m: Message)
    requires i < |msgs|
    ensures Total(msgs[i := m]) == Total(msgs) - msgs[i].Weight() + m.Weight()
  {
    hide Message.Weight;
    var n := |msgs| - 1;
    if i == n {
      assert msgs[i := m][..n] == msgs[..n];
    } else {
      TotalUpdate(msgs[..n], i, m);
      assert msgs[i := m][..n] == msgs[..n][i := m];
    }
  }

  lemma {:induction false} ChangedUpdate(before: seq<Message>, now: seq<Message>, i: nat, m: Message, kind: Message -> bool)
    requires |before| == |now| && i < |now| && now[i] == before[i]
    ensures Changed(before, now[i := m], kind) ==
            Changed(before, now, kind) + if m != before[i] && kind(before[i]) then 1 else 0
  {
    var n := |now| - 1;
    if i == n {
      assert now[i := m][..n] == now[..n];
    } else {
      ChangedUpdate(before[..n], now[..n], i, m, kind);
      assert now[i := m][..n] == now[..n][i := m];
    }
  }

  lemma {:induction false} NothingChanged(msgs: seq<Message>, kind: Message -> bool)
    ensures Changed(msgs, msgs, kind) == 0
  {
    if msgs != [] {
      NothingChanged(msgs[..|msgs| - 1], kind);
    }
  }

  /** Changes add up over two passes that never touch the same message. */
  lemma {:induction false} ChangesAdd(a: seq<Message>, b: seq<Message>, c: seq<Message>)
    requires |a| == |b| == |c|
    requires forall i :: 0 <= i < |a| ==> a[i] == b[i] || b[i] == c[i]
    ensures Changed(a, c, AnyMessage) == Changed(a, b, AnyMessage) + Changed(b, c, AnyMessage)
  {
    if a != [] {
      var n := |a| - 1;
      assert a[n] == b[n] || b[n] == c[n];
      ChangesAdd(a[..n], b[..n], c[..n]);
    }
  }

  // ---- passes that visit an increasing list of positions ----

  ghost predicate Increasing(idx: seq<nat>) {
    forall a, b :: 0 <= a < b < |idx| ==> idx[a] < idx[b]
  }

  /** The pass has replaced the first `n` listed messages and nothing else. */
  ghost predicate Walked(before: seq<Message>, after: seq<Message>, idx: seq<nat>, n: nat, now: seq<Message>) {
    && |now| == |before| == |after| && n <= |idx|
    && forall k :: 0 <= k < |before| ==> now[k] == if k in idx[..n] then after[k] else before[k]
  }

  lemma WalkStep(before: seq<Message>, after: seq<Message>, idx: seq<nat>, n: nat, now: seq<Message>)
    requires Walked(before, after, idx, n, now) && Increasing(idx) && n < |idx| && idx[n] < |before|
    ensures now[idx[n]] == before[idx[n]]
    ensures Walked(before, after, idx, n + 1, now[idx[n] := after[idx[n]]])
  {
    assert idx[..n + 1] == idx[..n] + [idx[n]];
    assert forall a :: 0 <= a < n ==> idx[a] < idx[n];
  }

  lemma WalkDone(before: seq<Message>, after: seq<Message>, idx: seq<nat>, now: seq<Message>)
    requires Walked(before, after, idx, |idx|, now)
    requires forall k :: 0 <= k < |before| && k !in idx ==> after[k] == before[k]
    ensures now == after
  {
    assert idx[..|idx|] == idx;
  }

  /** Visiting the next listed message: the walk, the change count and the size ledger. */
  lemma Visit(before: seq<Message>, after: seq<Message>, idx: seq<nat>, n: nat, now: seq<Message>, next: seq<Message>,
              kind: Message -> bool)
    requires Walked(before, after, idx, n, now) && Increasing(idx) && n < |idx| && idx[n] < |before|
    requires next == now[idx[n] := after[idx[n]]]
    ensures Walked(before, after, idx, n + 1, next)
    ensures now[idx[n]] == before[idx[n]]
    ensures Changed(before, next, kind) ==
            Changed(before, now, kind) + if after[idx[n]] != before[idx[n]] && kind(before[idx[n]]) then 1 else 0
    ensures Total(before) - Total(next) ==
            (Total(before) - Total(now)) + (before[idx[n]].Weight() - after[idx[n]].Weight())
  {
    hide Message.Weight, Changed, Total;
    WalkStep(before, after, idx, n, now);
    ChangedUpdate(before, now, idx[n], after[idx[n]], kind);
    TotalUpdate(now, idx[n], after[idx[n]]);
  }

  // ---- the methods ----

  /** The calls of all assistant messages, in order. */
  function CallsOf(msgs: seq<Message>): seq<ToolCall> {
    if msgs == [] then [] else
      var last := msgs[|msgs| - 1];
      CallsOf(msgs[..|msgs| - 1]) + if last.role.Assistant? then last.calls else []
  }

  /** The call has this id and arguments that parse to an object. */
  predicate Usable(c: ToolCall, id: string) { c.id == id != "" && c.args.Some? }

  /** `c` is the last usable call with this id. */
  ghost predicate LastUsable(calls: seq<ToolCall>, id: string, k: nat) {
    k < |calls| && Usable(calls[k], id) && forall j :: k < j < |calls| ==> !Usable(calls[j], id)
  }

  lemma {:induction false} AddCallsAppend(acc: map<string, Fields>, a: seq<ToolCall>, b: seq<ToolCall>)
    ensures AddCalls(acc, a + b) == AddCalls(AddCalls(acc, a), b)
  {
    if b == [] {
      assert a + b == a;
    } else {
      AddCallsAppend(acc, a, b[..|b| - 1]);
      assert (a + b)[..|a + b| - 1] == a + b[..|b| - 1];
    }
  }

  lemma {:induction false} CallArgsAdds(msgs: seq<Message>)
    ensures CallArgs(msgs) == AddCalls(map[], CallsOf(msgs))
  {
    if msgs != [] {
      var init := msgs[..|msgs| - 1];
      CallArgsAdds(init);
      var last := msgs[|msgs| - 1];
      AddCallsAppend(map[], CallsOf(init), if last.role.Assistant? then last.calls else []);
    }
  }

  lemma {:induction false} LastAdded(calls: seq<ToolCall>, id: string)
    ensures id in AddCalls(map[], calls) ==>
      exists k: nat :: LastUsable(calls, id, k) && calls[k].args == Some(AddCalls(map[], calls)[id])
    ensures id !in AddCalls(map[], calls) ==> forall k :: 0 <= k < |calls| ==> !Usable(calls[k], id)
  {
    if calls != [] {
      var n := |calls| - 1;
      LastAdded(calls[..n], id);
      if Usable(calls[n], id) {
        assert LastUsable(calls, id, n);
      } else if id in AddCalls(map[], calls[..n]) {
        var k: nat :| LastUsable(calls[..n], id, k) && calls[..n][k].args == Some(AddCalls(map[], calls[..n])[id]);
        assert LastUsable(calls, id, k);
      }
    }
  }

  /** An id has arguments exactly when some call with that id parses, and they are those of
      the last such call in the transcript. */
  lemma LastCallWins(msgs: seq<Message>, id: string)
    ensures id in CallArgs(msgs) <==> exists k :: 0 <= k < |CallsOf(msgs)| && Usable(CallsOf(msgs)[k], id)
    ensures forall k: nat :: LastUsable(CallsOf(msgs), id, k) ==>
      id in CallArgs(msgs) && CallsOf(msgs)[k].args == Some(CallArgs(msgs)[id])
  {
    hide AddCalls, CallArgs, CallsOf;
    CallArgsAdds(msgs);
    LastAdded(CallsOf(msgs), id);
  }

  method ParseCalls(messages: array<Message>) returns (calls: map<string, Fields>)
    ensures calls == CallArgs(messages[..])
  {
    calls := map[];
    for i := 0 to messages.Length
      invariant calls == CallArgs(messages[..i])
    {
      assert messages[..i + 1][..i] == messages[..i];
      if messages[i].role.Assistant? {
        ghost var start := calls;
        var toolCalls := messages[i].calls;
        for k := 0 to |toolCalls|
          invariant calls == AddCalls(start, toolCalls[..k])
        {
          assert toolCalls[..k + 1][..k] == toolCalls[..k];
          if toolCalls[k].id != "" && toolCalls[k].args.Some? {
            calls := calls[toolCalls[k].id := toolCalls[k].args.value];
          }
        }
        assert toolCalls[..|toolCalls|] == toolCalls;
      }
    }
    assert messages[..messages.Length] == messages[..];
  }

  /** `idx` lists, in order, exactly the positions below `n` that satisfy `p`. */
  ghost predicate Lists(msgs: seq<Message>, idx: seq<nat>, n: nat, p: Message -> bool) {
    && n <= |msgs| && Increasing(idx)
    && (forall k :: 0 <= k < |idx| ==> idx[k] < n && p(msgs[idx[k]]))
    && (forall i :: 0 <= i < n && p(msgs[i]) ==> i in idx)
  }

  lemma ListsNext(msgs: seq<Message>, idx: seq<nat>, n: nat, p: Message -> bool)
    requires Lists(msgs, idx, n, p) && n < |msgs|
    ensures Lists(msgs, if p(msgs[n]) then idx + [n] else idx, n + 1, p)
  {
    if p(msgs[n]) {
      var next := idx + [n];
      assert forall k :: 0 <= k < |idx| ==> next[k] == idx[k];
      forall i | 0 <= i < n + 1 && p(msgs[i]) ensures i in next {
        InAppended(idx, n, i);
      }
    }
  }

  lemma InAppended(idx: seq<nat>, n: nat, i: nat)
    ensures i in idx || i == n ==> i in idx + [n]
  {
  }

  ghost function ReadTest(env: Env, calls: map<string, Fields>): Message -> bool { m => GoodRead(env, calls, m) }

  ghost function WriteTest(env: Env, calls: map<string, Fields>): Message -> bool { m => GoodWrite(env, calls, m) }

  /** The keys recorded beside the read positions, and the paths beside the write positions. */
  ghost predicate KeysOf(env: Env, calls: map<string, Fields>, msgs: seq<Message>, idx: seq<nat>, keys: seq<ReadKey>) {
    && |keys| == |idx|
    && forall k :: 0 <= k < |idx| ==>
         idx[k] < |msgs| && GoodRead(env, calls, msgs[idx[k]]) && keys[k] == KeyOf(env, calls, msgs[idx[k]])
  }

  ghost predicate PathsOf(env: Env, calls: map<string, Fields>, msgs: seq<Message>, idx: seq<nat>, paths: seq<string>) {
    && |paths| == |idx|
    && forall k :: 0 <= k < |idx| ==> idx[k] < |msgs| && paths[k] == PathOf(env, ArgsOf(calls, msgs[idx[k]]))
  }

  lemma RecordKey(env: Env, calls: map<string, Fields>, msgs: seq<Message>, idx: seq<nat>, keys: seq<ReadKey>, i: nat)
    requires KeysOf(env, calls, msgs, idx, keys) && i < |msgs| && GoodRead(env, calls, msgs[i])
    ensures KeysOf(env, calls, msgs, idx + [i], keys + [KeyOf(env, calls, msgs[i])])
  {
    hide GoodRead;
  }

  lemma RecordPath(env: Env, calls: map<string, Fields>, msgs: seq<Message>, idx: seq<nat>, paths: seq<string>, i: nat)
    requires PathsOf(env, calls, msgs, idx, paths) && i < |msgs|
    ensures PathsOf(env, calls, msgs, idx + [i], paths + [PathOf(env, ArgsOf(calls, msgs[i]))])
  {
    hide PathOf, ArgsOf;
  }

  /** The successful reads and writes of the transcript, with their keys and paths. */
  method Collect(env: Env, messages: array<Message>, calls: map<string, Fields>)
    returns (readIdx: seq<nat>, keys: seq<ReadKey>, writeIdx: seq<nat>, paths: seq<string>)
    ensures Lists(messages[..], readIdx, messages.Length, ReadTest(env, calls))
    ensures KeysOf(env, calls, messages[..], readIdx, keys)
    ensures Lists(messages[..], writeIdx, messages.Length, WriteTest(env, calls))
    ensures PathsOf(env, calls, messages[..], writeIdx, paths)
  {
    hide Lists, Marked, Succeeded, KeysOf, PathsOf, PathOf, ArgsOf, ReadKeyOf;
    readIdx, keys, writeIdx, paths := [], [], [], [];
    NothingListed(env, calls, messages[..]);
    for i := 0 to messages.Length
      invariant Lists(messages[..], readIdx, i, ReadTest(env, calls)) && KeysOf(env, calls, messages[..], readIdx, keys)
      invariant Lists(messages[..], writeIdx, i, WriteTest(env, calls)) && PathsOf(env, calls, messages[..], writeIdx, paths)
    {
      var m := messages[i];
      ListsNext(messages[..], readIdx, i, ReadTest(env, calls));
      ListsNext(messages[..], writeIdx, i, WriteTest(env, calls));
      if m.role.ToolResult? && !Marked(m.TextOf()) {
        var args := ArgsOf(calls, m);
        if m.name == "fs.read" && Succeeded(env, m.TextOf()) {
          var key := ReadKeyOf(env, args);
          if key.Some? {
            RecordKey(env, calls, messages[..], readIdx, keys, i);
            readIdx, keys := readIdx + [i], keys + [key.value];
          }
        } else if IsWriteTool(m.name) && Succeeded(env, m.TextOf()) && PathOf(env, args) != "" {
          RecordPath(env, calls, messages[..], writeIdx, paths, i);
          writeIdx, paths := writeIdx + [i], paths + [PathOf(env, args)];
        }
      }
    }
  }

  lemma NothingListed(env: Env, calls: map<string, Fields>, msgs: seq<Message>)
    ensures Lists(msgs, [], 0, ReadTest(env, calls)) && Lists(msgs, [], 0, WriteTest(env, calls))
    ensures KeysOf(env, calls, msgs, [], []) && PathsOf(env, calls, msgs, [], [])
  {
  }

  /** Looking through the recorded reads and writes decides staleness. */
  lemma RecordsDecide(env: Env, calls: map<string, Fields>, msgs: seq<Message>, readIdx: seq<nat>, keys: seq<ReadKey>,
                      writeIdx: seq<nat>, paths: seq<string>, i: nat)
    requires Lists(msgs, readIdx, |msgs|, ReadTest(env, calls)) && KeysOf(env, calls, msgs, readIdx, keys)
    requires Lists(msgs, writeIdx, |msgs|, WriteTest(env, calls)) && PathsOf(env, calls, msgs, writeIdx, paths)
    requires i < |msgs| && GoodRead(env, calls, msgs[i])
    ensures var key := KeyOf(env, calls, msgs[i]);
      && (NewerRead(env, calls, msgs, i) <==> exists k :: 0 <= k < |readIdx| && readIdx[k] > i && keys[k] == key)
      && (LaterWrite(env, calls, msgs, i) <==> exists k :: 0 <= k < |writeIdx| && writeIdx[k] > i && paths[k] == key.0)
  {
    hide GoodRead, GoodWrite, PathOf, ArgsOf, Increasing;
    var key := KeyOf(env, calls, msgs[i]);
    if NewerRead(env, calls, msgs, i) {
      var j :| i < j < |msgs| && GoodRead(env, calls, msgs[j]) && KeyOf(env, calls, msgs[j]) == key;
      assert ReadTest(env, calls)(msgs[j]);
      var k :| 0 <= k < |readIdx| && readIdx[k] == j;
      assert keys[k] == key;
    }
    if k :| 0 <= k < |readIdx| && readIdx[k] > i && keys[k] == key {
      assert GoodRead(env, calls, msgs[readIdx[k]]);
    }
    if LaterWrite(env, calls, msgs, i) {
      var j :| i < j < |msgs| && GoodWrite(env, calls, msgs[j]) && PathOf(env, ArgsOf(calls, msgs[j])) == key.0;
      assert WriteTest(env, calls)(msgs[j]);
      var k :| 0 <= k < |writeIdx| && writeIdx[k] == j;
      assert paths[k] == key.0;
    }
    if k :| 0 <= k < |writeIdx| && writeIdx[k] > i && paths[k] == key.0 {
      assert WriteTest(env, calls)(msgs[writeIdx[k]]);
    }
  }

  /** Puts a replacement text in place and reports the characters it saves. */
  method Replace(messages: array<Message>, i: nat, text: string) returns (saved: int)
    requires i < messages.Length && !messages[i].content.Blocks?
    modifies messages
    ensures messages[..] == old(messages[..])[i := old(messages[i]).(content := Plain(text))]
    ensures saved == old(messages[i]).Weight() - messages[i].Weight()
  {
    var size := |messages[i].TextOf()|;
    messages[i] := messages[i].(content := Plain(text));
    saved := size - |text|;
  }

  /** Whether the read at `i` has a newer read of its slice or a later write of its file. */
  method Superseded(env: Env, calls: map<string, Fields>, ghost msgs: seq<Message>, readIdx: seq<nat>,
                    keys: seq<ReadKey>, writeIdx: seq<nat>, paths: seq<string>, n: nat)
    returns (newer: bool, modified: bool)
    requires Lists(msgs, readIdx, |msgs|, ReadTest(env, calls)) && KeysOf(env, calls, msgs, readIdx, keys)
    requires Lists(msgs, writeIdx, |msgs|, WriteTest(env, calls)) && PathsOf(env, calls, msgs, writeIdx, paths)
    requires n < |readIdx|
    ensures readIdx[n] < |msgs| && GoodRead(env, calls, msgs[readIdx[n]])
    ensures |keys| == |readIdx| && keys[n] == KeyOf(env, calls, msgs[readIdx[n]])
    ensures newer == NewerRead(env, calls, msgs, readIdx[n]) && modified == LaterWrite(env, calls, msgs, readIdx[n])
  {
    hide GoodRead, GoodWrite, NewerRead, LaterWrite;
    var i, key := readIdx[n], keys[n];
    RecordsDecide(env, calls, msgs, readIdx, keys, writeIdx, paths, i);
    newer := exists k :: 0 <= k < |readIdx| && readIdx[k] > i && keys[k] == key;
    modified := exists k :: 0 <= k < |writeIdx| && writeIdx[k] > i && paths[k] == key.0;
  }

  method DedupeReads(env: Env, messages: array<Message>, protect: set<nat>, calls: map<string, Fields>)
    returns (count: nat, saved: int)
    requires ToolsArePlain(messages[..])
    modifies messages
    ensures messages[..] == Deduped(env, calls, protect, old(messages[..]))
    ensures count == Changed(old(messages[..]), messages[..], AnyMessage)
    ensures saved == Total(old(messages[..])) - Total(messages[..])
  {
    hide Lists, KeysOf, PathsOf, GoodRead, Walked, Changed, Total, Dumps, StaleText, Marked, NewerRead, LaterWrite,
         Message.Weight, Message.TextOf, Increasing;
    var readIdx, keys, writeIdx, paths := Collect(env, messages, calls);
    ghost var before := messages[..];
    ghost var after := Deduped(env, calls, protect, before);
    count, saved := 0, 0;
    StartWalk(before, after, readIdx);
    for n := 0 to |readIdx|
      invariant Walked(before, after, readIdx, n, messages[..])
      invariant count == Changed(before, messages[..], AnyMessage)
      invariant saved == Total(before) - Total(messages[..])
    {
      var i := readIdx[n];
      ListsAt(before, readIdx, ReadTest(env, calls), n);
      var newer, modified := Superseded(env, calls, before, readIdx, keys, writeIdx, paths, n);
      Visit(before, after, readIdx, n, messages[..], messages[..][i := after[i]], AnyMessage);
      if i in protect || (!newer && !modified) {
        assert messages[..] == messages[..][i := after[i]];
        continue;
      }
      var text := StaleText(keys[n].0, newer);
      StaleIsMarked(keys[n].0, newer);
      GoodReadIsFresh(env, calls, before[i]);
      ReplacementDiffers(before[i], text);
      var gain := Replace(messages, i, text);
      count := count + 1;
      saved := saved + gain;
    }
    OnlyReadsChange(env, calls, protect, before, readIdx);
    WalkDone(before, after, readIdx, messages[..]);
  }

  lemma GoodReadIsFresh(env: Env, calls: map<string, Fields>, m: Message)
    requires GoodRead(env, calls, m)
    ensures Fresh(m)
  {
  }

  lemma ReplacementDiffers(m: Message, text: string)
    requires Fresh(m) && Marked(text)
    ensures !m.content.Blocks? ==> m.(content := Plain(text)) != m
  {
    hide Marked;
  }

  lemma StartWalk(before: seq<Message>, after: seq<Message>, idx: seq<nat>)
    requires |before| == |after|
    ensures Walked(before, after, idx, 0, before)
    ensures Changed(before, before, AnyMessage) == 0 && Changed(before, before, FromLogTool) == 0
  {
    NothingChanged(before, AnyMessage);
    NothingChanged(before, FromLogTool);
  }

  lemma ListsAt(msgs: seq<Message>, idx: seq<nat>, p: Message -> bool, n: nat)
    requires Lists(msgs, idx, |msgs|, p) && n < |idx|
    ensures Increasing(idx) && idx[n] < |msgs| && p(msgs[idx[n]])
  {
  }

  lemma OnlyReadsChange(env: Env, calls: map<string, Fields>, protect: set<nat>, msgs: seq<Message>, idx: seq<nat>)
    requires Lists(msgs, idx, |msgs|, ReadTest(env, calls))
    ensures forall k :: 0 <= k < |msgs| && k !in idx ==> Deduped(env, calls, protect, msgs)[k] == msgs[k]
  {
    hide GoodRead;
    forall k | 0 <= k < |msgs| && k !in idx ensures !GoodRead(env, calls, msgs[k]) {
      assert ReadTest(env, calls)(msgs[k]) == GoodRead(env, calls, msgs[k]);
    }
  }

  predicate IsTool(m: Message) { m.role.ToolResult? }

  method ToolIndices(messages: array<Message>) returns (idx: seq<nat>)
    ensures idx == ToolIdx(messages[..])
  {
    idx := [];
    for i := 0 to messages.Length
      invariant idx == ToolIdx(messages[..i])
    {
      assert messages[..i + 1][..i] == messages[..i];
      if messages[i].role.ToolResult? {
        idx := idx + [i];
      }
    }
    assert messages[..messages.Length] == messages[..];
  }

  lemma {:induction false} ToolIdxLists(msgs: seq<Message>)
    ensures Lists(msgs, ToolIdx(msgs), |msgs|, IsTool)
  {
    if msgs != [] {
      var init := msgs[..|msgs| - 1];
      ToolIdxLists(init);
      assert Lists(msgs, ToolIdx(init), |msgs| - 1, IsTool) by {
        assert forall k :: 0 <= k < |ToolIdx(init)| ==> msgs[ToolIdx(init)[k]] == init[ToolIdx(init)[k]];
        assert forall i :: 0 <= i < |msgs| - 1 ==> msgs[i] == init[i];
      }
      ListsNext(msgs, ToolIdx(init), |msgs| - 1, IsTool);
    }
  }

  method StubLong(env: Env, cfg: Config, messages: array<Message>, idx: seq<nat>, protect: set<nat>,
                  calls: map<string, Fields>)
    returns (count: nat, logs: nat, saved: int)
    requires ToolsArePlain(messages[..]) && idx == ToolIdx(messages[..])
    modifies messages
    ensures messages[..] == Stubbed(env, cfg, calls, protect, old(messages[..]))
    ensures count == Changed(old(messages[..]), messages[..], AnyMessage)
    ensures logs == Changed(old(messages[..]), messages[..], FromLogTool)
    ensures saved == Total(old(messages[..])) - Total(messages[..])
  {
    hide Lists, Walked, Changed, Total, StubText, Marked, Message.Weight, Increasing, ToolIdx, IsLogTool;
    ghost var before := messages[..];
    ghost var after := Stubbed(env, cfg, calls, protect, before);
    count, logs, saved := 0, 0, 0;
    ToolIdxLists(before);
    StartWalk(before, after, idx);
    for n := 0 to |idx|
      invariant Walked(before, after, idx, n, messages[..])
      invariant count == Changed(before, messages[..], AnyMessage)
      invariant logs == Changed(before, messages[..], FromLogTool)
      invariant saved == Total(before) - Total(messages[..])
    {
      var i := idx[n];
      ListsAt(before, idx, IsTool, n);
      Visit(before, after, idx, n, messages[..], messages[..][i := after[i]], AnyMessage);
      Visit(before, after, idx, n, messages[..], messages[..][i := after[i]], FromLogTool);
      var m := messages[i];
      if i in protect || |m.TextOf()| <= cfg.maxChars || Marked(m.TextOf()) {
        assert messages[..] == messages[..][i := after[i]];
        continue;
      }
      var text := StubText(env, m.name, ArgsOf(calls, m), m.TextOf());
      StubIsMarked(env, m.name, ArgsOf(calls, m), m.TextOf());
      ReplacementDiffers(m, text);
      var gain := Replace(messages, i, text);
      if IsLogTool(m.name) { logs := logs + 1; }
      count := count + 1;
      saved := saved + gain;
    }
    OnlyToolsChange(env, cfg, calls, protect, before, idx);
    WalkDone(before, after, idx, messages[..]);
  }

  lemma OnlyToolsChange(env: Env, cfg: Config, calls: map<string, Fields>, protect: set<nat>, msgs: seq<Message>,
                        idx: seq<nat>)
    requires Lists(msgs, idx, |msgs|, IsTool)
    ensures forall k :: 0 <= k < |msgs| && k !in idx ==> Stubbed(env, cfg, calls, protect, msgs)[k] == msgs[k]
  {
    hide StubText;
    forall k | 0 <= k < |msgs| && k !in idx ensures !IsTool(msgs[k]) {
    }
  }

  method ImageIndices(messages: array<Message>) returns (idx: seq<nat>)
    ensures Lists(messages[..], idx, messages.Length, HasImage)
  {
    hide Lists, HasImage;
    idx := [];
    NothingImaged(messages[..]);
    for i := 0 to messages.Length
      invariant Lists(messages[..], idx, i, HasImage)
    {
      ListsNext(messages[..], idx, i, HasImage);
      if HasImage(messages[i]) { idx := idx + [i]; }
    }
  }

  method ElideOldImages(messages: array<Message>) returns (count: nat, saved: int)
    modifies messages
    ensures messages[..] == Elided(old(messages[..]))
    ensures count == Changed(old(messages[..]), messages[..], AnyMessage)
    ensures saved == Total(old(messages[..])) - Total(messages[..])
  {
    hide Lists, HasImage, Walked, Changed, Total, Dumps, Increasing, ElideImages, Elide1;
    ghost var before := messages[..];
    ghost var after := Elided(before);
    var idx := ImageIndices(messages);
    count, saved := 0, 0;
    var olds := if idx == [] then [] else idx[..|idx| - 1];
    OnlyOldImagesChange(before, idx, olds);
    StartWalk(before, after, olds);
    for n := 0 to |olds|
      invariant Walked(before, after, olds, n, messages[..])
      invariant count == Changed(before, messages[..], AnyMessage)
      invariant saved == Total(before) - Total(messages[..])
    {
      var i := olds[n];
      OldImage(before, idx, olds, n);
      Visit(before, after, olds, n, messages[..], messages[..][i := after[i]], AnyMessage);
      var m := messages[i];
      count := count + 1;
      messages[i] := ElideImages(m);
      saved := saved + (|Dumps(Arr(m.content.blocks))| - |Dumps(Arr(messages[i].content.blocks))|);
    }
    WalkDone(before, after, olds, messages[..]);
  }

  lemma NothingImaged(msgs: seq<Message>)
    ensures Lists(msgs, [], 0, HasImage)
  {
  }

  lemma OldImage(msgs: seq<Message>, idx: seq<nat>, olds: seq<nat>, n: nat)
    requires Lists(msgs, idx, |msgs|, HasImage) && olds == (if idx == [] then [] else idx[..|idx| - 1]) && n < |olds|
    ensures olds[n] < |msgs| && msgs[olds[n]].content.Blocks?
    ensures Elided(msgs)[olds[n]] == ElideImages(msgs[olds[n]]) != msgs[olds[n]]
  {
    var last := idx[|idx| - 1];
    assert HasImage(msgs[last]) && HasImage(msgs[idx[n]]) && idx[n] < last;
    assert ImageLater(msgs, olds[n]);
  }

  /** All but the last of the listed images are the only messages that change. */
  lemma OnlyOldImagesChange(msgs: seq<Message>, idx: seq<nat>, olds: seq<nat>)
    requires Lists(msgs, idx, |msgs|, HasImage) && olds == if idx == [] then [] else idx[..|idx| - 1]
    ensures Increasing(olds)
    ensures forall k :: 0 <= k < |msgs| && k !in olds ==> Elided(msgs)[k] == msgs[k]
  {
    hide ElideImages;
    forall k | 0 <= k < |msgs| && k !in olds ensures !(HasImage(msgs[k]) && ImageLater(msgs, k)) {
      OnlyLastStays(msgs, idx, olds, k);
    }
  }

  lemma OnlyLastStays(msgs: seq<Message>, idx: seq<nat>, olds: seq<nat>, k: nat)
    requires Lists(msgs, idx, |msgs|, HasImage) && olds == if idx == [] then [] else idx[..|idx| - 1]
    requires k < |msgs| && k !in olds
    ensures !(HasImage(msgs[k]) && ImageLater(msgs, k))
  {
    hide HasImage;
    forall j | k < j < |msgs| ensures !(HasImage(msgs[k]) && HasImage(msgs[j])) {
      assert HasImage(msgs[k]) ==> k in idx;
      assert HasImage(msgs[j]) ==> j in idx;
      assert k in idx ==> k == idx[|idx| - 1];
    }
  }

  // ---- frames ----

  /** Two transcripts that differ in message contents only. */
  ghost predicate SameHeads(a: seq<Message>, b: seq<Message>) {
    |a| == |b| && forall i :: 0 <= i < |a| ==> b[i] == a[i].(content := b[i].content)
  }

  lemma {:induction false} SameToolIdx(a: seq<Message>, b: seq<Message>)
    requires SameHeads(a, b)
    ensures ToolIdx(a) == ToolIdx(b)
  {
    if a != [] {
      SameToolIdx(a[..|a| - 1], b[..|a| - 1]);
    }
  }

  lemma {:induction false} SameCallArgs(a: seq<Message>, b: seq<Message>)
    requires SameHeads(a, b)
    ensures CallArgs(a) == CallArgs(b)
  {
    if a != [] {
      SameCallArgs(a[..|a| - 1], b[..|a| - 1]);
    }
  }

  /** A message changes in the first two passes only by getting a marked text, which the
      later passes leave alone. */
  lemma TextPassesMark(env: Env, cfg: Config, pinned: set<int>, msgs: seq<Message>)
    requires ToolsArePlain(msgs)
    ensures var s1 := AfterDedupe(env, cfg, pinned, msgs); var s2 := AfterStubs(env, cfg, pinned, msgs);
      && SameHeads(msgs, s1) && SameHeads(msgs, s2) && ToolsArePlain(s1) && ToolsArePlain(s2)
      && (forall i :: 0 <= i < |msgs| ==> (s1[i] == msgs[i] || s2[i] == s1[i]))
      && (forall i :: 0 <= i < |msgs| ==> s2[i] == msgs[i] || (Fresh(msgs[i]) && Marked(s2[i].TextOf()) && s2[i].content.Plain?))
  {
    hide StaleText, StubText, Marked, Succeeded, ReadKeyOf, NewerRead, LaterWrite, CallArgs, Protect;
    var calls, protect := CallArgs(msgs), Protect(cfg, pinned, msgs);
    var s1 := AfterDedupe(env, cfg, pinned, msgs);
    forall i | 0 <= i < |msgs|
      ensures s1[i] == msgs[i] || (Fresh(msgs[i]) && Marked(s1[i].TextOf()) && s1[i] == msgs[i].(content := s1[i].content)
                                   && s1[i].content.Plain?)
    {
      if s1[i] != msgs[i] {
        StaleIsMarked(KeyOf(env, calls, msgs[i]).0, NewerRead(env, calls, msgs, i));
      }
    }
    forall i | 0 <= i < |msgs| ensures Marked(StubText(env, s1[i].name, ArgsOf(calls, s1[i]), s1[i].TextOf())) {
      StubIsMarked(env, s1[i].name, ArgsOf(calls, s1[i]), s1[i].TextOf());
    }
  }

  lemma ImagePassHeads(msgs: seq<Message>)
    ensures SameHeads(msgs, Elided(msgs))
    ensures forall i :: 0 <= i < |msgs| && !msgs[i].content.Blocks? ==> Elided(msgs)[i] == msgs[i]
  {
  }

  /** No message is changed by more than one of the three passes. */
  lemma ChangedOnce(env: Env, cfg: Config, pinned: set<int>, msgs: seq<Message>)
    requires ToolsArePlain(msgs)
    ensures var s1 := AfterDedupe(env, cfg, pinned, msgs); var s2 := AfterStubs(env, cfg, pinned, msgs);
      && |s1| == |s2| == |msgs|
      && Changed(msgs, Elided(s2), AnyMessage)
         == Changed(msgs, s1, AnyMessage) + Changed(s1, s2, AnyMessage) + Changed(s2, Elided(s2), AnyMessage)
  {
    hide AfterDedupe, AfterStubs, Changed, Elide1, Marked;
    var s1 := AfterDedupe(env, cfg, pinned, msgs);
    var s2 := AfterStubs(env, cfg, pinned, msgs);
    TextPassesMark(env, cfg, pinned, msgs);
    ImagePassHeads(s2);
    ChangesAdd(msgs, s1, s2);
    ChangesAdd(msgs, s2, Elided(s2));
  }

  /** The whole pass, in place. */
  method CompactMessages(env: Env, messages: array<Message>, cfg: Config, pinned: set<int>) returns (stats: Stats)
    requires ToolsArePlain(messages[..])
    modifies messages
    ensures messages[..] == Compacted(env, cfg, pinned, old(messages[..]))
    ensures stats.compacted == Changed(old(messages[..]), messages[..], AnyMessage)
    ensures stats.savedChars == Total(old(messages[..])) - Total(messages[..])
    ensures stats.estimatedTokens == stats.savedChars / 4
    ensures cfg.enabled ==> var s0 := old(messages[..]);
      var s1 := AfterDedupe(env, cfg, pinned, s0); var s2 := AfterStubs(env, cfg, pinned, s0);
      && |s0| == |s1| == |s2|
      && stats.deduplicated == Changed(s0, s1, AnyMessage) && stats.logPruned == Changed(s1, s2, FromLogTool)
    ensures !cfg.enabled ==> stats == ZERO
  {
    hide ToolIdx, CallArgs, Deduped, Stubbed, Elided, Changed, Total, ToolsArePlain, SameHeads, Marked, Last;
    ghost var s0 := messages[..];
    NothingChanged(s0, AnyMessage);
    if !cfg.enabled {
      return ZERO;
    }
    var toolIdx := ToolIndices(messages);
    var protect := (set i | i in TailFrom(toolIdx, cfg.keepLast)) + (set i | i in pinned && 0 <= i < messages.Length :: i as nat);
    var calls := ParseCalls(messages);
    TextPassesMark(env, cfg, pinned, s0);
    ChangedOnce(env, cfg, pinned, s0);
    SameToolIdx(s0, AfterDedupe(env, cfg, pinned, s0));
    NothingChanged(s0, AnyMessage);
    var deduped, saved0 := 0, 0;
    if cfg.dedupe {
      deduped, saved0 := DedupeReads(env, messages, protect, calls);
    }
    var stubbed, logs, saved1 := StubLong(env, cfg, messages, toolIdx, protect, calls);
    var elided, saved2 := ElideOldImages(messages);
    var saved := saved0 + saved1 + saved2;
    stats := Stats(deduped + stubbed + elided, deduped, logs, saved, saved / 4);
  }
}

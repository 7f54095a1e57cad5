/** Transcript messages and the texts that compaction puts in their place. */
module Transcript {
  import opened Text
  import opened Json

  datatype Role = System | User | Assistant | ToolResult

  /** `Missing` covers both an absent content and Python's None. */
  datatype Content = Missing | Plain(text: string) | Blocks(blocks: seq<Value>)

  /** A tool call: `args` is None when its arguments do not parse to an object. */
  datatype ToolCall = ToolCall(id: string, args: Option<Fields>)

  datatype Message = Message(role: Role, name: string, callId: string, calls: seq<ToolCall>, content: Content) {
    function TextOf(): string { if content.Plain? then content.text else "" }

    /** The size the accounting gives a message: characters, or for image lists the
        characters of their JSON form. */
    function Weight(): nat {
      if content.Plain? then |content.text| else if content.Blocks? then |Dumps(Arr(content.blocks))| else 0
    }
  }

  /** Library calls: JSON decoding of a prefix (the value and the rest of the text), and
      path normalisation. */
  datatype Env = Env(decode: string -> Option<(Value, string)>, norm: string -> string)

  const MARK := "\"__compacted__\""
  const HEAD_CHARS := 500
  const TAIL_CHARS := 1000
  const RECOVERY_NOTE :=
    "full result elided to save context; retrieve with trace.query view=events run_id=<this run> if needed"
  const IMAGE_NOTE := "[image elided to save context — re-capture if needed]"
  const NEWER_READ := "newer read of the same file slice"
  const LATER_WRITE := "later file write"
  const ERROR_TEXT := "\"status\": \"error\""

  predicate Marked(text: string) { Contains(text, MARK) }

  predicate IsLogTool(name: string) {
    name in {"code.run", "code.check", "test.run", "lint.run", "ops.run", "job.logs"}
  }

  predicate IsWriteTool(name: string) { name in {"fs.write", "fs.edit"} }

  function Take(s: string, n: nat): string { if |s| <= n then s else s[..n] }

  function Lstrip(s: string): string {
    if s == "" || !IsSpace(s[0]) then s else Lstrip(s[1..])
  }

  /** Whether a tool result reports success. */
  predicate Succeeded(env: Env, text: string) {
    var decoded := env.decode(text);
    if decoded.Some? && decoded.value.0.Obj? then
      Get(decoded.value.0.fields, "status") != Some(Str("error"))
    else
      !("{" + ERROR_TEXT <= Lstrip(text))
  }

  function PathOf(env: Env, args: Fields): string {
    var raw := GetOr(args, "path", Null);
    if raw.Str? && raw.s != "" then env.norm(raw.s) else ""
  }

  /** Path, first line, last line and byte cap: different slices are different evidence. */
  type ReadKey = (string, Value, Value, Value)

  function ReadKeyOf(env: Env, args: Fields): Option<ReadKey> {
    var path := PathOf(env, args);
    if path == "" then None else
      Some((path, GetOr(args, "start_line", Int(1)), GetOr(args, "end_line", Null), GetOr(args, "max_bytes", Int(100000))))
  }

  function StatusOf(text: string): Value {
    Str(if Contains(Take(text, 60), ERROR_TEXT) then "error" else "ok")
  }

  function StaleText(path: string, newer: bool): string {
    var reason := if newer then NEWER_READ else LATER_WRITE;
    Dumps(Obj([("status", Str("ok")), ("__compacted__", Bool(true)), ("strategy", Str("stale_read")),
               ("path", Str(path)), ("reason", Str(reason)),
               ("note", Str("stale file content removed (" + reason + "); re-read the file if needed"))]))
  }

  function PrunedNote(omitted: nat): string { "\n… [" + Decimal(omitted) + " chars pruned] …\n" }

  function HeadTail(text: string): string {
    if |text| <= HEAD_CHARS + TAIL_CHARS then text else
      text[..HEAD_CHARS] + PrunedNote(|text| - HEAD_CHARS - TAIL_CHARS) + text[|text| - TAIL_CHARS..]
  }

  /** `text.replace("\n", " ")`. */
  function OneLine(text: string): string {
    seq(|text|, i requires 0 <= i < |text| => if text[i] == '\n' then ' ' else text[i])
  }

  function GenericText(text: string): string {
    Dumps(Obj([("status", StatusOf(text)), ("__compacted__", Bool(true)), ("head", Str(OneLine(Take(text, 300)))),
               ("note", Str(RECOVERY_NOTE))]))
  }

  function PruneStream(result: Fields, stream: string): Fields {
    var text := GetOr(result, stream, Null);
    if text.Str? && |text.s| > HEAD_CHARS + TAIL_CHARS then
      Set(Set(result, stream, Str(HeadTail(text.s))), stream + "_compacted", Bool(true))
    else result
  }

  predicate HasStream(result: Fields, stream: string) {
    var text := GetOr(result, stream, Null);
    text.Str? && text.s != ""
  }

  /** The `code.run` form: both streams pruned inside the payload, the command added when
      the result does not name one. */
  function CodeRunResult(args: Fields, result: Fields): Fields {
    var pruned := PruneStream(PruneStream(result, "stdout"), "stderr");
    var command := GetOr(args, "command", Null);
    if Truthy(command) && Get(pruned, "command").None? then Set(pruned, "command", command) else pruned
  }

  function CodeRunPayload(args: Fields, payload: Value): Option<Fields> {
    if !payload.Obj? || !GetOr(payload.fields, "result", Null).Obj? then None else
      var result := GetOr(payload.fields, "result", Null).fields;
      if !HasStream(result, "stdout") && !HasStream(result, "stderr") then None else
        var a := Set(payload.fields, "result", Obj(CodeRunResult(args, result)));
        var b := Set(a, "__compacted__", Bool(true));
        var c := Set(b, "strategy", Str("log_evidence"));
        Some(Set(c, "note", Str(RECOVERY_NOTE)))
  }

  function CodeRunText(args: Fields, payload: Value, suffix: string): Option<string> {
    var fields := CodeRunPayload(args, payload);
    if fields.None? then None else Some(Dumps(Obj(fields.value)) + suffix)
  }

  /** The fields of the log stub that depend on the call and on the decoded result. */
  function LogExtras(args: Fields, decoded: Option<(Value, string)>): Fields {
    var command := GetOr(args, "command", Null);
    var result := if decoded.Some? && decoded.value.0.Obj? then GetOr(decoded.value.0.fields, "result", Null) else Null;
    (if Truthy(command) then [("command", command)] else [])
    + (if result.Obj? && Get(result.fields, "exit_code").Some? then
         [("exit_code", Get(result.fields, "exit_code").value)] else [])
  }

  function LogStub(name: string, args: Fields, text: string, decoded: Option<(Value, string)>): string {
    Dumps(Obj([("status", StatusOf(text)), ("__compacted__", Bool(true)), ("strategy", Str("log_evidence")),
               ("tool", Str(name)), ("head_tail", Str(HeadTail(text))), ("note", Str(RECOVERY_NOTE))]
              + LogExtras(args, decoded)))
  }

  function LogText(env: Env, name: string, args: Fields, text: string): string {
    var decoded := env.decode(text);
    var run := if name == "code.run" && decoded.Some? then CodeRunText(args, decoded.value.0, decoded.value.1) else None;
    if run.Some? then run.value else LogStub(name, args, text, decoded)
  }

  function StubText(env: Env, name: string, args: Fields, text: string): string {
    if IsLogTool(name) then LogText(env, name, args, text) else GenericText(text)
  }

  predicate IsImage(block: Value) { block.Obj? && Get(block.fields, "type") == Some(Str("image_url")) }

  predicate HasImage(m: Message) {
    m.content.Blocks? && exists i :: 0 <= i < |m.content.blocks| && IsImage(m.content.blocks[i])
  }

  function ElideBlock(block: Value): (r: Value)
    ensures !IsImage(r)
  {
    if IsImage(block) then Obj([("type", Str("text")), ("text", Str(IMAGE_NOTE))]) else block
  }

  function ElideImages(m: Message): (r: Message)
    requires m.content.Blocks?
    ensures !HasImage(r)
    ensures r == m.(content := r.content) && r.content.Blocks?
  {
    var blocks := m.content.blocks;
    m.(content := Blocks(seq(|blocks|, i requires 0 <= i < |blocks| => ElideBlock(blocks[i]))))
  }

  // ---- every replacement text carries the mark ----

  lemma {:induction false} EscapePlain(s: string)
    requires forall i :: 0 <= i < |s| ==> EscapeChar(s[i]) == [s[i]]
    ensures Escape(s) == s
  {
    if s != "" {
      EscapePlain(s[1..]);
    }
  }

  lemma MarkIsQuoted()
    ensures Quote("__compacted__") == MARK
  {
    hide Escape;
    EscapePlain("__compacted__");
  }

  lemma DumpsMarked(fields: Fields, suffix: string)
    requires Get(fields, "__compacted__").Some?
    ensures Marked(Dumps(Obj(fields)) + suffix)
  {
    hide Dumps, Contains, Quote, Get;
    MarkIsQuoted();
    DumpsShowsKey(fields, "__compacted__");
    ContainsWithin("", Dumps(Obj(fields)), suffix, MARK);
    assert "" + Dumps(Obj(fields)) + suffix == Dumps(Obj(fields)) + suffix;
  }

  lemma SecondKey(fields: Fields)
    requires |fields| >= 2 && fields[0].0 == "status" && fields[1].0 == "__compacted__"
    ensures Get(fields, "__compacted__").Some?
  {
    assert fields[1..][0] == fields[1];
  }

  lemma StaleIsMarked(path: string, newer: bool)
    ensures Marked(StaleText(path, newer))
  {
    var reason := if newer then NEWER_READ else LATER_WRITE;
    var fields := [("status", Str("ok")), ("__compacted__", Bool(true)), ("strategy", Str("stale_read")),
                   ("path", Str(path)), ("reason", Str(reason)),
                   ("note", Str("stale file content removed (" + reason + "); re-read the file if needed"))];
    SecondKey(fields);
    DumpsMarked(fields, "");
    assert Dumps(Obj(fields)) + "" == StaleText(path, newer);
  }

  lemma GenericIsMarked(text: string)
    ensures Marked(GenericText(text))
  {
    var fields := [("status", StatusOf(text)), ("__compacted__", Bool(true)), ("head", Str(OneLine(Take(text, 300)))),
                   ("note", Str(RECOVERY_NOTE))];
    SecondKey(fields);
    DumpsMarked(fields, "");
    assert Dumps(Obj(fields)) + "" == GenericText(text);
  }

  lemma CodeRunIsMarked(args: Fields, payload: Value, suffix: string)
    ensures var r := CodeRunText(args, payload, suffix); r.Some? ==> Marked(r.value)
  {
    hide Dumps, Get, CodeRunResult, HasStream, Marked;
    var fields := CodeRunPayload(args, payload);
    if fields.Some? {
      DumpsMarked(fields.value, suffix);
    }
  }

  lemma LogStubIsMarked(name: string, args: Fields, text: string, decoded: Option<(Value, string)>)
    ensures Marked(LogStub(name, args, text, decoded))
  {
    var fields := [("status", StatusOf(text)), ("__compacted__", Bool(true)), ("strategy", Str("log_evidence")),
                   ("tool", Str(name)), ("head_tail", Str(HeadTail(text))), ("note", Str(RECOVERY_NOTE))]
      + LogExtras(args, decoded);
    SecondKey(fields);
    DumpsMarked(fields, "");
    assert Dumps(Obj(fields)) + "" == LogStub(name, args, text, decoded);
  }

  /** Whatever compaction writes can be told from what it has not touched. */
  lemma StubIsMarked(env: Env, name: string, args: Fields, text: string)
    ensures Marked(StubText(env, name, args, text))
  {
    hide CodeRunText, LogStub, GenericText, Marked;
    GenericIsMarked(text);
    var decoded := env.decode(text);
    LogStubIsMarked(name, args, text, decoded);
    if decoded.Some? {
      CodeRunIsMarked(args, decoded.value.0, decoded.value.1);
    }
  }

  // ---- what the stubs keep ----

  lemma HeadTailIs(text: string)
    ensures HeadTail(text) == if |text| <= 1500 then text else
              text[..500] + PrunedNote(|text| - 1500) + text[|text| - 1000..]
  {
    hide PrunedNote;
  }

  lemma EndsSurvive(head: string, middle: string, tail: string)
    ensures var all := head + middle + tail;
      all[..|head|] == head && all[|all| - |tail|..] == tail
  {
  }

  /** The first 500 and the last 1000 characters of a pruned text survive; a short text
      survives whole. */
  lemma HeadTailKeepsEnds(text: string)
    ensures Take(HeadTail(text), 500) == Take(text, 500)
    ensures Last(HeadTail(text), 1000) == Last(text, 1000)
  {
    HeadTailIs(text);
    hide HeadTail, PrunedNote;
    if |text| > HEAD_CHARS + TAIL_CHARS {
      EndsSurvive(text[..500], PrunedNote(|text| - 1500), text[|text| - 1000..]);
    }
  }

  predicate StreamKey(key: string) { key in {"stdout", "stderr", "stdout_compacted", "stderr_compacted"} }

  /** Pruning a `code.run` result loses nothing but the middle of its two streams: every
      other field of the result and of the payload around it is kept. */
  lemma CodeRunKeepsEvidence(args: Fields, payload: Value, key: string)
    requires CodeRunPayload(args, payload).Some?
    ensures var result := GetOr(payload.fields, "result", Null).fields;
      var kept := GetOr(CodeRunPayload(args, payload).value, "result", Null);
      && kept.Obj?
      && (!StreamKey(key) && Get(result, key).Some? ==> Get(kept.fields, key) == Get(result, key))
    ensures key !in {"result", "__compacted__", "strategy", "note"} ==>
      Get(CodeRunPayload(args, payload).value, key) == Get(payload.fields, key)
  {
    hide Get, HasStream, CodeRunResult, StreamKey;
    var result := GetOr(payload.fields, "result", Null).fields;
    if !StreamKey(key) && Get(result, key).Some? {
      ResultKeepsField(args, result, key);
    }
  }

  lemma ResultKeepsField(args: Fields, result: Fields, key: string)
    requires !StreamKey(key) && Get(result, key).Some?
    ensures Get(CodeRunResult(args, result), key) == Get(result, key)
  {
    hide Get, PruneStream, Truthy;
    assert "stdout" + "_compacted" == "stdout_compacted" && "stderr" + "_compacted" == "stderr_compacted";
    var once := PruneStream(result, "stdout");
    StreamKept(result, "stdout", key);
    StreamKept(once, "stderr", key);
  }

  lemma StreamKept(result: Fields, stream: string, key: string)
    ensures key != stream && key != stream + "_compacted" ==> Get(PruneStream(result, stream), key) == Get(result, key)
  {
    hide Get, HeadTail;
  }

  // ---- what the helpers mean ----

  /** The text is white space and then `t`, and whatever follows. */
  ghost predicate BeginsWith(text: string, t: string) {
    exists n :: 0 <= n <= |text| && Blank(text[..n]) && t <= text[n..]
  }

  lemma {:induction false} LstripIs(text: string) returns (n: nat)
    ensures n <= |text| && Lstrip(text) == text[n..] && Blank(text[..n])
    ensures n < |text| ==> !IsSpace(text[n])
  {
    if text == "" || !IsSpace(text[0]) {
      n := 0;
    } else {
      var k := LstripIs(text[1..]);
      n := k + 1;
      assert text[n..] == text[1..][k..];
      assert forall i :: 1 <= i < n ==> text[..n][i] == text[1..][..k][i - 1];
    }
  }

  lemma BlankPrefix(text: string, n: nat)
    requires n <= |text| && Blank(text[..n])
    ensures forall i :: 0 <= i < n ==> IsSpace(text[i])
  {
    assert forall i :: 0 <= i < n ==> text[..n][i] == text[i];
  }

  /** Success is the status field of a decodable dictionary, or else the absence of the error
      prefix. */
  lemma SucceededIs(env: Env, text: string)
    ensures Succeeded(env, text) <==>
      var decoded := env.decode(text);
      if decoded.Some? && decoded.value.0.Obj? then Get(decoded.value.0.fields, "status") != Some(Str("error"))
      else !BeginsWith(text, "{\"status\": \"error\"")
  {
    hide Get;
    var t := "{\"status\": \"error\"";
    assert "{" + ERROR_TEXT == t;
    var n := LstripIs(text);
    if BeginsWith(text, t) {
      var k :| 0 <= k <= |text| && Blank(text[..k]) && t <= text[k..];
      assert text[k] == text[k..][0] == '{';
      BlankPrefix(text, k);
      BlankPrefix(text, n);
    }
  }

  /** The error mark stands in the first 60 characters. */
  ghost predicate StartsFailed(text: string) {
    exists p: nat :: p + 17 <= 60 && At(text, p, "\"status\": \"error\"")
  }

  lemma StatusIs(text: string)
    ensures StatusOf(text) == Str(if StartsFailed(text) then "error" else "ok")
  {
    var t := "\"status\": \"error\"";
    assert ERROR_TEXT == t && |t| == 17;
    var head := Take(text, 60);
    if p: nat :| p + 17 <= 60 && At(text, p, t) {
      assert head[p..p + 17] == text[p..p + 17];
      assert At(head, p, t);
    }
    if Contains(head, t) {
      var p := Find(head, t);
      assert head[p..p + 17] == text[p..p + 17];
      assert At(text, p, t);
    }
  }

  /** `head` is the first 300 characters of the text with its line breaks as blanks. */
  ghost predicate HeadOf(head: string, text: string) {
    && |head| == (if |text| < 300 then |text| else 300)
    && forall i :: 0 <= i < |head| ==> head[i] == if text[i] == '\n' then ' ' else text[i]
  }

  lemma HeadIs(text: string)
    ensures HeadOf(OneLine(Take(text, 300)), text)
  {
  }

  /** A dictionary whose printed form has a text in it under a key. */
  ghost predicate Shows(printed: string, key: string, value: string) {
    Contains(printed, Quote(key) + ": " + Quote(value))
  }

  lemma ShownAt(fields: Fields, i: nat, value: string)
    requires i < |fields| && (forall j :: 0 <= j < i ==> fields[j].0 != fields[i].0) && fields[i].1 == Str(value)
    ensures Shows(Dumps(Obj(fields)), fields[i].0, value)
  {
    hide Contains, Quote;
    GetAt(fields, i);
    DumpsShowsKey(fields, fields[i].0);
  }

  /** What stands in place of a long result of an ordinary tool. */
  lemma GenericTells(text: string)
    ensures exists head :: HeadOf(head, text) && Shows(GenericText(text), "head", head)
    ensures Shows(GenericText(text), "status", if StartsFailed(text) then "error" else "ok")
  {
    hide Shows, StartsFailed, Dumps, OneLine, Take, StatusOf, HeadOf;
    var head := OneLine(Take(text, 300));
    HeadIs(text);
    StatusIs(text);
    var fields := [("status", StatusOf(text)), ("__compacted__", Bool(true)), ("head", Str(head)),
                   ("note", Str(RECOVERY_NOTE))];
    ShownAt(fields, 0, if StartsFailed(text) then "error" else "ok");
    ShownAt(fields, 2, head);
  }

  /** The log stub names the command of the call, and the exit code of the decoded result. */
  lemma LogStubNames(name: string, args: Fields, text: string, decoded: Option<(Value, string)>, command: string)
    ensures command != "" && Get(args, "command") == Some(Str(command)) ==>
      Shows(LogStub(name, args, text, decoded), "command", command)
    ensures decoded.Some? && decoded.value.0.Obj? ==> var result := GetOr(decoded.value.0.fields, "result", Null);
      result.Obj? && Get(result.fields, "exit_code").Some? ==>
        Contains(LogStub(name, args, text, decoded), Quote("exit_code") + ": " + Dumps(Get(result.fields, "exit_code").value))
  {
    hide Get, Dumps, Contains, Quote, StatusOf, HeadTail;
    var extras := LogExtras(args, decoded);
    var fields := [("status", StatusOf(text)), ("__compacted__", Bool(true)), ("strategy", Str("log_evidence")),
                   ("tool", Str(name)), ("head_tail", Str(HeadTail(text))), ("note", Str(RECOVERY_NOTE))] + extras;
    assert forall j :: 6 <= j < |fields| ==> fields[j] == extras[j - 6];
    if command != "" && Get(args, "command") == Some(Str(command)) {
      assert fields[6] == ("command", Str(command));
      ShownAt(fields, 6, command);
    }
    if extras != [] && extras[|extras| - 1].0 == "exit_code" {
      GetAt(fields, |fields| - 1);
      DumpsShowsKey(fields, "exit_code");
    }
  }

  /** What stands in place of a long log: its tool, its status and both of its ends. */
  lemma LogStubTells(name: string, args: Fields, text: string, decoded: Option<(Value, string)>)
    ensures var stub := LogStub(name, args, text, decoded);
      && Shows(stub, "tool", name) && Shows(stub, "head_tail", HeadTail(text))
      && Shows(stub, "status", if StartsFailed(text) then "error" else "ok")
  {
    hide Shows, StartsFailed, Dumps, StatusOf, HeadTail, LogExtras;
    StatusIs(text);
    var fields := [("status", StatusOf(text)), ("__compacted__", Bool(true)), ("strategy", Str("log_evidence")),
                   ("tool", Str(name)), ("head_tail", Str(HeadTail(text))), ("note", Str(RECOVERY_NOTE))]
      + LogExtras(args, decoded);
    ShownAt(fields, 0, if StartsFailed(text) then "error" else "ok");
    ShownAt(fields, 3, name);
    ShownAt(fields, 4, HeadTail(text));
  }

  /** The note in place of a stale read: the file, and why its text is gone. */
  lemma StaleTells(path: string, newer: bool)
    ensures Shows(StaleText(path, newer), "path", path)
    ensures Shows(StaleText(path, newer), "reason",
                  if newer then "newer read of the same file slice" else "later file write")
  {
    hide Shows, Dumps;
    var reason := if newer then NEWER_READ else LATER_WRITE;
    var fields := [("status", Str("ok")), ("__compacted__", Bool(true)), ("strategy", Str("stale_read")),
                   ("path", Str(path)), ("reason", Str(reason)),
                   ("note", Str("stale file content removed (" + reason + "); re-read the file if needed"))];
    ShownAt(fields, 3, path);
    ShownAt(fields, 4, reason);
  }

  /** A result dictionary with text on one of its streams. */
  ghost predicate HasOutput(payload: Value) {
    && payload.Obj? && Get(payload.fields, "result").Some? && Get(payload.fields, "result").value.Obj?
    && var result := Get(payload.fields, "result").value.fields;
       (exists s :: s != "" && (Get(result, "stdout") == Some(Str(s)) || Get(result, "stderr") == Some(Str(s))))
  }

  lemma CodeRunApplies(args: Fields, payload: Value)
    ensures CodeRunPayload(args, payload).Some? <==> HasOutput(payload)
  {
    hide Get, CodeRunResult;
    if payload.Obj? && GetOr(payload.fields, "result", Null).Obj? {
      var result := GetOr(payload.fields, "result", Null).fields;
      var out, err := GetOr(result, "stdout", Null), GetOr(result, "stderr", Null);
      assert out.Str? ==> Get(result, "stdout") == Some(Str(out.s));
      assert err.Str? ==> Get(result, "stderr") == Some(Str(err.s));
    }
  }

  /** What a stream becomes: a long text its pruned form, anything else what it was. */
  ghost predicate Pruned(before: Option<Value>, after: Option<Value>) {
    after == if before.Some? && before.value.Str? && |before.value.s| > 1500
             then Some(Str(HeadTail(before.value.s))) else before
  }

  lemma StreamPruned(result: Fields, stream: string)
    ensures Pruned(Get(result, stream), Get(PruneStream(result, stream), stream))
  {
    hide Get, HeadTail;
    assert |stream + "_compacted"| == |stream| + 10;
  }

  /** Both streams of a `code.run` result are pruned, and the command is added when the result
      does not name one. */
  lemma CodeRunPrunes(args: Fields, payload: Value)
    requires CodeRunPayload(args, payload).Some?
    ensures var result := GetOr(payload.fields, "result", Null).fields;
      var kept := GetOr(CodeRunPayload(args, payload).value, "result", Null);
      && kept.Obj?
      && Pruned(Get(result, "stdout"), Get(kept.fields, "stdout"))
      && Pruned(Get(result, "stderr"), Get(kept.fields, "stderr"))
      && (forall c :: c != "" && Get(args, "command") == Some(Str(c)) && Get(result, "command").None? ==>
            Get(kept.fields, "command") == Some(Str(c)))
  {
    hide Get, HasStream, CodeRunResult, Pruned;
    ResultPrunes(args, GetOr(payload.fields, "result", Null).fields);
  }

  lemma ResultPrunes(args: Fields, result: Fields)
    ensures var kept := CodeRunResult(args, result);
      && Pruned(Get(result, "stdout"), Get(kept, "stdout"))
      && Pruned(Get(result, "stderr"), Get(kept, "stderr"))
      && (forall c :: c != "" && Get(args, "command") == Some(Str(c)) && Get(result, "command").None? ==>
            Get(kept, "command") == Some(Str(c)))
  {
    hide Get, PruneStream, Pruned;
    assert "stdout" + "_compacted" == "stdout_compacted" && "stderr" + "_compacted" == "stderr_compacted";
    var once := PruneStream(result, "stdout");
    StreamPruned(result, "stdout");
    StreamPruned(once, "stderr");
    StreamKept(result, "stdout", "stderr");
    StreamKept(once, "stderr", "stdout");
    StreamKept(result, "stdout", "command");
    StreamKept(once, "stderr", "command");
  }

  /** Which form a long result gets, told by the tool and the decoded result. */
  lemma StubForms(env: Env, name: string, args: Fields, text: string)
    ensures var decoded := env.decode(text);
      StubText(env, name, args, text) ==
        if name !in {"code.run", "code.check", "test.run", "lint.run", "ops.run", "job.logs"} then GenericText(text)
        else if name == "code.run" && decoded.Some? && HasOutput(decoded.value.0) then
          CodeRunApplies(args, decoded.value.0);
          Dumps(Obj(CodeRunPayload(args, decoded.value.0).value)) + decoded.value.1
        else LogStub(name, args, text, decoded)
  {
    hide GenericText, LogStub, CodeRunPayload, HasOutput, Dumps;
    var decoded := env.decode(text);
    if decoded.Some? {
      CodeRunApplies(args, decoded.value.0);
    }
  }

  /** The image pass puts a text block in the place of every image and keeps the others. */
  lemma ElidedBlocks(m: Message, i: nat)
    requires m.content.Blocks? && i < |m.content.blocks|
    ensures var block := m.content.blocks[i];
      && |ElideImages(m).content.blocks| == |m.content.blocks|
      && ElideImages(m).content.blocks[i] ==
           if block.Obj? && Get(block.fields, "type") == Some(Str("image_url"))
           then Obj([("type", Str("text")), ("text", Str("[image elided to save context — re-capture if needed]"))])
           else block
  {
    hide Get;
  }
}

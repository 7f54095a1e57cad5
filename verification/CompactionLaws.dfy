/** What a compaction pass guarantees about the whole transcript. */
module CompactionLaws {
  import opened Text
  import opened Json
  import opened Transcript
  import opened Compaction

  /** Only contents change; the protected results (the last `keepLast` and the pinned ones)
      and everything that is neither a tool result nor an older image message do not. */
  lemma Frame(env: Env, cfg: Config, pinned: set<int>, msgs: seq<Message>)
    requires ToolsArePlain(msgs)
    ensures SameHeads(msgs, Compacted(env, cfg, pinned, msgs))
    ensures forall i :: 0 <= i < |msgs| && msgs[i].role.ToolResult? && i in Protect(cfg, pinned, msgs) ==>
      Compacted(env, cfg, pinned, msgs)[i] == msgs[i]
    ensures forall i :: 0 <= i < |msgs| && !msgs[i].role.ToolResult? && !(HasImage(msgs[i]) && ImageLater(msgs, i)) ==>
      Compacted(env, cfg, pinned, msgs)[i] == msgs[i]
  {
    hide Marked, AfterDedupe, AfterStubs, Protect, ElideImages, HasImage;
    TextPassesMark(env, cfg, pinned, msgs);
    var s2 := AfterStubs(env, cfg, pinned, msgs);
    ImagePassHeads(s2);
    ProtectedStay(env, cfg, pinned, msgs);
    SameImages(msgs, s2);
  }

  /** The text passes neither add nor remove image messages. */
  lemma SameImages(a: seq<Message>, b: seq<Message>)
    requires SameHeads(a, b) && ToolsArePlain(a)
    requires forall i :: 0 <= i < |a| ==> b[i] == a[i] || (Fresh(a[i]) && b[i].content.Plain?)
    ensures forall i :: 0 <= i < |a| ==> HasImage(a[i]) == HasImage(b[i])
    ensures forall i :: 0 <= i < |a| ==> ImageLater(a, i) == ImageLater(b, i)
  {
    forall i | 0 <= i < |a| ensures HasImage(a[i]) == HasImage(b[i]) {
      assert b[i] == a[i] || (!a[i].content.Blocks? && !b[i].content.Blocks?);
    }
  }

  lemma ProtectedStay(env: Env, cfg: Config, pinned: set<int>, msgs: seq<Message>)
    ensures forall i :: 0 <= i < |msgs| && i in Protect(cfg, pinned, msgs) ==>
      AfterStubs(env, cfg, pinned, msgs)[i] == msgs[i]
  {
    hide Protect, CallArgs, Stale, StubText;
  }

  /** What is protected: with a positive `keepLast`, the last so many tool results; and
      every pinned position of the transcript. */
  lemma ProtectedAre(cfg: Config, pinned: set<int>, msgs: seq<Message>, i: nat)
    requires i < |msgs|
    ensures i in Protect(cfg, pinned, msgs) <==>
      i in pinned || (if cfg.keepLast > 0 then i in Last(ToolIdx(msgs), cfg.keepLast)
                      else cfg.keepLast < 0 && -cfg.keepLast <= |ToolIdx(msgs)| && i in ToolIdx(msgs)[-cfg.keepLast..])
  {
    hide ToolIdx, Last;
    var tail := TailFrom(ToolIdx(msgs), cfg.keepLast);
    assert i in Protect(cfg, pinned, msgs) <==> i in tail || i in pinned;
  }

  /** The transcript holds, after position `i`, a successful read of the same slice or a
      successful write of the file that was read at `i`. */
  ghost predicate SupersededAt(env: Env, calls: map<string, Fields>, msgs: seq<Message>, i: nat)
    requires i < |msgs| && GoodRead(env, calls, msgs[i])
  {
    exists j :: i < j < |msgs|
      && ((GoodRead(env, calls, msgs[j]) && KeyOf(env, calls, msgs[j]) == KeyOf(env, calls, msgs[i]))
          || (GoodWrite(env, calls, msgs[j]) && PathOf(env, ArgsOf(calls, msgs[j])) == KeyOf(env, calls, msgs[i]).0))
  }

  lemma SupersededMeans(env: Env, calls: map<string, Fields>, msgs: seq<Message>, i: nat)
    requires i < |msgs| && GoodRead(env, calls, msgs[i])
    ensures SupersededAt(env, calls, msgs, i) <==> NewerRead(env, calls, msgs, i) || LaterWrite(env, calls, msgs, i)
  {
    hide GoodRead, GoodWrite, PathOf, ArgsOf;
  }

  /** A result is replaced by a stale-read note exactly when it is an unprotected successful
      read and the transcript holds a later successful read of the same slice or a later
      successful write of that file. */
  lemma StaleExactlyWhenSuperseded(env: Env, cfg: Config, pinned: set<int>, msgs: seq<Message>, i: nat)
    requires ToolsArePlain(msgs) && i < |msgs|
    ensures AfterDedupe(env, cfg, pinned, msgs)[i] != msgs[i] <==>
      && cfg.dedupe && i !in Protect(cfg, pinned, msgs) && GoodRead(env, CallArgs(msgs), msgs[i])
      && SupersededAt(env, CallArgs(msgs), msgs, i)
  {
    hide GoodRead, GoodWrite, Protect, CallArgs, StaleText, PathOf, ArgsOf, Marked, NewerRead, LaterWrite, SupersededAt;
    var calls := CallArgs(msgs);
    if GoodRead(env, calls, msgs[i]) {
      SupersededMeans(env, calls, msgs, i);
      GoodReadIsFresh(env, calls, msgs[i]);
      StaleIsMarked(KeyOf(env, calls, msgs[i]).0, NewerRead(env, calls, msgs, i));
      ReplacementDiffers(msgs[i], StaleText(KeyOf(env, calls, msgs[i]).0, NewerRead(env, calls, msgs, i)));
    }
  }

  // ---- staleness told by the calls' own arguments ----

  /** The text of a message, empty when it has none. */
  ghost function Said(m: Message): string { if m.content.Plain? then m.content.text else "" }

  /** The arguments a tool result answers: those of the last parsable call with its id. */
  ghost function Given(msgs: seq<Message>, m: Message): Fields {
    if m.callId in CallArgs(msgs) then CallArgs(msgs)[m.callId] else []
  }

  /** A tool result that was not compacted before and reports success, by the status field of
      its decoded dictionary or, without one, by not beginning like an error. */
  ghost predicate SaidOk(env: Env, m: Message) {
    && m.role.ToolResult? && !Contains(Said(m), "\"__compacted__\"")
    && var decoded := env.decode(Said(m));
       if decoded.Some? && decoded.value.0.Obj? then Get(decoded.value.0.fields, "status") != Some(Str("error"))
       else !BeginsWith(Said(m), "{\"status\": \"error\"")
  }

  /** The arguments name the file by a text that normalises to `path`. */
  ghost predicate Names(env: Env, args: Fields, path: string) {
    path != "" && exists raw :: raw != "" && Get(args, "path") == Some(Str(raw)) && env.norm(raw) == path
  }

  ghost predicate ReadsFile(env: Env, msgs: seq<Message>, m: Message, path: string) {
    SaidOk(env, m) && m.name == "fs.read" && Names(env, Given(msgs, m), path)
  }

  ghost predicate WritesFile(env: Env, msgs: seq<Message>, m: Message, path: string) {
    SaidOk(env, m) && m.name in {"fs.write", "fs.edit"} && Names(env, Given(msgs, m), path)
  }

  /** The same part of a file: equal first line, last line and byte cap, with their defaults. */
  ghost predicate SameSlice(a: Fields, b: Fields) {
    && GetOr(a, "start_line", Int(1)) == GetOr(b, "start_line", Int(1))
    && GetOr(a, "end_line", Null) == GetOr(b, "end_line", Null)
    && GetOr(a, "max_bytes", Int(100000)) == GetOr(b, "max_bytes", Int(100000))
  }

  ghost predicate ReadAgain(env: Env, msgs: seq<Message>, i: nat, path: string)
    requires i < |msgs|
  {
    exists j :: i < j < |msgs| && ReadsFile(env, msgs, msgs[j], path) && SameSlice(Given(msgs, msgs[i]), Given(msgs, msgs[j]))
  }

  ghost predicate WrittenLater(env: Env, msgs: seq<Message>, i: nat, path: string)
    requires i < |msgs|
  {
    exists j :: i < j < |msgs| && WritesFile(env, msgs, msgs[j], path)
  }

  lemma PathIs(env: Env, args: Fields, path: string)
    ensures Names(env, args, path) <==> path != "" && PathOf(env, args) == path
  {
    hide Get;
  }

  lemma ReadIs(env: Env, msgs: seq<Message>, m: Message, path: string)
    ensures ReadsFile(env, msgs, m, path) <==>
      GoodRead(env, CallArgs(msgs), m) && KeyOf(env, CallArgs(msgs), m).0 == path
  {
    hide PathOf, CallArgs, Contains, Names, BeginsWith, Succeeded, Get;
    SucceededIs(env, Said(m));
    PathIs(env, Given(msgs, m), path);
  }

  lemma WriteIs(env: Env, msgs: seq<Message>, m: Message, path: string)
    ensures WritesFile(env, msgs, m, path) <==>
      GoodWrite(env, CallArgs(msgs), m) && PathOf(env, ArgsOf(CallArgs(msgs), m)) == path
  {
    hide PathOf, CallArgs, Contains, Names, BeginsWith, Succeeded, Get;
    SucceededIs(env, Said(m));
    PathIs(env, Given(msgs, m), path);
  }

  lemma SliceIs(env: Env, msgs: seq<Message>, m: Message, n: Message)
    requires GoodRead(env, CallArgs(msgs), m) && GoodRead(env, CallArgs(msgs), n)
    ensures KeyOf(env, CallArgs(msgs), m) == KeyOf(env, CallArgs(msgs), n) <==>
      && KeyOf(env, CallArgs(msgs), m).0 == KeyOf(env, CallArgs(msgs), n).0
      && SameSlice(Given(msgs, m), Given(msgs, n))
  {
    hide PathOf, CallArgs, Get, Fresh, Succeeded;
  }

  lemma AgainIs(env: Env, msgs: seq<Message>, i: nat, path: string)
    requires i < |msgs| && GoodRead(env, CallArgs(msgs), msgs[i]) && KeyOf(env, CallArgs(msgs), msgs[i]).0 == path
    ensures ReadAgain(env, msgs, i, path) <==> NewerRead(env, CallArgs(msgs), msgs, i)
  {
    hide ReadsFile, SameSlice, GoodRead, KeyOf, CallArgs, Given;
    forall j | i < j < |msgs|
      ensures ReadsFile(env, msgs, msgs[j], path) && SameSlice(Given(msgs, msgs[i]), Given(msgs, msgs[j])) <==>
        GoodRead(env, CallArgs(msgs), msgs[j]) && KeyOf(env, CallArgs(msgs), msgs[j]) == KeyOf(env, CallArgs(msgs), msgs[i])
    {
      ReadIs(env, msgs, msgs[j], path);
      if GoodRead(env, CallArgs(msgs), msgs[j]) {
        SliceIs(env, msgs, msgs[j], msgs[i]);
        SameSliceBack(Given(msgs, msgs[i]), Given(msgs, msgs[j]));
      }
    }
  }

  lemma SameSliceBack(a: Fields, b: Fields)
    ensures SameSlice(a, b) <==> SameSlice(b, a)
  {
  }

  lemma LaterIs(env: Env, msgs: seq<Message>, i: nat, path: string)
    requires i < |msgs| && GoodRead(env, CallArgs(msgs), msgs[i]) && KeyOf(env, CallArgs(msgs), msgs[i]).0 == path
    ensures WrittenLater(env, msgs, i, path) <==> LaterWrite(env, CallArgs(msgs), msgs, i)
  {
    hide WritesFile, GoodWrite, GoodRead, KeyOf, CallArgs, ArgsOf, PathOf;
    forall j | i < j < |msgs|
      ensures WritesFile(env, msgs, msgs[j], path) <==>
        GoodWrite(env, CallArgs(msgs), msgs[j]) && PathOf(env, ArgsOf(CallArgs(msgs), msgs[j])) == path
    {
      WriteIs(env, msgs, msgs[j], path);
    }
  }

  /** A result is replaced by a stale-read note exactly when it is an unprotected successful
      read and there is, later on, a successful read of the same file with the same first
      line, last line and byte cap, or a successful write of the file; the note names the
      file and which of the two it was. */
  lemma StaleByArguments(env: Env, cfg: Config, pinned: set<int>, msgs: seq<Message>, i: nat)
    requires ToolsArePlain(msgs) && i < |msgs|
    ensures AfterDedupe(env, cfg, pinned, msgs)[i] != msgs[i] <==>
      && cfg.dedupe && i !in Protect(cfg, pinned, msgs)
      && exists path :: ReadsFile(env, msgs, msgs[i], path) && (ReadAgain(env, msgs, i, path) || WrittenLater(env, msgs, i, path))
    ensures AfterDedupe(env, cfg, pinned, msgs)[i] != msgs[i] ==>
      exists path :: ReadsFile(env, msgs, msgs[i], path)
        && AfterDedupe(env, cfg, pinned, msgs)[i]
           == msgs[i].(content := Plain(StaleText(path, ReadAgain(env, msgs, i, path))))
  {
    hide ReadsFile, ReadAgain, WrittenLater, GoodRead, KeyOf, SupersededAt, NewerRead, LaterWrite, CallArgs, Protect,
         StaleText;
    StaleExactlyWhenSuperseded(env, cfg, pinned, msgs, i);
    var calls := CallArgs(msgs);
    forall path ensures ReadsFile(env, msgs, msgs[i], path) <==>
      GoodRead(env, calls, msgs[i]) && KeyOf(env, calls, msgs[i]).0 == path
    {
      ReadIs(env, msgs, msgs[i], path);
    }
    if GoodRead(env, calls, msgs[i]) {
      var path := KeyOf(env, calls, msgs[i]).0;
      assert ReadsFile(env, msgs, msgs[i], path);
      AgainIs(env, msgs, i, path);
      LaterIs(env, msgs, i, path);
      SupersededMeans(env, calls, msgs, i);
    }
  }

  /** Reads of other slices keep a read as it is: with no later write of the file, and every
      later read of it ending at another line, nothing replaces it. */
  lemma OtherSlicesStay(env: Env, cfg: Config, pinned: set<int>, msgs: seq<Message>, i: nat, path: string)
    requires ToolsArePlain(msgs) && i < |msgs| && ReadsFile(env, msgs, msgs[i], path) && !WrittenLater(env, msgs, i, path)
    requires forall j :: i < j < |msgs| && ReadsFile(env, msgs, msgs[j], path) ==>
      GetOr(Given(msgs, msgs[j]), "end_line", Null) != GetOr(Given(msgs, msgs[i]), "end_line", Null)
    ensures AfterDedupe(env, cfg, pinned, msgs)[i] == msgs[i]
  {
    hide ReadsFile, WrittenLater, CallArgs, Protect, StaleText, Deduped, GetOr, AfterDedupe;
    StaleByArguments(env, cfg, pinned, msgs, i);
    forall other | ReadsFile(env, msgs, msgs[i], other) ensures other == path {
      ReadIs(env, msgs, msgs[i], other);
      ReadIs(env, msgs, msgs[i], path);
    }
  }

  /** A result of the first pass is replaced by a shorter form exactly when it is unprotected,
      was not compacted before and has more than `maxChars` characters. */
  lemma StubbedExactly(env: Env, cfg: Config, pinned: set<int>, msgs: seq<Message>, i: nat)
    requires ToolsArePlain(msgs) && i < |msgs|
    ensures var m, after := AfterDedupe(env, cfg, pinned, msgs)[i], AfterStubs(env, cfg, pinned, msgs)[i];
      && (after != m <==>
            && m.role.ToolResult? && i !in Protect(cfg, pinned, msgs) && |Said(m)| > cfg.maxChars
            && !Contains(Said(m), "\"__compacted__\""))
      && (after != m ==> after == m.(content := Plain(StubText(env, m.name, Given(msgs, m), Said(m)))))
  {
    hide CallArgs, Protect, StubText, AfterDedupe, Contains;
    TextPassesMark(env, cfg, pinned, msgs);
    var m := AfterDedupe(env, cfg, pinned, msgs)[i];
    StubIsMarked(env, m.name, Given(msgs, m), Said(m));
  }

  // ---- a second pass finds nothing to do ----

  /** `b` is `a` after some texts were replaced by marked ones. */
  ghost predicate MarkedOver(a: seq<Message>, b: seq<Message>) {
    SameHeads(a, b) && forall i :: 0 <= i < |a| && Fresh(b[i]) ==> b[i] == a[i]
  }

  /** Replacing texts by marked ones makes no read stale that was not stale before. */
  lemma NoNewStale(env: Env, calls: map<string, Fields>, a: seq<Message>, b: seq<Message>, i: nat)
    requires MarkedOver(a, b) && i < |a| && Stale(env, calls, b, i)
    ensures b[i] == a[i] && Stale(env, calls, a, i)
  {
    hide Succeeded, ReadKeyOf, PathOf, ArgsOf, Marked;
    if NewerRead(env, calls, b, i) {
      var j :| i < j < |b| && GoodRead(env, calls, b[j]) && KeyOf(env, calls, b[j]) == KeyOf(env, calls, b[i]);
      assert GoodRead(env, calls, a[j]);
    } else {
      var j :| i < j < |b| && GoodWrite(env, calls, b[j]) && PathOf(env, ArgsOf(calls, b[j])) == KeyOf(env, calls, b[i]).0;
      assert GoodWrite(env, calls, a[j]);
    }
  }

  /** After the text passes no read that still shows its text is stale and unprotected,
      and no unprotected fresh result is too long. */
  lemma NothingLeft(env: Env, cfg: Config, pinned: set<int>, msgs: seq<Message>, i: nat)
    requires ToolsArePlain(msgs) && i < |msgs|
    requires Fresh(AfterStubs(env, cfg, pinned, msgs)[i]) && i !in Protect(cfg, pinned, msgs)
    ensures AfterStubs(env, cfg, pinned, msgs)[i] == msgs[i]
    ensures cfg.dedupe ==> !Stale(env, CallArgs(msgs), msgs, i)
    ensures |msgs[i].TextOf()| <= cfg.maxChars
  {
    hide Marked, CallArgs, Protect, StubText, StaleText, GoodRead, NewerRead, LaterWrite;
    TextPassesMark(env, cfg, pinned, msgs);
    var calls := CallArgs(msgs);
    var s1 := AfterDedupe(env, cfg, pinned, msgs);
    StubIsMarked(env, s1[i].name, ArgsOf(calls, s1[i]), s1[i].TextOf());
    if cfg.dedupe && Stale(env, calls, msgs, i) {
      StaleIsMarked(KeyOf(env, calls, msgs[i]).0, NewerRead(env, calls, msgs, i));
    }
  }

  /** The text passes do nothing to a transcript that has been compacted. */
  lemma TextPassesSettle(env: Env, cfg: Config, pinned: set<int>, msgs: seq<Message>)
    requires ToolsArePlain(msgs) && cfg.enabled
    ensures var done := Compacted(env, cfg, pinned, msgs); AfterStubs(env, cfg, pinned, done) == done
  {
    hide Marked, CallArgs, Protect, StubText, StaleText, Stale, AfterStubs, ElideImages, HasImage, ImageLater;
    var s2 := AfterStubs(env, cfg, pinned, msgs);
    var done := Elided(s2);
    TextPassesMark(env, cfg, pinned, msgs);
    ImagePassHeads(s2);
    SameCallArgs(msgs, done);
    SameProtect(cfg, pinned, msgs, done);
    var calls, protect := CallArgs(msgs), Protect(cfg, pinned, msgs);
    forall i | 0 <= i < |msgs| && Fresh(done[i]) ensures done[i] == msgs[i] {
      assert done[i] == s2[i];
    }
    assert AfterDedupe(env, cfg, pinned, done) == done by {
      forall i | 0 <= i < |done| && cfg.dedupe && i !in protect ensures !Stale(env, calls, done, i) {
        StillNotStale(env, cfg, pinned, msgs, done, i);
      }
    }
    forall i | 0 <= i < |done| ensures Stub1(env, cfg, calls, protect, done[i], i) == done[i] {
      if Fresh(done[i]) && i !in protect {
        assert done[i] == s2[i];
        NothingLeft(env, cfg, pinned, msgs, i);
      }
    }
    StubsAre(env, cfg, pinned, done);
  }

  lemma StubsAre(env: Env, cfg: Config, pinned: set<int>, msgs: seq<Message>)
    ensures AfterStubs(env, cfg, pinned, msgs) ==
      Stubbed(env, cfg, CallArgs(msgs), Protect(cfg, pinned, msgs), AfterDedupe(env, cfg, pinned, msgs))
  {
  }

  lemma StillNotStale(env: Env, cfg: Config, pinned: set<int>, msgs: seq<Message>, done: seq<Message>, i: nat)
    requires ToolsArePlain(msgs) && cfg.enabled && cfg.dedupe && i < |msgs| && i !in Protect(cfg, pinned, msgs)
    requires done == Compacted(env, cfg, pinned, msgs) && MarkedOver(msgs, done)
    ensures !Stale(env, CallArgs(msgs), done, i)
  {
    hide Marked, CallArgs, Protect, AfterStubs, ElideImages, HasImage, ImageLater, Succeeded, ReadKeyOf, NewerRead,
         LaterWrite;
    var calls := CallArgs(msgs);
    var s2 := AfterStubs(env, cfg, pinned, msgs);
    TextPassesMark(env, cfg, pinned, msgs);
    ImagePassHeads(s2);
    if Stale(env, calls, done, i) {
      NoNewStale(env, calls, msgs, done, i);
      NothingLeft(env, cfg, pinned, msgs, i);
    }
  }

  lemma SameProtect(cfg: Config, pinned: set<int>, a: seq<Message>, b: seq<Message>)
    requires SameHeads(a, b)
    ensures Protect(cfg, pinned, a) == Protect(cfg, pinned, b)
  {
    SameToolIdx(a, b);
  }

  /** One image message is left at most, so the image pass has nothing more to remove. */
  lemma ImagePassSettles(msgs: seq<Message>)
    ensures Elided(Elided(msgs)) == Elided(msgs)
  {
    hide HasImage;
    var once := Elided(msgs);
    forall i | 0 <= i < |msgs| ensures Elide1(once, i) == once[i] {
      if HasImage(once[i]) && ImageLater(once, i) {
        var j :| i < j < |once| && HasImage(once[j]);
        LeftImage(msgs, i);
        LeftImage(msgs, j);
      }
    }
  }

  /** One of the message's blocks is an image. */
  ghost predicate HoldsImage(m: Message) {
    m.content.Blocks? && exists k ::
      0 <= k < |m.content.blocks|
      && m.content.blocks[k].Obj? && Get(m.content.blocks[k].fields, "type") == Some(Str("image_url"))
  }

  lemma HoldsIs(m: Message)
    ensures HoldsImage(m) <==> HasImage(m)
  {
    hide Get;
    if m.content.Blocks? {
      assert forall k :: 0 <= k < |m.content.blocks| ==> (IsImage(m.content.blocks[k]) <==>
        m.content.blocks[k].Obj? && Get(m.content.blocks[k].fields, "type") == Some(Str("image_url")));
    }
  }

  /** After the image pass exactly the newest message with an image still holds one, and it is
      as it was. */
  lemma NewestImageStays(msgs: seq<Message>, i: nat)
    requires i < |msgs|
    ensures HoldsImage(Elided(msgs)[i]) <==> HoldsImage(msgs[i]) && forall j :: i < j < |msgs| ==> !HoldsImage(msgs[j])
    ensures HoldsImage(Elided(msgs)[i]) || !HoldsImage(msgs[i]) ==> Elided(msgs)[i] == msgs[i]
  {
    hide HoldsImage, HasImage;
    HoldsIs(Elided(msgs)[i]);
    forall j | 0 <= j < |msgs| ensures HoldsImage(msgs[j]) <==> HasImage(msgs[j]) {
      HoldsIs(msgs[j]);
    }
  }

  lemma LeftImage(msgs: seq<Message>, i: nat)
    requires i < |msgs| && HasImage(Elided(msgs)[i])
    ensures HasImage(msgs[i]) && !ImageLater(msgs, i)
  {
  }

  /** Compaction is idempotent: a second pass with the same configuration and pins changes
      no message. */
  lemma Idempotent(env: Env, cfg: Config, pinned: set<int>, msgs: seq<Message>)
    requires ToolsArePlain(msgs)
    ensures var done := Compacted(env, cfg, pinned, msgs); Compacted(env, cfg, pinned, done) == done
  {
    hide AfterStubs, Elided;
    if cfg.enabled {
      TextPassesSettle(env, cfg, pinned, msgs);
      ImagePassSettles(AfterStubs(env, cfg, pinned, msgs));
    }
  }

  /** Two passes in a row: the second leaves every message as it is and reports zero for
      every counter. */
  method CompactTwice(env: Env, messages: array<Message>, cfg: Config, pinned: set<int>)
    returns (first: Stats, second: Stats)
    requires ToolsArePlain(messages[..])
    modifies messages
    ensures messages[..] == Compacted(env, cfg, pinned, old(messages[..]))
    ensures first.savedChars == Total(old(messages[..])) - Total(messages[..])
    ensures second == ZERO
  {
    hide Compacted, ToolsArePlain, Changed, Total;
    ghost var s0 := messages[..];
    PlainStays(env, cfg, pinned, s0);
    first := CompactMessages(env, messages, cfg, pinned);
    ghost var s1 := messages[..];
    Idempotent(env, cfg, pinned, s0);
    NothingChanged(s1, AnyMessage);
    second := CompactMessages(env, messages, cfg, pinned);
    if cfg.enabled {
      StagesSettle(env, cfg, pinned, s0);
      NothingChanged(s1, FromLogTool);
    }
  }

  lemma PlainStays(env: Env, cfg: Config, pinned: set<int>, msgs: seq<Message>)
    requires ToolsArePlain(msgs)
    ensures ToolsArePlain(Compacted(env, cfg, pinned, msgs))
  {
    hide AfterStubs, HasImage, ImageLater, ElideImages, Marked;
    TextPassesMark(env, cfg, pinned, msgs);
    ImagePassHeads(AfterStubs(env, cfg, pinned, msgs));
  }

  /** Both text passes, one by one, do nothing to a compacted transcript. */
  lemma StagesSettle(env: Env, cfg: Config, pinned: set<int>, msgs: seq<Message>)
    requires ToolsArePlain(msgs) && cfg.enabled
    ensures var done := Compacted(env, cfg, pinned, msgs);
      AfterDedupe(env, cfg, pinned, done) == done && AfterStubs(env, cfg, pinned, done) == done
  {
    hide Compacted, AfterDedupe, AfterStubs, Marked;
    var done := Compacted(env, cfg, pinned, msgs);
    TextPassesSettle(env, cfg, pinned, msgs);
    PlainStays(env, cfg, pinned, msgs);
    TextPassesMark(env, cfg, pinned, done);
  }
}

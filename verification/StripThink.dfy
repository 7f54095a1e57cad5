/** The two ways a model turn becomes answer text: the streamed path (split while
    streaming, then strip) and the whole-string path (strip the finished text). */
module StripThink {
  import opened Text
  import opened ThinkSplitter

  const OPEN := "<think>"
  const CLOSE := "</think>"

  /** Removes every complete `<think>...</think>` block: leftmost match first, the
      shortest body that reaches a close tag, no overlaps. */
  function RemoveBlocks(tag: Tag, s: string): string
    decreases |s|
  {
    var i := Find(s, tag.open);
    if i < 0 then s
    else
      var body := s[i + |tag.open|..];
      var j := Find(body, tag.close);
      if j < 0 || tag.open == "" then s
      else s[..i] + RemoveBlocks(tag, body[j + |tag.close|..])
  }

  /** Cuts the text at the first open tag left over by an unterminated block. */
  function CutAtOpen(tag: Tag, s: string): string {
    var i := Find(s, tag.open);
    if i < 0 then s else s[..i]
  }

  /** The whole-string path. `gemma` stands for the channel-frame substitutions; what
      it does is left open. */
  function StripThinkText(text: string, family: Family, gemma: string -> string): string {
    if text == "" || family == NoFamily then text
    else
      var touched := (family == Both || family == Gemma4) && (Contains(text, "<|channel>") || Contains(text, "<channel|>"));
      var out := if touched then gemma(text) else text;
      if family == Gemma4 || !Contains(out, OPEN) then
        if touched then Strip(out) else out
      else
        Strip(CutAtOpen(QWEN_TAG, RemoveBlocks(QWEN_TAG, out)))
  }

  /** The content of a streamed turn: the joined answer pieces, stripped once more. */
  function StreamedContent(answer: string, family: Family, gemma: string -> string): string {
    Strip(StripThinkText(answer, family, gemma))
  }

  /** The cut keeps everything in front of the first open tag. */
  lemma CutHasNoOpen(tag: Tag, s: string)
    requires tag.open != ""
    ensures Find(CutAtOpen(tag, s), tag.open) == -1
    ensures CutAtOpen(tag, s) <= s && (CutAtOpen(tag, s) == s || At(s, |CutAtOpen(tag, s)|, tag.open))
  {
    var i := Find(s, tag.open);
    if i >= 0 {
      var c := CutAtOpen(tag, s);
      forall p: nat ensures !At(c, p, tag.open) {
        if p + |tag.open| <= |c| {
          assert c[p..p + |tag.open|] == s[p..p + |tag.open|];
          assert !At(s, p, tag.open);
        }
      }
    }
  }

  /** No answer that left the whole-string path still carries an open tag, whatever
      the text and whatever the channel-frame substitutions did. */
  lemma StripLeavesNoOpen(text: string, family: Family, gemma: string -> string)
    requires family == Qwen3 || family == Both
    ensures Find(StripThinkText(text, family, gemma), OPEN) == -1
  {
    if text != "" {
      var touched := family == Both && (Contains(text, "<|channel>") || Contains(text, "<channel|>"));
      var out := if touched then gemma(text) else text;
      if !Contains(out, OPEN) {
        StripKeepsAbsence(out, OPEN);
      } else {
        CutHasNoOpen(QWEN_TAG, RemoveBlocks(QWEN_TAG, out));
        StripKeepsAbsence(CutAtOpen(QWEN_TAG, RemoveBlocks(QWEN_TAG, out)), OPEN);
      }
    }
  }

  /** The text holds a channel marker. */
  ghost predicate HasChannel(text: string) {
    exists p: nat :: At(text, p, "<|channel>") || At(text, p, "<channel|>")
  }

  /** What the whole-string path leaves alone, byte for byte, and what it hands on. */
  lemma StripByFamily(text: string, gemma: string -> string)
    ensures StripThinkText(text, NoFamily, gemma) == text
    ensures !HasChannel(text) ==> StripThinkText(text, Gemma4, gemma) == text
    ensures HasChannel(text) ==> StripThinkText(text, Gemma4, gemma) == Strip(gemma(text))
    ensures Find(text, "<think>") == -1 ==> StripThinkText(text, Qwen3, gemma) == text
    ensures !HasChannel(text) ==> StripThinkText(text, Both, gemma) == StripThinkText(text, Qwen3, gemma)
    ensures HasChannel(text) && Find(gemma(text), "<think>") >= 0 ==>
      StripThinkText(text, Both, gemma) == StripThinkText(gemma(text), Qwen3, gemma)
  {
    hide Strip, RemoveBlocks, CutAtOpen;
  }

  lemma StripTwice(text: string, gemma: string -> string)
    ensures StripThinkText(StripThinkText(text, Qwen3, gemma), Qwen3, gemma) == StripThinkText(text, Qwen3, gemma)
  {
    StripLeavesNoOpen(text, Qwen3, gemma);
  }

  // ---- the scanner and the block remover agree ----

  /** What an unterminated block leaves behind after the complete ones are gone. */
  function Unterminated(tag: Tag, s: string): (tail: string)
    requires tag.open != ""
    ensures tail == "" || At(tail, 0, tag.open)
    decreases |s|
  {
    var i := Find(s, tag.open);
    if i < 0 then ""
    else
      var body := s[i + |tag.open|..];
      var j := Find(body, tag.close);
      if j < 0 then
        assert s[i..][0..|tag.open|] == s[i..i + |tag.open|];
        s[i..]
      else Unterminated(tag, body[j + |tag.close|..])
  }

  /** The text the scanner calls answer when splitting on one tag. */
  function ScannedAnswer(tag: Tag, s: string): string {
    AnswerOf(Scan([tag], None, s))
  }

  lemma {:induction false} AnswerOfAppend(a: seq<Token>, b: seq<Token>)
    ensures AnswerOf(a + b) == AnswerOf(a) + AnswerOf(b)
  {
    if b == [] {
      assert a + b == a;
    } else {
      AnswerOfAppend(a, b[..|b| - 1]);
      assert (a + b)[..|a + b| - 1] == a + b[..|b| - 1];
    }
  }

  lemma ScanNoOpenAnswer(tags: seq<Tag>, s: string)
    requires NoOpenBefore(tags, s, |s|)
    ensures AnswerOf(Scan(tags, None, s)) == s
  {
    ScanPlain(tags, s, |s|);
    assert s[..|s|] == s && s[|s|..] == "";
    AnswersOf([], s);
    assert [] + Answers(s) == Answers(s) == Scan(tags, None, s);
  }

  lemma AnswerOfPlain(s: string, rest: seq<Token>)
    ensures AnswerOf(Answers(s) + rest) == s + AnswerOf(rest)
  {
    AnswerOfAppend(Answers(s), rest);
    AnswersOf([], s);
    assert [] + Answers(s) == Answers(s);
  }

  lemma AnswerOfSilent(log: seq<Token>, rest: seq<Token>)
    requires AnswerOf(log) == ""
    ensures AnswerOf(log + rest) == AnswerOf(rest)
  {
    AnswerOfAppend(log, rest);
  }

  lemma ScanOpens(tag: Tag, s: string)
    requires tag.open != "" && At(s, 0, tag.open)
    ensures ScannedAnswer(tag, s) == AnswerOf(Scan([tag], Some(tag.close), s[|tag.open|..]))
  {
    assert OpenAt([tag], s, 0) == 0 by {
      assert At(s, 0, [tag][0].open);
    }
    TagOf([], Opened(tag.open));
    assert [] + [Opened(tag.open)] == [Opened(tag.open)];
    AnswerOfSilent([Opened(tag.open)], Scan([tag], Some(tag.close), s[|tag.open|..]));
  }

  lemma ScanCloses(tag: Tag, s: string)
    requires tag.close != "" && At(s, 0, tag.close)
    ensures AnswerOf(Scan([tag], Some(tag.close), s)) == ScannedAnswer(tag, s[|tag.close|..])
  {
    TagOf([], Closed(tag.close));
    assert [] + [Closed(tag.close)] == [Closed(tag.close)];
    AnswerOfSilent([Closed(tag.close)], Scan([tag], None, s[|tag.close|..]));
  }

  /** Up to the first open tag the scanner passes text through. */
  lemma ScannedBeforeOpen(tag: Tag, s: string, i: nat)
    requires tag.open != "" && i == Find(s, tag.open)
    ensures ScannedAnswer(tag, s)
            == s[..i] + AnswerOf(Scan([tag], Some(tag.close), s[i + |tag.open|..]))
  {
    ScanPlain([tag], s, i);
    AtShift(s, i, 0, tag.open);
    ScanOpens(tag, s[i..]);
    assert s[i..][|tag.open|..] == s[i + |tag.open|..];
    AnswerOfPlain(s[..i], Scan([tag], None, s[i..]));
  }

  /** Inside a block nothing is answer until the close tag. */
  lemma ScannedInBlock(tag: Tag, body: string)
    requires tag.close != ""
    ensures var j := Find(body, tag.close);
      AnswerOf(Scan([tag], Some(tag.close), body))
      == if j < 0 then "" else ScannedAnswer(tag, body[j + |tag.close|..])
  {
    var j := Find(body, tag.close);
    var n := if j < 0 then |body| else j;
    ScanThought([tag], tag.close, body, n);
    ReasoningsOf([], body[..n]);
    assert [] + Reasonings(body[..n]) == Reasonings(body[..n]);
    AnswerOfSilent(Reasonings(body[..n]), Scan([tag], Some(tag.close), body[n..]));
    if j >= 0 {
      AtShift(body, j, 0, tag.close);
      ScanCloses(tag, body[j..]);
      assert body[j..][|tag.close|..] == body[j + |tag.close|..];
    }
  }

  /** One step of block removal and of looking for an unterminated tail. */
  lemma BlockStep(tag: Tag, s: string)
    requires tag.open != "" && Find(s, tag.open) >= 0
    ensures var i := Find(s, tag.open);
      var body := s[i + |tag.open|..];
      var j := Find(body, tag.close);
      if j < 0 then RemoveBlocks(tag, s) == s && Unterminated(tag, s) == s[i..]
      else
        var post := body[j + |tag.close|..];
        && RemoveBlocks(tag, s) == s[..i] + RemoveBlocks(tag, post)
        && Unterminated(tag, s) == Unterminated(tag, post)
  {
    hide Leftmost, At;
  }

  lemma NoBlocks(tag: Tag, s: string)
    requires tag.open != "" && Find(s, tag.open) < 0
    ensures RemoveBlocks(tag, s) == s && Unterminated(tag, s) == ""
  {
  }

  /** Block removal keeps the scanned answer plus an unterminated tail. */
  lemma {:induction false} RemoveIsScan(tag: Tag, s: string)
    requires tag.open != "" && tag.close != ""
    ensures RemoveBlocks(tag, s) == ScannedAnswer(tag, s) + Unterminated(tag, s)
    decreases |s|
  {
    hide Scan, AnswerOf, Leftmost, RemoveBlocks, Unterminated;
    var i := Find(s, tag.open);
    if i < 0 {
      NoBlocks(tag, s);
      NothingBefore(tag, s);
      ScanNoOpenAnswer([tag], s);
    } else {
      BlockStep(tag, s);
      var body := s[i + |tag.open|..];
      ScannedBeforeOpen(tag, s, i);
      ScannedInBlock(tag, body);
      var j := Find(body, tag.close);
      if j < 0 {
        CutAnywhere(s, i);
      } else {
        var post := body[j + |tag.close|..];
        RemoveIsScan(tag, post);
        Regroup(s[..i], ScannedAnswer(tag, post), Unterminated(tag, post));
      }
    }
  }

  lemma NothingBefore(tag: Tag, s: string)
    requires Find(s, tag.open) < 0
    ensures NoOpenBefore([tag], s, |s|)
  {
  }

  lemma CutAnywhere(s: string, i: nat)
    requires i <= |s|
    ensures s == s[..i] + "" + s[i..]
  {
  }

  /** The first character of the tag occurs in it only once. */
  ghost predicate LeadsOnce(open: string) {
    open != "" && forall q :: 0 < q < |open| ==> open[q] != open[0]
  }

  /** Such a tag cannot straddle into a tail that starts with it. */
  lemma CutIgnoresTail(tag: Tag, a: string, tail: string)
    requires LeadsOnce(tag.open)
    requires tail == "" || At(tail, 0, tag.open)
    ensures CutAtOpen(tag, a + tail) == CutAtOpen(tag, a)
  {
    var all := a + tail;
    var open := tag.open;
    if tail == "" {
      assert all == a;
    } else {
      forall p: nat | p < |a| ensures At(all, p, open) == At(a, p, open) {
        if p + |open| <= |a| {
          assert all[p..p + |open|] == a[p..p + |open|];
        } else if p + |open| <= |all| {
          var q := |a| - p;
          assert tail[0] == tail[0..|open|][0] == open[0];
          assert all[p..p + |open|][q] == open[0] != open[q];
        }
      }
      assert all[|a|..] == tail;
      AtShift(all, |a|, 0, open);
      var i := Find(a, open);
      if i < 0 {
        assert Find(all, open) == |a|;
        assert all[..|a|] == a;
      } else {
        assert Find(all, open) == i;
        assert all[..i] == a[..i];
      }
    }
  }

  /** A complete block has formed out of the answer pieces, from text that was never
      together in the stream. */
  predicate BlockFormed(answer: string) {
    var i := Find(answer, OPEN);
    i >= 0 && Contains(answer[i + |OPEN|..], CLOSE)
  }

  /** Streamed and whole-string answers are the same up to outer white space, for
      every raw text, unless joining the answer pieces makes a new complete block. */
  lemma PathsAgree(raw: string, gemma: string -> string)
    requires !BlockFormed(ScannedAnswer(QWEN_TAG, raw))
    ensures StreamedContent(ScannedAnswer(QWEN_TAG, raw), Qwen3, gemma) == Strip(StripThinkText(raw, Qwen3, gemma))
  {
    var a := ScannedAnswer(QWEN_TAG, raw);
    assert LeadsOnce(OPEN);
    RemoveIsScan(QWEN_TAG, raw);
    CutIgnoresTail(QWEN_TAG, a, Unterminated(QWEN_TAG, raw));
    var core := CutAtOpen(QWEN_TAG, a);
    StripIdempotent(core);
    assert RemoveBlocks(QWEN_TAG, a) == a;
    WholeIsCut(raw, core, gemma);
    WholeIsCut(a, core, gemma);
  }

  /** After removing the blocks that formed by joining, nothing but white space is left
      between the first of them and the next open tag. */
  predicate OnlySpaceBehind(answer: string) {
    var i := Find(answer, OPEN);
    var kept := CutAtOpen(QWEN_TAG, RemoveBlocks(QWEN_TAG, answer));
    0 <= i <= |kept| && Blank(kept[i..])
  }

  /** Exactly when the two paths agree: always, unless joining the answer pieces makes a
      new complete block that has answer text behind it. */
  lemma PathsAgreeExactly(raw: string, gemma: string -> string)
    ensures var answer := ScannedAnswer(QWEN_TAG, raw);
      StreamedContent(answer, Qwen3, gemma) == Strip(StripThinkText(raw, Qwen3, gemma))
      <==> !BlockFormed(answer) || OnlySpaceBehind(answer)
  {
    hide Strip, Blank, StripThinkText, RemoveBlocks, CutAtOpen;
    var a := ScannedAnswer(QWEN_TAG, raw);
    if !BlockFormed(a) {
      PathsAgree(raw, gemma);
    } else {
      assert LeadsOnce(OPEN);
      RemoveIsScan(QWEN_TAG, raw);
      CutIgnoresTail(QWEN_TAG, a, Unterminated(QWEN_TAG, raw));
      WholeIsCut(raw, CutAtOpen(QWEN_TAG, a), gemma);
      WholeIsCut(a, CutAtOpen(QWEN_TAG, RemoveBlocks(QWEN_TAG, a)), gemma);
      StripIdempotent(StripThinkText(a, Qwen3, gemma));
      KeptAgrees(a);
    }
  }

  /** Behind a formed block: what the streamed path keeps strips to the same text as what
      the whole-string path keeps exactly when only white space was added. */
  lemma KeptAgrees(a: string)
    requires BlockFormed(a)
    ensures Strip(CutAtOpen(QWEN_TAG, RemoveBlocks(QWEN_TAG, a))) == Strip(CutAtOpen(QWEN_TAG, a)) <==> OnlySpaceBehind(a)
  {
    var i := Find(a, OPEN);
    var all := RemoveBlocks(QWEN_TAG, a);
    var kept := CutAtOpen(QWEN_TAG, all);
    assert all[..i] == a[..i];
    if i <= |kept| {
      assert kept == a[..i] + kept[i..];
      StripAppend(a[..i], kept[i..]);
    } else {
      var k := |kept|;
      AtChar(all, k, OPEN, 0);
      assert a[..i] == kept + a[k..i];
      assert !IsSpace(a[k..i][0]);
      StripAppend(kept, a[k..i]);
    }
  }

  lemma WholeIsCut(text: string, core: string, gemma: string -> string)
    requires core == CutAtOpen(QWEN_TAG, RemoveBlocks(QWEN_TAG, text))
    ensures Strip(StripThinkText(text, Qwen3, gemma)) == Strip(core)
  {
    StripIdempotent(core);
    if !Contains(text, OPEN) {
      assert RemoveBlocks(QWEN_TAG, text) == text;
    }
  }

  const MID := "ink>" + CLOSE + "b"
  const REJOINED := OPEN + CLOSE + "b"

  lemma MidHasNoOpen()
    ensures Find(MID, OPEN) == -1
  {
    forall p: nat ensures !At(MID, p, OPEN) {
      if p + 7 <= |MID| {
        assert MID[4] == '<' && MID[5] == '/';
        assert MID[p] != '<' || MID[p + 1] != 't';
        assert MID[p..p + 7][0] == MID[p] && MID[p..p + 7][1] == MID[p + 1];
      }
    }
  }

  lemma RejoinedRemoved()
    ensures Find(REJOINED, OPEN) == 0
    ensures RemoveBlocks(QWEN_TAG, REJOINED) == "b" && CutAtOpen(QWEN_TAG, REJOINED) == ""
  {
    EmptyBlock("", "b");
    assert "" + OPEN + CLOSE + "b" == REJOINED;
    assert Find("b", OPEN) == -1;
    assert "" + RemoveBlocks(QWEN_TAG, "b") == "b";
  }

  lemma RejoinedFormed()
    ensures BlockFormed(REJOINED)
  {
    RejoinedRemoved();
    var rest := CLOSE + "b";
    assert REJOINED[|OPEN|..] == rest;
    assert rest[0..|CLOSE|] == CLOSE;
    assert At(rest, 0, CLOSE);
  }

  /** The exception is real: here the streamed path drops a block the whole-string
      path cuts at, and the two answers differ. */
  lemma PathsDiffer(gemma: string -> string)
    ensures var raw := "<th" + OPEN + CLOSE + MID;
      && BlockFormed(ScannedAnswer(QWEN_TAG, raw))
      && StreamedContent(ScannedAnswer(QWEN_TAG, raw), Qwen3, gemma) == "b"
      && Strip(StripThinkText(raw, Qwen3, gemma)) == ""
  {
    var raw := "<th" + OPEN + CLOSE + MID;
    MidHasNoOpen();
    RejoinedRemoved();
    RejoinedFormed();
    assert "<th" + MID == REJOINED;
    EmptyBlock("<th", MID);
    ScanNoOpenAnswer([QWEN_TAG], MID);
    assert Find("b", OPEN) == -1;
    StripFixpoint("b");
    StripFixpoint("");
    WholeIsCut(REJOINED, "b", gemma);
    WholeIsCut(raw, "", gemma);
  }

  lemma EmptyBlockAt(pre: string, post: string)
    requires |pre| <= 3
    ensures var s := pre + OPEN + CLOSE + post; var rest := CLOSE + post;
      && Find(s, OPEN) == |pre| && s[..|pre|] == pre && s[|pre| + |OPEN|..] == rest
      && Find(rest, CLOSE) == 0 && rest[|CLOSE|..] == post
  {
    hide Leftmost;
    var s := pre + OPEN + CLOSE + post;
    var rest := CLOSE + post;
    assert s[|pre|..|pre| + 7] == OPEN;
    assert At(s, |pre|, OPEN);
    forall p: nat | p < |pre| ensures !At(s, p, OPEN) {
      assert s[|pre|] == '<' != OPEN[|pre| - p];
      NotAt(s, p, OPEN, |pre| - p);
    }
    assert s[|pre| + 7..] == rest;
    assert rest[0..8] == CLOSE;
    assert At(rest, 0, CLOSE);
  }

  /** A text that is one empty block between a prefix and a suffix. */
  lemma EmptyBlock(pre: string, post: string)
    requires |pre| <= 3
    ensures var s := pre + OPEN + CLOSE + post;
      && Find(s, OPEN) == |pre|
      && RemoveBlocks(QWEN_TAG, s) == pre + RemoveBlocks(QWEN_TAG, post)
      && ScannedAnswer(QWEN_TAG, s) == pre + ScannedAnswer(QWEN_TAG, post)
  {
    hide Scan, AnswerOf, Leftmost, At, RemoveBlocks, Unterminated;
    var s := pre + OPEN + CLOSE + post;
    EmptyBlockAt(pre, post);
    BlockStep(QWEN_TAG, s);
    ScannedBeforeOpen(QWEN_TAG, s, |pre|);
    ScannedInBlock(QWEN_TAG, CLOSE + post);
  }

  // ---- the whole streamed turn ----

  lemma QwenNotInGemma(p: nat)
    ensures !At(GEMMA_TAG.open, p, QWEN_TAG.open)
  {
    var outer := GEMMA_TAG.open;
    if p + 7 <= |outer| {
      var slice := outer[p..p + 7];
      assert slice[0] == outer[p] && slice[1] == outer[p + 1];
      assert outer[p] == '<' ==> p == 0 || p == 18;
      assert slice[0] != '<' || slice[1] != 't';
    }
  }

  /** The tag table of every family meets the condition the splitter relies on. */
  lemma FamilyTagsNonNested(family: Family)
    ensures NonNested(TagPairs(family))
  {
    var tags := TagPairs(family);
    assert |QWEN_TAG.open| == 7 && |GEMMA_TAG.open| == 28;
    forall j, k, p: nat | 0 <= j < |tags| && 0 <= k < |tags| && At(tags[j].open, p, tags[k].open)
      ensures j == k && p == 0
    {
      QwenNotInGemma(p);
    }
  }

  /** What a family's tag table means for a text, told without the table. */
  lemma FamilyScans(family: Family, s: string)
    ensures var all := Scan(TagPairs(family), None, s);
      var think, channel := Tag("<think>", "</think>"), Tag("<|channel>thought\n<channel|>", "<channel|>");
      && (family == Qwen3 ==> all == Scan([think], None, s))
      && (family == Gemma4 ==> all == Scan([channel], None, s))
      && (family == NoFamily ==> AnswerOf(all) == s && ReasoningOf(all) == "")
      && (family == Both && Find(s, channel.open) == -1 ==> all == Scan([think], None, s))
      && (family == Both && Find(s, think.open) == -1 ==> all == Scan([channel], None, s))
  {
    hide Scan, Find;
    match family {
      case Qwen3 =>
        assert TagPairs(family) == [QWEN_TAG];
      case Gemma4 =>
        assert TagPairs(family) == [GEMMA_TAG];
      case NoFamily =>
        assert TagPairs(family) == [];
        NoTagsScan(s);
      case Both =>
        var tags := TagPairs(family);
        assert tags == [QWEN_TAG, GEMMA_TAG];
        assert tags[..1] + tags[2..] == [QWEN_TAG] && tags[..0] + tags[1..] == [GEMMA_TAG];
        if Find(s, GEMMA_TAG.open) == -1 { ScanSkipsIdle(tags, 1, None, s); }
        if Find(s, QWEN_TAG.open) == -1 { ScanSkipsIdle(tags, 0, None, s); }
    }
  }

  lemma NoTagsScan(s: string)
    ensures AnswerOf(Scan([], None, s)) == s && ReasoningOf(Scan([], None, s)) == ""
  {
    ScanPlain([], s, |s|);
    assert s[..|s|] == s && s[|s|..] == "";
    AnswersOf([], s);
    assert [] + Answers(s) == Answers(s) == Scan([], None, s);
  }

  lemma FrameHasChannel(s: string)
    ensures Find(s, GEMMA_TAG.open) >= 0 ==> HasChannel(s)
  {
    var frame, mark := GEMMA_TAG.open, "<|channel>";
    var p := Find(s, frame);
    if p >= 0 {
      assert |frame| == 28 && frame[..10] == mark;
      forall k | 0 <= k < 10 ensures s[p + k] == mark[k] {
        AtChar(s, p, frame, k);
        assert frame[..10][k] == frame[k];
      }
      AtByChar(s, p, mark);
    }
  }

  /** The two paths for the answer of a streamed turn, family by family. Channel frames go
      through substitutions about which nothing is claimed. */
  lemma TurnPathsAgree(family: Family, s: string, gemma: string -> string)
    ensures var answer := AnswerOf(Scan(TagPairs(family), None, s));
      var agree := StreamedContent(answer, family, gemma) == Strip(StripThinkText(s, family, gemma));
      && (family == NoFamily ==> agree)
      && (family == Qwen3 || (family == Both && !HasChannel(s) && !HasChannel(answer)) ==>
            (agree <==> !BlockFormed(answer) || OnlySpaceBehind(answer)))
  {
    hide Scan, AnswerOf, StripThinkText, Strip, Find, BlockFormed, OnlySpaceBehind, HasChannel;
    var answer := AnswerOf(Scan(TagPairs(family), None, s));
    FamilyScans(family, s);
    StripByFamily(s, gemma);
    StripByFamily(answer, gemma);
    FrameHasChannel(s);
    PathsAgreeExactly(s, gemma);
  }

  /** A streamed turn over any chunks. Answer, reasoning and the reasoning tail depend
      on the chunks only through their concatenation. */
  method StreamTurn(family: Family, chunks: seq<string>, hasSink: bool)
    returns (answer: string, sink: seq<Piece>, tail: string)
    ensures var all := Scan(TagPairs(family), None, Joined(chunks));
      && answer == AnswerOf(all)
      && (hasSink ==> TextOf(sink, Brain) == AnswerOf(all) && TextOf(sink, Thought) == ReasoningOf(all))
      && (hasSink ==> tail == Last(ReasoningOf(all), 1200))
      && (!hasSink ==> sink == [] && tail == "")
    ensures var s, think := Joined(chunks), Tag("<think>", "</think>");
      var channel := Tag("<|channel>thought\n<channel|>", "<channel|>");
      && (family == Qwen3 ==> answer == ScannedAnswer(think, s))
      && (family == Qwen3 && hasSink ==> TextOf(sink, Thought) == ReasoningOf(Scan([think], None, s)))
      && (family == Gemma4 ==> answer == ScannedAnswer(channel, s))
      && (family == Gemma4 && hasSink ==> TextOf(sink, Thought) == ReasoningOf(Scan([channel], None, s)))
      && (family == Both && Find(s, channel.open) == -1 ==> answer == ScannedAnswer(think, s))
      && (family == Both && Find(s, think.open) == -1 ==> answer == ScannedAnswer(channel, s))
      && (family == NoFamily ==> answer == s && TextOf(sink, Thought) == "" && tail == "")
    ensures family == Qwen3 || (family == Both && !HasChannel(Joined(chunks)) && !HasChannel(answer)) ==>
      forall gemma: string -> string ::
        StreamedContent(answer, family, gemma) == Strip(StripThinkText(Joined(chunks), family, gemma))
        <==> !BlockFormed(answer) || OnlySpaceBehind(answer)
  {
    hide Scan, AnswerOf, ReasoningOf, StripThinkText, Strip, Find, BlockFormed, OnlySpaceBehind, HasChannel, StreamedContent;
    FamilyTagsNonNested(family);
    FamilyScans(family, Joined(chunks));
    forall gemma: string -> string {
      TurnPathsAgree(family, Joined(chunks), gemma);
    }
    var splitter := new Splitter(TagPairs(family), hasSink);
    for i := 0 to |chunks|
      invariant splitter.Valid() && splitter.Settled()
      invariant splitter.fed == Joined(chunks[..i])
    {
      splitter.Consume(chunks[i]);
      assert chunks[..i + 1] == chunks[..i] + [chunks[i]];
      JoinedSnoc(chunks[..i], chunks[i]);
    }
    assert chunks[..|chunks|] == chunks;
    splitter.Flush();
    answer, sink, tail := Joined(splitter.contentParts), splitter.sink, splitter.reasoningTail;
  }

  /** Why the condition on the tags is there: with one open tag strictly inside another
      the first chunk already commits to the inner one, while the whole text opens
      the outer one. */
  lemma NestedTagsBreakChunking()
    ensures var tags := [Tag("abc", "x"), Tag("b", "y")];
      && !NonNested(tags)
      && Scan(tags, None, "ab") == [Answer('a'), Opened("b")]
      && Scan(tags, None, "ab" + "c") == [Opened("abc")]
      && !Agrees(tags, "ab", [Answer('a'), Opened("b")], Some("y"), "")
  {
    var tags := [Tag("abc", "x"), Tag("b", "y")];
    assert At(tags[0].open, 1, tags[1].open);
    assert OpenAt(tags, "ab", 0) == 2 by {
      assert "ab"[0..1] == "a";
    }
    assert "ab"[1..] == "b";
    assert OpenAt(tags, "b", 0) == 1;
    assert "b"[1..] == "";
    var all := "ab" + "c";
    assert all == "abc";
    assert OpenAt(tags, all, 0) == 0;
    assert all[3..] == "";
    assert !AgreesOn(tags, "ab", [Answer('a'), Opened("b")], Some("y"), "", "c");
  }
}

/** The streaming think-tag splitter: cuts a chunked token stream into answer and
    reasoning text, holding back any suffix that could be the start of a tag. */
module ThinkSplitter {
  import opened Text

  datatype Tag = Tag(open: string, close: string)

  const QWEN_TAG := Tag("<think>", "</think>")
  const GEMMA_TAG := Tag("<|channel>thought\n<channel|>", "<channel|>")

  datatype Family = Both | Qwen3 | Gemma4 | NoFamily

  /** The tags a model family splits on. */
  function TagPairs(family: Family): seq<Tag> {
    (if family == Both || family == Qwen3 then [QWEN_TAG] else [])
    + (if family == Both || family == Gemma4 then [GEMMA_TAG] else [])
  }

  /** No open tag occurs inside another; no tag is empty. */
  ghost predicate NonNested(tags: seq<Tag>) {
    && (forall k :: 0 <= k < |tags| ==> tags[k].open != "" && tags[k].close != "")
    && (forall j, k, p: nat :: 0 <= j < |tags| && 0 <= k < |tags| && At(tags[j].open, p, tags[k].open)
          ==> j == k && p == 0)
  }

  // ---- the one-shot specification ----

  /** What one position of the text turns into. */
  datatype Token =
    | Answer(c: char)
    | Reasoning(c: char)
    | Opened(open: string)
    | Closed(close: string)

  /** Index of the first tag whose open marker starts at `i`, or |tags|. */
  function OpenAt(tags: seq<Tag>, s: string, i: nat): (k: nat)
    ensures k <= |tags|
    ensures k < |tags| ==> At(s, i, tags[k].open)
    ensures forall j :: 0 <= j < k ==> !At(s, i, tags[j].open)
  {
    FirstOpenExists(tags, s, i, 0);
    var k: nat :| k <= |tags| && FirstOpen(tags, s, i, k);
    k
  }

  predicate FirstOpen(tags: seq<Tag>, s: string, i: nat, k: nat)
    requires k <= |tags|
  {
    && (k < |tags| ==> At(s, i, tags[k].open))
    && (forall j :: 0 <= j < k ==> !At(s, i, tags[j].open))
  }

  lemma {:induction false} FirstOpenExists(tags: seq<Tag>, s: string, i: nat, n: nat)
    requires n <= |tags| && (forall j :: 0 <= j < n ==> !At(s, i, tags[j].open))
    ensures exists k: nat :: k <= |tags| && FirstOpen(tags, s, i, k)
    decreases |tags| - n
  {
    if n < |tags| && !At(s, i, tags[n].open) {
      FirstOpenExists(tags, s, i, n + 1);
    } else {
      assert FirstOpen(tags, s, i, n);
    }
  }

  /** The character-by-character scanner. `mode` is None outside a thought block,
      else the close tag being waited for. It looks at the whole text and never
      holds anything back. */
  function Scan(tags: seq<Tag>, mode: Option<string>, s: string): seq<Token>
    decreases |s|
  {
    if s == "" then []
    else match mode
      case None =>
        var k := OpenAt(tags, s, 0);
        if k < |tags| && tags[k].open != ""
        then [Opened(tags[k].open)] + Scan(tags, Some(tags[k].close), s[|tags[k].open|..])
        else [Answer(s[0])] + Scan(tags, None, s[1..])
      case Some(close) =>
        if close != "" && At(s, 0, close)
        then [Closed(close)] + Scan(tags, None, s[|close|..])
        else [Reasoning(s[0])] + Scan(tags, mode, s[1..])
  }

  function AnswerOf(log: seq<Token>): string {
    if log == [] then ""
    else AnswerOf(log[..|log| - 1])
         + (match log[|log| - 1] case Answer(c) => [c] case _ => "")
  }

  function ReasoningOf(log: seq<Token>): string {
    if log == [] then ""
    else ReasoningOf(log[..|log| - 1])
         + (match log[|log| - 1] case Reasoning(c) => [c] case _ => "")
  }

  /** Every token back as the text it came from. */
  function Raw(log: seq<Token>): string {
    if log == [] then ""
    else (match log[0]
          case Answer(c) => [c]
          case Reasoning(c) => [c]
          case Opened(t) => t
          case Closed(t) => t)
         + Raw(log[1..])
  }

  /** Nothing is lost or invented: answer, reasoning and tags reassemble the text. */
  lemma {:induction false} ScanReassembles(tags: seq<Tag>, mode: Option<string>, s: string)
    ensures Raw(Scan(tags, mode, s)) == s
    decreases |s|
  {
    if s != "" {
      match mode
      case None =>
        var k := OpenAt(tags, s, 0);
        if k < |tags| && tags[k].open != "" {
          var open := tags[k].open;
          ScanReassembles(tags, Some(tags[k].close), s[|open|..]);
          assert s == s[0..|open|] + s[|open|..];
        } else {
          ScanReassembles(tags, None, s[1..]);
        }
      case Some(close) =>
        if close != "" && At(s, 0, close) {
          ScanReassembles(tags, None, s[|close|..]);
          assert s == s[0..|close|] + s[|close|..];
        } else {
          ScanReassembles(tags, mode, s[1..]);
        }
    }
  }

  // ---- plain stretches ----

  function Answers(s: string): seq<Token> {
    seq(|s|, i requires 0 <= i < |s| => Answer(s[i]))
  }

  function Reasonings(s: string): seq<Token> {
    seq(|s|, i requires 0 <= i < |s| => Reasoning(s[i]))
  }

  lemma {:induction false} AnswersOf(log: seq<Token>, s: string)
    ensures AnswerOf(log + Answers(s)) == AnswerOf(log) + s
    ensures ReasoningOf(log + Answers(s)) == ReasoningOf(log)
  {
    if s == "" {
      assert log + Answers(s) == log;
    } else {
      var l := log + Answers(s);
      assert l[..|l| - 1] == log + Answers(s[..|s| - 1]);
      AnswersOf(log, s[..|s| - 1]);
    }
  }

  lemma {:induction false} ReasoningsOf(log: seq<Token>, s: string)
    ensures AnswerOf(log + Reasonings(s)) == AnswerOf(log)
    ensures ReasoningOf(log + Reasonings(s)) == ReasoningOf(log) + s
  {
    if s == "" {
      assert log + Reasonings(s) == log;
    } else {
      var l := log + Reasonings(s);
      assert l[..|l| - 1] == log + Reasonings(s[..|s| - 1]);
      ReasoningsOf(log, s[..|s| - 1]);
    }
  }

  lemma TagOf(log: seq<Token>, t: Token)
    requires t.Opened? || t.Closed?
    ensures AnswerOf(log + [t]) == AnswerOf(log)
    ensures ReasoningOf(log + [t]) == ReasoningOf(log)
  {
    assert (log + [t])[..|log|] == log;
  }

  ghost predicate NoOpenBefore(tags: seq<Tag>, s: string, n: nat) {
    forall i: nat, k :: i < n && 0 <= k < |tags| ==> !At(s, i, tags[k].open)
  }

  ghost predicate NoCloseBefore(close: string, s: string, n: nat) {
    forall i: nat :: i < n ==> !At(s, i, close)
  }

  lemma ScanAnswer(tags: seq<Tag>, s: string)
    requires s != "" && (forall k :: 0 <= k < |tags| ==> !At(s, 0, tags[k].open))
    ensures Scan(tags, None, s) == [Answer(s[0])] + Scan(tags, None, s[1..])
  {
    assert OpenAt(tags, s, 0) == |tags|;
  }

  /** A stretch with no open tag starting in it passes through as answer text. */
  lemma {:induction false} ScanPlain(tags: seq<Tag>, s: string, n: nat)
    requires n <= |s| && NoOpenBefore(tags, s, n)
    ensures Scan(tags, None, s) == Answers(s[..n]) + Scan(tags, None, s[n..])
    decreases n
  {
    if n == 0 {
      assert s[0..] == s;
    } else {
      ScanAnswer(tags, s);
      forall i: nat, k | i < n - 1 && 0 <= k < |tags| ensures !At(s[1..], i, tags[k].open) {
        AtShift(s, 1, i, tags[k].open);
      }
      ScanPlain(tags, s[1..], n - 1);
      assert s[1..][n - 1..] == s[n..];
      assert Answers(s[..n]) == [Answer(s[0])] + Answers(s[1..][..n - 1]);
      Regroup([Answer(s[0])], Answers(s[1..][..n - 1]), Scan(tags, None, s[n..]));
    }
  }

  /** A stretch with no close tag starting in it is all reasoning. */
  lemma {:induction false} ScanThought(tags: seq<Tag>, close: string, s: string, n: nat)
    requires n <= |s| && close != "" && NoCloseBefore(close, s, n)
    ensures Scan(tags, Some(close), s) == Reasonings(s[..n]) + Scan(tags, Some(close), s[n..])
    decreases n
  {
    if n == 0 {
      assert s[0..] == s;
    } else {
      forall i: nat | i < n - 1 ensures !At(s[1..], i, close) {
        AtShift(s, 1, i, close);
      }
      ScanThought(tags, close, s[1..], n - 1);
      assert s[1..][n - 1..] == s[n..];
      assert Reasonings(s[..n]) == [Reasoning(s[0])] + Reasonings(s[1..][..n - 1]);
      Regroup([Reasoning(s[0])], Reasonings(s[1..][..n - 1]), Scan(tags, Some(close), s[n..]));
    }
  }

  // ---- tags that do not occur ----

  /** The tag whose open marker starts at the beginning of `s`. */
  function Opener(tags: seq<Tag>, s: string): Option<Tag> {
    var k := OpenAt(tags, s, 0);
    if k < |tags| then Some(tags[k]) else None
  }

  lemma {:induction false} OpenerSkips(tags: seq<Tag>, idle: nat, s: string)
    requires idle < |tags| && !At(s, 0, tags[idle].open)
    ensures Opener(tags, s) == Opener(tags[..idle] + tags[idle + 1..], s)
  {
    var few := tags[..idle] + tags[idle + 1..];
    var k, l := OpenAt(tags, s, 0), OpenAt(few, s, 0);
    if l < |few| {
      assert few[l] == tags[if l < idle then l else l + 1];
    }
    if k < |tags| {
      assert tags[k] == few[if k < idle then k else k - 1];
    }
  }

  lemma ScanOpenerStep(tags: seq<Tag>, few: seq<Tag>, s: string)
    requires s != "" && Opener(tags, s) == Opener(few, s)
    ensures var o := Opener(tags, s);
      if o.Some? && o.value.open != "" then
        && |o.value.open| <= |s|
        && Scan(tags, None, s) == [Opened(o.value.open)] + Scan(tags, Some(o.value.close), s[|o.value.open|..])
        && Scan(few, None, s) == [Opened(o.value.open)] + Scan(few, Some(o.value.close), s[|o.value.open|..])
      else
        && Scan(tags, None, s) == [Answer(s[0])] + Scan(tags, None, s[1..])
        && Scan(few, None, s) == [Answer(s[0])] + Scan(few, None, s[1..])
  {
  }

  lemma AbsentFrom(s: string, t: string, n: nat)
    requires n <= |s| && forall i: nat :: !At(s, i, t)
    ensures forall i: nat :: !At(s[n..], i, t)
  {
    forall i: nat ensures !At(s[n..], i, t) {
      AtShift(s, n, i, t);
    }
  }

  /** A tag whose open marker occurs nowhere in the text makes no difference. */
  lemma {:induction false} ScanSkipsIdle(tags: seq<Tag>, idle: nat, mode: Option<string>, s: string)
    requires idle < |tags| && forall i: nat :: !At(s, i, tags[idle].open)
    ensures Scan(tags, mode, s) == Scan(tags[..idle] + tags[idle + 1..], mode, s)
    decreases |s|
  {
    hide OpenAt, Opener;
    var few := tags[..idle] + tags[idle + 1..];
    if s != "" {
      AbsentFrom(s, tags[idle].open, 1);
      match mode
      case None =>
        OpenerSkips(tags, idle, s);
        ScanOpenerStep(tags, few, s);
        var o := Opener(tags, s);
        if o.Some? && o.value.open != "" {
          AbsentFrom(s, tags[idle].open, |o.value.open|);
          ScanSkipsIdle(tags, idle, Some(o.value.close), s[|o.value.open|..]);
        } else {
          ScanSkipsIdle(tags, idle, None, s[1..]);
        }
      case Some(close) =>
        if close != "" && At(s, 0, close) {
          AbsentFrom(s, tags[idle].open, |close|);
          ScanSkipsIdle(tags, idle, None, s[|close|..]);
        } else {
          ScanSkipsIdle(tags, idle, mode, s[1..]);
        }
    }
  }

  // ---- why holding a suffix back is enough ----

  /** Length `k` of a suffix of `s` that is a proper prefix of `tag`. */
  predicate Overlap(s: string, tag: string, k: nat) {
    k <= |s| && k < |tag| && s[|s| - k..] == tag[..k]
  }

  /** Longest suffix of `s` that is a proper prefix of `tag`. */
  method SuffixPrefixLen(s: string, tag: string) returns (r: nat)
    ensures r <= |s|
    ensures tag != "" ==> Overlap(s, tag, r)
    ensures forall k: nat :: Overlap(s, tag, k) ==> k <= r
  {
    var k := if |s| < |tag| - 1 then |s| else |tag| - 1;
    while k > 0
      invariant k <= |s| && k <= |tag| - 1
      invariant forall j: nat :: Overlap(s, tag, j) ==> j <= k || j == 0
    {
      if s[|s| - k..] == tag[..k] {
        return k;
      }
      k := k - 1;
    }
    return 0;
  }

  /** A tag that would start in `pend` before the held-back part, with the text
      still to come, would already lie inside `pend`. */
  lemma HeldBackSafe(pend: string, rest: string, tag: string, keep: nat, i: nat)
    requires keep <= |pend| && i < |pend| - keep
    requires forall k: nat :: Overlap(pend, tag, k) ==> k <= keep
    requires !At(pend, i, tag)
    ensures !At(pend + rest, i, tag)
  {
    if i + |tag| <= |pend| {
      AtPrefix(pend, rest, i, tag);
    } else {
      var k := |pend| - i;
      assert !Overlap(pend, tag, k) && |pend| - k == i;
      var q :| 0 <= q < k && pend[i..][q] != tag[..k][q];
      NotAt(pend + rest, i, tag, q);
    }
  }

  /** With no tag inside another, the first hit in `pend` stays the first hit
      whatever follows, and stays the only tag at its position. */
  lemma FirstHitStable(tags: seq<Tag>, pend: string, rest: string, idx: nat, k: nat)
    requires NonNested(tags) && k < |tags|
    requires At(pend, idx, tags[k].open)
    requires NoOpenBefore(tags, pend, idx)
    ensures NoOpenBefore(tags, pend + rest, idx)
    ensures At(pend + rest, idx, tags[k].open)
    ensures forall j :: 0 <= j < |tags| && At(pend + rest, idx, tags[j].open) ==> j == k
  {
    var all := pend + rest;
    var open := tags[k].open;
    AtPrefix(pend, rest, idx, open);
    forall i: nat, j | i <= idx && 0 <= j < |tags| && At(all, i, tags[j].open)
      ensures i == idx && j == k
    {
      var other := tags[j].open;
      if i + |other| <= |pend| {
        AtPrefix(pend, rest, i, other);
        assert i == idx;
      }
      if i + |other| >= idx + |open| {
        AtInside(all, i, other, idx, open);
      } else {
        AtInside(all, idx, open, i, other);
      }
    }
  }

  lemma SuffixNoOpen(tags: seq<Tag>, s: string, n: nat)
    requires n <= |s| && NoOpenBefore(tags, s, |s|)
    ensures NoOpenBefore(tags, s[n..], |s| - n)
  {
    forall i: nat, k | i < |s| - n && 0 <= k < |tags| ensures !At(s[n..], i, tags[k].open) {
      AtShift(s, n, i, tags[k].open);
    }
  }

  lemma SuffixNoClose(close: string, s: string, n: nat)
    requires n <= |s| && NoCloseBefore(close, s, |s|)
    ensures NoCloseBefore(close, s[n..], |s| - n)
  {
    forall i: nat | i < |s| - n ensures !At(s[n..], i, close) {
      AtShift(s, n, i, close);
    }
  }

  lemma FirstCloseStable(pend: string, rest: string, close: string, idx: nat, i: nat)
    requires At(pend, idx, close) && !At(pend, i, close) && i < idx
    ensures !At(pend + rest, i, close)
  {
    AtPrefix(pend, rest, i, close);
  }

  // ---- the splitter ----

  datatype Scope = Brain | Thought

  /** One `on_token` call. */
  datatype Piece = Piece(text: string, scope: Scope)

  function TextOf(sink: seq<Piece>, scope: Scope): string {
    if sink == [] then ""
    else TextOf(sink[..|sink| - 1], scope)
         + (if sink[|sink| - 1].scope == scope then sink[|sink| - 1].text else "")
  }

  const REASONING_TAIL := 1200

  /** `log` is what the scanner has settled for the text fed so far, and the rest of
      the scan depends only on the mode and the held-back text, whatever follows. */
  ghost predicate Agrees(tags: seq<Tag>, fed: string, log: seq<Token>, mode: Option<string>, pend: string) {
    forall rest: string :: AgreesOn(tags, fed, log, mode, pend, rest)
  }

  ghost predicate AgreesOn(tags: seq<Tag>, fed: string, log: seq<Token>, mode: Option<string>, pend: string,
                           rest: string)
  {
    Scan(tags, None, fed + rest) == log + Scan(tags, mode, pend + rest)
  }

  lemma AgreesRegroup(tags: seq<Tag>, fed: string, log: seq<Token>, mode: Option<string>, pend: string,
                      text: string, rest: string)
    requires AgreesOn(tags, fed, log, mode, pend, text + rest)
    ensures AgreesOn(tags, fed + text, log, mode, pend + text, rest)
  {
    Regroup(fed, text, rest);
    Regroup(pend, text, rest);
  }

  lemma AgreesFed(tags: seq<Tag>, fed: string, log: seq<Token>, mode: Option<string>, pend: string, text: string)
    requires Agrees(tags, fed, log, mode, pend)
    ensures Agrees(tags, fed + text, log, mode, pend + text)
  {
    forall rest: string ensures AgreesOn(tags, fed + text, log, mode, pend + text, rest) {
      assert AgreesOn(tags, fed, log, mode, pend, text + rest);
      AgreesRegroup(tags, fed, log, mode, pend, text, rest);
    }
  }

  lemma AgreesPlain(tags: seq<Tag>, fed: string, log: seq<Token>, pend: string, n: nat)
    requires Agrees(tags, fed, log, None, pend) && n <= |pend|
    requires forall rest: string {:trigger pend + rest} :: NoOpenBefore(tags, pend + rest, n)
    ensures Agrees(tags, fed, log + Answers(pend[..n]), None, pend[n..])
  {
    forall rest: string ensures AgreesOn(tags, fed, log + Answers(pend[..n]), None, pend[n..], rest) {
      assert AgreesOn(tags, fed, log, None, pend, rest);
      ScanPlain(tags, pend + rest, n);
      CutInFirst(pend, rest, n);
      Regroup(log, Answers(pend[..n]), Scan(tags, None, pend[n..] + rest));
    }
  }

  lemma AgreesThought(tags: seq<Tag>, fed: string, log: seq<Token>, close: string, pend: string, n: nat)
    requires Agrees(tags, fed, log, Some(close), pend) && n <= |pend| && close != ""
    requires forall rest: string {:trigger pend + rest} :: NoCloseBefore(close, pend + rest, n)
    ensures Agrees(tags, fed, log + Reasonings(pend[..n]), Some(close), pend[n..])
  {
    forall rest: string ensures AgreesOn(tags, fed, log + Reasonings(pend[..n]), Some(close), pend[n..], rest) {
      assert AgreesOn(tags, fed, log, Some(close), pend, rest);
      ScanThought(tags, close, pend + rest, n);
      CutInFirst(pend, rest, n);
      Regroup(log, Reasonings(pend[..n]), Scan(tags, Some(close), pend[n..] + rest));
    }
  }

  lemma AgreesOpen(tags: seq<Tag>, fed: string, log: seq<Token>, pend: string, k: nat)
    requires NonNested(tags) && k < |tags| && At(pend, 0, tags[k].open)
    requires Agrees(tags, fed, log, None, pend)
    ensures Agrees(tags, fed, log + [Opened(tags[k].open)], Some(tags[k].close), pend[|tags[k].open|..])
  {
    var open := tags[k].open;
    forall rest: string
      ensures AgreesOn(tags, fed, log + [Opened(open)], Some(tags[k].close), pend[|open|..], rest)
    {
      assert AgreesOn(tags, fed, log, None, pend, rest);
      var all := pend + rest;
      FirstHitStable(tags, pend, rest, 0, k);
      assert OpenAt(tags, all, 0) == k;
      CutInFirst(pend, rest, |open|);
      Regroup(log, [Opened(open)], Scan(tags, Some(tags[k].close), pend[|open|..] + rest));
    }
  }

  lemma AgreesClose(tags: seq<Tag>, fed: string, log: seq<Token>, close: string, pend: string)
    requires close != "" && At(pend, 0, close)
    requires Agrees(tags, fed, log, Some(close), pend)
    ensures Agrees(tags, fed, log + [Closed(close)], None, pend[|close|..])
  {
    forall rest: string ensures AgreesOn(tags, fed, log + [Closed(close)], None, pend[|close|..], rest) {
      assert AgreesOn(tags, fed, log, Some(close), pend, rest);
      var all := pend + rest;
      AtPrefix(pend, rest, 0, close);
      CutInFirst(pend, rest, |close|);
      Regroup(log, [Closed(close)], Scan(tags, None, pend[|close|..] + rest));
    }
  }

  /** The state of one streamed model turn. */
  class Splitter {
    const tags: seq<Tag>
    const hasSink: bool
    var pend: string
    var inThink: Option<string>
    var contentParts: seq<string>
    var sink: seq<Piece>
    var reasoningTail: string
    /** All text fed so far, and what the scanner makes of its settled part. */
    ghost var fed: string
    ghost var log: seq<Token>

    ghost predicate Valid()
      reads this
    {
      && Delivered()
      && Agrees(tags, fed, log, inThink, pend)
    }

    /** What has been handed over is exactly the settled part of the scan. */
    ghost predicate Delivered()
      reads this
    {
      && NonNested(tags)
      && (inThink.Some? ==> inThink.value != "")
      && Joined(contentParts) == AnswerOf(log)
      && (hasSink ==> TextOf(sink, Brain) == AnswerOf(log) && TextOf(sink, Thought) == ReasoningOf(log))
      && (!hasSink ==> sink == [])
      && reasoningTail == Last(TextOf(sink, Thought), REASONING_TAIL)
    }

    /** No tag lies inside the held-back text. */
    ghost predicate Settled()
      reads this
    {
      match inThink
      case None => NoOpenBefore(tags, pend, |pend|)
      case Some(close) => NoCloseBefore(close, pend, |pend|)
    }

    constructor (tags: seq<Tag>, hasSink: bool)
      requires NonNested(tags)
      ensures Valid() && Settled() && fed == "" && this.tags == tags && this.hasSink == hasSink
    {
      this.tags, this.hasSink := tags, hasSink;
      pend, inThink, contentParts, sink, reasoningTail := "", None, [], [], "";
      fed, log := "", [];
      new;
      assert Agrees(tags, "", [], None, "");
    }

    /** Hand a stretch over as answer text. */
    method EmitAnswer(text: string)
      requires Delivered()
      modifies this`contentParts, this`sink, this`log
      ensures log == old(log) + Answers(text)
      ensures Delivered()
    {
      AnswersOf(log, text);
      JoinedSnoc(contentParts, text);
      contentParts := contentParts + [text];
      if hasSink {
        assert (sink + [Piece(text, Brain)])[..|sink|] == sink;
        sink := sink + [Piece(text, Brain)];
      }
      log := log + Answers(text);
    }

    /** Hand a stretch over as reasoning; without a sink it is only dropped. */
    method EmitReasoning(text: string)
      requires Delivered()
      modifies this`sink, this`reasoningTail, this`log
      ensures log == old(log) + Reasonings(text)
      ensures Delivered()
    {
      ReasoningsOf(log, text);
      if hasSink {
        assert (sink + [Piece(text, Thought)])[..|sink|] == sink;
        LastOfLast(TextOf(sink, Thought), text, REASONING_TAIL);
        reasoningTail := Last(reasoningTail + text, REASONING_TAIL);
        sink := sink + [Piece(text, Thought)];
      }
      log := log + Reasonings(text);
    }

    /** How much of `pend` could still be the start of an open tag. */
    method HoldBack() returns (keep: nat)
      requires NonNested(tags) && NoOpenBefore(tags, pend, |pend|)
      ensures keep <= |pend|
      ensures forall rest: string {:trigger pend + rest} :: NoOpenBefore(tags, pend + rest, |pend| - keep)
    {
      keep := 0;
      for j := 0 to |tags|
        invariant keep <= |pend|
        invariant forall k: nat, t :: 0 <= t < j && Overlap(pend, tags[t].open, k) ==> k <= keep
      {
        var k := SuffixPrefixLen(pend, tags[j].open);
        if k > keep { keep := k; }
      }
      forall rest: string, i: nat, k | i < |pend| - keep && 0 <= k < |tags|
        ensures !At(pend + rest, i, tags[k].open)
      {
        HeldBackSafe(pend, rest, tags[k].open, keep, i);
      }
    }

    /** The earliest open tag in `pend`, if any. */
    method EarliestHit() returns (idx: int, hit: nat)
      requires NonNested(tags)
      ensures idx >= -1
      ensures idx == -1 ==> NoOpenBefore(tags, pend, |pend|)
      ensures idx >= 0 ==> hit < |tags| && At(pend, idx, tags[hit].open) && NoOpenBefore(tags, pend, idx)
    {
      idx, hit := -1, 0;
      for k := 0 to |tags|
        invariant idx == -1 ==> forall i: nat, j :: 0 <= j < k ==> !At(pend, i, tags[j].open)
        invariant idx >= 0 ==> hit < k && At(pend, idx, tags[hit].open)
        invariant idx >= 0 ==> forall i: nat, j :: i < idx && 0 <= j < k ==> !At(pend, i, tags[j].open)
        invariant idx >= -1
      {
        var i := Find(pend, tags[k].open);
        if i != -1 && (idx == -1 || i < idx) {
          idx, hit := i, k;
        }
      }
    }

    /** One pass of the loop outside a thought block; `more` is false when it returns. */
    method ScanForOpen() returns (more: bool)
      requires Valid() && inThink.None? && pend != ""
      modifies this
      ensures Valid() && fed == old(fed)
      ensures !more ==> Settled()
      ensures |pend| <= |old(pend)| && (more ==> |pend| < |old(pend)|)
    {
      hide Scan, AnswerOf, ReasoningOf, TextOf, Joined, AgreesOn, Agrees;
      var idx, hit := EarliestHit();
      if idx == -1 {
        var keep := HoldBack();
        var n := |pend| - keep;
        AgreesPlain(tags, fed, log, pend, n);
        if n > 0 {
          EmitAnswer(pend[..n]);
        } else {
          assert log + Answers(pend[..n]) == log;
        }
        SuffixNoOpen(tags, pend, n);
        pend := pend[n..];
        return false;
      }
      forall rest: string ensures NoOpenBefore(tags, pend + rest, idx) {
        FirstHitStable(tags, pend, rest, idx, hit);
      }
      AgreesPlain(tags, fed, log, pend, idx);
      if idx > 0 {
        EmitAnswer(pend[..idx]);
      } else {
        assert log + Answers(pend[..idx]) == log;
      }
      var open := tags[hit].open;
      AtShift(pend, idx, 0, open);
      AgreesOpen(tags, fed, log, pend[idx..], hit);
      TagOf(log, Opened(open));
      assert pend[idx..][|open|..] == pend[idx + |open|..];
      log := log + [Opened(open)];
      pend := pend[idx + |open|..];
      inThink := Some(tags[hit].close);
      return true;
    }

    /** One pass of the loop inside a thought block. */
    method ScanForClose(close: string) returns (more: bool)
      requires Valid() && inThink == Some(close) && pend != ""
      modifies this
      ensures Valid() && fed == old(fed)
      ensures !more ==> Settled()
      ensures |pend| <= |old(pend)| && (more ==> |pend| < |old(pend)|)
    {
      hide Scan, AnswerOf, ReasoningOf, TextOf, Joined, AgreesOn, Agrees;
      var idx := Find(pend, close);
      if idx == -1 {
        var keep := SuffixPrefixLen(pend, close);
        var n := |pend| - keep;
        forall rest: string, i: nat | i < n ensures !At(pend + rest, i, close) {
          HeldBackSafe(pend, rest, close, keep, i);
        }
        AgreesThought(tags, fed, log, close, pend, n);
        if n > 0 {
          EmitReasoning(pend[..n]);
        } else {
          assert log + Reasonings(pend[..n]) == log;
        }
        SuffixNoClose(close, pend, n);
        pend := pend[n..];
        return false;
      }
      forall rest: string, i: nat | i < idx ensures !At(pend + rest, i, close) {
        FirstCloseStable(pend, rest, close, idx, i);
      }
      AgreesThought(tags, fed, log, close, pend, idx);
      if idx > 0 {
        EmitReasoning(pend[..idx]);
      } else {
        assert log + Reasonings(pend[..idx]) == log;
      }
      AtShift(pend, idx, 0, close);
      AgreesClose(tags, fed, log, close, pend[idx..]);
      TagOf(log, Closed(close));
      assert pend[idx..][|close|..] == pend[idx + |close|..];
      log := log + [Closed(close)];
      pend := pend[idx + |close|..];
      inThink := None;
      return true;
    }

    /** Feed one chunk. */
    method Consume(text: string)
      requires Valid()
      modifies this
      ensures Valid() && Settled()
      ensures fed == old(fed) + text
    {
      AgreesFed(tags, fed, log, inThink, pend, text);
      pend := pend + text;
      fed := fed + text;
      var more := true;
      while pend != "" && more
        invariant Valid() && fed == old(fed) + text
        invariant !more ==> Settled()
        decreases |pend|, more
      {
        match inThink
        case None => more := ScanForOpen();
        case Some(close) => more := ScanForClose(close);
      }
    }

    /** End of stream: nothing more can complete a tag, so the held-back text goes out. */
    method Flush()
      requires Valid() && Settled()
      modifies this
      ensures Delivered() && fed == old(fed)
      ensures log == Scan(tags, None, fed)
    {
      assert AgreesOn(tags, fed, log, inThink, pend, "");
      assert fed + "" == fed && pend + "" == pend;
      assert pend[..|pend|] == pend;
      match inThink
      case Some(close) =>
        ScanThought(tags, close, pend, |pend|);
        if pend != "" {
          EmitReasoning(pend);
        }
      case None =>
        ScanPlain(tags, pend, |pend|);
        if pend != "" {
          EmitAnswer(pend);
        }
    }
  }
}

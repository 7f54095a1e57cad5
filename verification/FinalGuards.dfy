/** How a run finishes: the chain of one-shot final-answer guards, the verifier retry
    loop behind it, and the iteration budget in front of it. */
module FinalGuards {
  import opened Text

  /** The guards, in firing order. */
  datatype Guard =
    | Cap | Trunc | EmptyFinal | Markup
    | Requirements | Deliverable | VerifyDelegate | JustReply | Procedure

  const CHAIN: seq<Guard> :=
    [Cap, Trunc, EmptyFinal, Markup, Requirements, Deliverable, VerifyDelegate, JustReply, Procedure]

  const ALL: set<Guard> :=
    {Cap, Trunc, EmptyFinal, Markup, Requirements, Deliverable, VerifyDelegate, JustReply, Procedure}

  /** Guards about the form of an answer. */
  predicate IsShape(g: Guard) { g in {Cap, Trunc, EmptyFinal, Markup} }

  /** Position of the guard that pins the candidate as the run's answer. */
  const PIN := 5

  lemma GuardsAreNine(s: set<Guard>)
    ensures |s| <= 9
  {
    forall g | g in s ensures g in ALL {
      match g {
        case Cap => case Trunc => case EmptyFinal => case Markup => case Requirements =>
        case Deliverable => case VerifyDelegate => case JustReply => case Procedure =>
      }
    }
    SubsetSize(s, ALL);
  }

  /** One text answer and what the guards look at. `cutOff`: generation stopped at the
      completion cap; `leaked`: it is essentially tool-call markup; `content`: the content
      guards whose own condition holds; `thinkOff`: a nudge would disable thinking. */
  datatype Candidate = Candidate(answer: string, cutOff: bool, leaked: bool, content: set<Guard>, thinkOff: bool) {
    predicate Objects(g: Guard) {
      match g
      case Cap => Blank(answer) && cutOff
      case Trunc => !Blank(answer) && cutOff
      case EmptyFinal => Blank(answer) && !cutOff
      case Markup => leaked
      case _ => g in content
    }
  }

  /** The guards that can still act: enabled, not ablated, not fired before. */
  ghost predicate Armed(g: Guard, enabled: set<Guard>, off: set<Guard>, fired: set<Guard>) {
    g in enabled && g !in off && g !in fired
  }

  /** `i` is the first position of the chain whose guard is armed and objects; 9 if
      none does. */
  ghost predicate FirstHit(c: Candidate, enabled: set<Guard>, off: set<Guard>, fired: set<Guard>, i: nat) {
    && i <= |CHAIN|
    && (forall j :: 0 <= j < i ==> !(Armed(CHAIN[j], enabled, off, fired) && c.Objects(CHAIN[j])))
    && (i < |CHAIN| ==> Armed(CHAIN[i], enabled, off, fired) && c.Objects(CHAIN[i]))
  }

  lemma HitIsArmed(c: Candidate, enabled: set<Guard>, off: set<Guard>, fired: set<Guard>, i: nat)
    requires FirstHit(c, enabled, off, fired, i) && i < |CHAIN|
    ensures CHAIN[i] !in fired && |fired + {CHAIN[i]}| == |fired| + 1
  {
  }

  /** No armed guard objects to the form of the answer. */
  ghost predicate WellFormed(c: Candidate, enabled: set<Guard>, off: set<Guard>, fired: set<Guard>) {
    forall g :: IsShape(g) && c.Objects(g) ==> !Armed(g, enabled, off, fired)
  }

  /** The shape guards lead the chain, so a first hit on a content guard (or none)
      means the answer is well formed. */
  lemma ContentHitIsWellFormed(c: Candidate, enabled: set<Guard>, off: set<Guard>, fired: set<Guard>, i: nat)
    requires FirstHit(c, enabled, off, fired, i)
    ensures (i == |CHAIN| || !IsShape(CHAIN[i])) <==> WellFormed(c, enabled, off, fired)
  {
    forall g | IsShape(g) && c.Objects(g) && Armed(g, enabled, off, fired) ensures i < |CHAIN| && IsShape(CHAIN[i]) {
      var j := if g == Cap then 0 else if g == Trunc then 1 else if g == EmptyFinal then 2 else 3;
      assert CHAIN[j] == g;
    }
  }

  /** What makes an answer ill formed, told by the answer itself. */
  lemma IllFormedMeans(c: Candidate, enabled: set<Guard>, off: set<Guard>, fired: set<Guard>)
    ensures !WellFormed(c, enabled, off, fired) <==>
      || (Blank(c.answer) && Armed(if c.cutOff then Cap else EmptyFinal, enabled, off, fired))
      || (!Blank(c.answer) && c.cutOff && Armed(Trunc, enabled, off, fired))
      || (c.leaked && Armed(Markup, enabled, off, fired))
  {
    hide Armed, Blank;
    if WellFormed(c, enabled, off, fired) {
      forall g | IsShape(g) && c.Objects(g) ensures !Armed(g, enabled, off, fired) {
      }
      assert IsShape(Cap) && IsShape(Trunc) && IsShape(EmptyFinal) && IsShape(Markup);
    }
  }

  /** Every guard has one place in the chain; the guards about the form come first and the
      answer is pinned between the requirements guard and the next one. */
  lemma ChainIsOrdered(g: Guard)
    ensures exists i :: 0 <= i < |CHAIN| && CHAIN[i] == g && (IsShape(g) <==> i < 4) && (g == Requirements <==> i + 1 == PIN)
    ensures forall i, j :: 0 <= i < j < |CHAIN| ==> CHAIN[i] != CHAIN[j]
  {
    GuardsAreNine({g});
    assert exists i :: 0 <= i < |CHAIN| && CHAIN[i] == g by {
      assert CHAIN[0] == Cap && CHAIN[1] == Trunc && CHAIN[2] == EmptyFinal && CHAIN[3] == Markup;
      assert CHAIN[4] == Requirements && CHAIN[5] == Deliverable && CHAIN[6] == VerifyDelegate;
      assert CHAIN[7] == JustReply && CHAIN[8] == Procedure;
    }
  }

  datatype VerifySpec = VerifySpec(maxChecks: int)

  /** What the verifier says about one answer; `sig` identifies a failure. */
  datatype Verdict = Passed | Failed(sig: string, report: string)

  /** One model turn: tool calls (with the text beside them, and whether their gates end
      in the tools-off wrap-up), or a text answer and the verdict it would get. */
  datatype Turn = Tools(content: string, wraps: bool) | Text(candidate: Candidate, verdict: Verdict)

  /** How often the last failure has come in a row. */
  function Streak(sigs: seq<string>): (n: nat)
    ensures n <= |sigs| && (sigs != [] ==> n > 0)
  {
    var last := |sigs| - 1;
    if sigs == [] then 0
    else if last > 0 && sigs[last - 1] == sigs[last] then Streak(sigs[..last]) + 1
    else 1
  }

  lemma StreakNext(sigs: seq<string>, sig: string)
    ensures Streak(sigs + [sig]) == if sigs != [] && sigs[|sigs| - 1] == sig then Streak(sigs) + 1 else 1
  {
    assert (sigs + [sig])[..|sigs|] == sigs;
  }

  /** The streak reaches `n` exactly when the last `n` failures are all the same. */
  lemma {:induction false} StreakIs(sigs: seq<string>, n: nat)
    requires n > 0
    ensures n <= Streak(sigs) <==> n <= |sigs| && forall k :: |sigs| - n <= k < |sigs| ==> sigs[k] == sigs[|sigs| - 1]
  {
    var last := |sigs| - 1;
    if n > 1 && last > 0 {
      StreakIs(sigs[..last], n - 1);
      if sigs[last - 1] != sigs[last] {
        assert |sigs| - n <= last - 1;
      }
    }
  }

  datatype Ending = Running | Accepted | GaveUp | Cut | OutOfIterations

  const CUT_ANSWER := "[Run stopped: the model kept re-issuing blocked tool calls instead of answering]"
  const NOT_VERIFIED := "\n\n[NOT VERIFIED] "

  /** What a text turn can change. */
  datatype Book = Book(fired: set<Guard>, bounces: nat, remembered: Option<string>, clean: seq<string>, attempts: nat,
                       passed: bool, failures: seq<string>, answer: string, ending: Ending)

  class Finisher {
    const enabled: set<Guard>
    const off: set<Guard>
    const maxBounces: int
    const verify: Option<VerifySpec>
    const stallAfter: int
    const maxIterations: int

    var fired: set<Guard>
    var answerBounces: nat
    var lastClean: Option<string>
    var finalAnswer: string
    var thinkOffNext: bool
    var attempts: nat
    var passed: bool
    var stallSig: Option<string>
    var stallCount: nat
    var wrapUp: bool
    var iterations: nat
    var ending: Ending
    /** Answers offered since the last turn with tool calls that were well formed
        when they were offered. */
    ghost var clean: seq<string>
    /** The signatures of all failed checks, in order. */
    ghost var failures: seq<string>

    ghost predicate Valid()
      reads this`answerBounces, this`lastClean, this`clean, this`ending, this`attempts, this`passed, this`stallSig,
            this`stallCount, this`failures
    {
      && (maxBounces > 0 ==> answerBounces <= maxBounces)
      && (lastClean.Some? ==> lastClean.value in clean)
      && (ending == Running && verify.Some? ==> attempts == 0 || attempts < verify.value.maxChecks)
      && (ending == Running && stallSig.Some? ==> stallCount < stallAfter)
      && (verify.None? ==> attempts == 0)
      && attempts == |failures| + (if passed then 1 else 0)
      && stallSig == (if failures == [] then None else Some(failures[|failures| - 1]))
      && stallCount == Streak(failures)
    }

    /** The guard chain stops at `hit`, but the answer has used up its bounces. */
    ghost predicate Capped(hit: nat, bounces: nat) {
      hit < |CHAIN| && maxBounces != 0 && bounces >= maxBounces
    }

    /** What a run that accepts candidate `c` answers: `c` itself, or, when the cap silenced a
        shape guard, the remembered candidate if there is one. */
    ghost function Answer(c: Candidate, remembered: Option<string>, fired: set<Guard>, bounces: nat): string {
      if !WellFormed(c, enabled, off, fired) && maxBounces != 0 && bounces >= maxBounces && remembered.Some?
      then remembered.value
      else c.answer
    }

    /** The checks are used up, or the last `stallAfter` of them failed in the same way. */
    ghost predicate Hopeless(failures: seq<string>) {
      verify.Some? && (Streak(failures) >= stallAfter || |failures| >= verify.value.maxChecks)
    }

    ghost function Now(): Book
      reads this`fired, this`answerBounces, this`lastClean, this`clean, this`attempts, this`passed, this`failures,
            this`finalAnswer, this`ending
    {
      Book(fired, answerBounces, lastClean, clean, attempts, passed, failures, finalAnswer, ending)
    }

    /** What the verifier makes of an answer the guards let through. */
    ghost predicate Checked(b: Book, answer: string, verdict: Verdict, a: Book) {
      if verify.None? || b.passed then
        && a.attempts == b.attempts && a.passed == b.passed && a.failures == b.failures
        && a.ending == Accepted && a.answer == answer
      else
        && a.attempts == b.attempts + 1 && a.passed == verdict.Passed?
        && a.failures == b.failures + (if verdict.Failed? then [verdict.sig] else [])
        && a.ending == (if verdict.Passed? then Accepted else if Hopeless(a.failures) then GaveUp else Running)
        && a.answer == answer + if a.ending == GaveUp then "\n\n[NOT VERIFIED] " + verdict.report else ""
    }

    /** What a text turn does: the guards stop at `hit`, and what they let through goes to
        the verifier. */
    ghost predicate Answered(b: Book, c: Candidate, verdict: Verdict, a: Book, nudged: bool, hit: nat) {
      var good := WellFormed(c, enabled, off, b.fired);
      && FirstHit(c, enabled, off, b.fired, hit)
      && (nudged <==> hit < |CHAIN| && !Capped(hit, b.bounces))
      && a.fired == b.fired + (if nudged then {CHAIN[hit]} else {})
      && a.bounces == b.bounces + (if nudged then 1 else 0)
      && a.remembered == (if good && !Capped(hit, b.bounces) then Some(c.answer) else b.remembered)
      && a.clean == b.clean + (if good then [c.answer] else [])
      && if nudged then
           && a.attempts == b.attempts && a.passed == b.passed && a.failures == b.failures && a.ending == b.ending
           && a.answer == if hit >= PIN then c.answer else b.answer
         else
           Checked(b, Answer(c, b.remembered, b.fired, b.bounces), verdict, a)
    }

    /** The verdict is obeyed: an answer that was checked is accepted exactly when it passed;
        the run gives up on it exactly when it failed and is hopeless. */
    lemma VerdictDecides(b: Book, c: Candidate, verdict: Verdict, a: Book, nudged: bool, hit: nat)
      requires Answered(b, c, verdict, a, nudged, hit) && b.ending == Running
      ensures |a.fired| == |b.fired| + (if nudged then 1 else 0)
      ensures a.ending == Accepted <==> !nudged && (verify.None? || b.passed || verdict.Passed?)
      ensures a.ending == GaveUp <==> !nudged && verify.Some? && !b.passed && verdict.Failed? && Hopeless(a.failures)
      ensures a.ending in {Running, Accepted, GaveUp}
      ensures a.attempts == b.attempts + (if !nudged && verify.Some? && !b.passed then 1 else 0)
      ensures verify.Some? && !b.passed ==> a.passed == (!nudged && verdict.Passed?)
    {
      hide Hopeless, Armed, WellFormed, Answer, Capped;
      if nudged {
        HitIsArmed(c, enabled, off, b.fired, hit);
      }
    }

    constructor (enabled: set<Guard>, off: set<Guard>, maxBounces: int, verify: Option<VerifySpec>, stallAfter: int,
                 maxIterations: int)
      ensures Valid() && fired == {} && answerBounces == 0 && lastClean == None && attempts == 0
      ensures iterations == 0 && ending == Running && !wrapUp && !passed
      ensures this.enabled == enabled && this.off == off && this.maxBounces == maxBounces
      ensures this.verify == verify && this.stallAfter == stallAfter && this.maxIterations == maxIterations
    {
      this.enabled, this.off, this.maxBounces := enabled, off, maxBounces;
      this.verify, this.stallAfter, this.maxIterations := verify, stallAfter, maxIterations;
      fired, answerBounces, lastClean, finalAnswer, thinkOffNext := {}, 0, None, "", false;
      attempts, passed, stallSig, stallCount, wrapUp, iterations, ending := 0, false, None, 0, false, 0, Running;
      clean, failures := [], [];
    }

    /** The pass over the chain: stops at the first armed guard that objects, and pins
        the candidate on the way. */
    method FirstObjection(c: Candidate) returns (i: nat)
      modifies this`finalAnswer
      ensures FirstHit(c, enabled, off, fired, i)
      ensures finalAnswer == if i >= PIN then c.answer else old(finalAnswer)
    {
      i := 0;
      while i < |CHAIN|
        invariant 0 <= i <= |CHAIN|
        invariant forall j :: 0 <= j < i ==> !(Armed(CHAIN[j], enabled, off, fired) && c.Objects(CHAIN[j]))
        invariant finalAnswer == if i > PIN then c.answer else old(finalAnswer)
      {
        if i == PIN { finalAnswer := c.answer; }
        if CHAIN[i] !in off && CHAIN[i] !in fired && CHAIN[i] in enabled && c.Objects(CHAIN[i]) { return; }
        i := i + 1;
      }
    }

    /** The guard chain against one candidate; `hit` is where it stopped. */
    method ApplyFinalGuards(c: Candidate) returns (nudged: bool, ghost hit: nat)
      requires Valid()
      modifies this`fired, this`answerBounces, this`lastClean, this`finalAnswer, this`thinkOffNext, this`clean
      ensures Valid()
      ensures FirstHit(c, enabled, off, old(fired), hit)
      ensures nudged <==> hit < |CHAIN| && !Capped(hit, old(answerBounces))
      ensures fired == old(fired) + (if nudged then {CHAIN[hit]} else {})
      ensures answerBounces == old(answerBounces) + (if nudged then 1 else 0)
      ensures hit == |CHAIN| ==> finalAnswer == c.answer
      ensures Capped(hit, old(answerBounces)) ==>
        finalAnswer == if IsShape(CHAIN[hit]) && old(lastClean).Some? then old(lastClean).value else c.answer
      ensures nudged ==> finalAnswer == if hit >= PIN then c.answer else old(finalAnswer)
      ensures lastClean == if !Capped(hit, old(answerBounces)) && WellFormed(c, enabled, off, old(fired))
                           then Some(c.answer) else old(lastClean)
      ensures thinkOffNext == (old(thinkOffNext) || (nudged && c.thinkOff))
      ensures clean == old(clean) + (if WellFormed(c, enabled, off, old(fired)) then [c.answer] else [])
    {
      hide WellFormed, IsShape, FirstHit;
      var i := FirstObjection(c);
      hit := i;
      ContentHitIsWellFormed(c, enabled, off, fired, i);
      var shape := i < |CHAIN| && IsShape(CHAIN[i]);
      var capped := i < |CHAIN| && maxBounces != 0 && answerBounces >= maxBounces;
      if !shape { clean := clean + [c.answer]; }
      if !capped && !shape { lastClean := Some(c.answer); }
      if capped {
        finalAnswer := if shape && lastClean.Some? then lastClean.value else c.answer;
        return false, i;
      }
      if i < |CHAIN| {
        fired := fired + {CHAIN[i]};
        answerBounces := answerBounces + 1;
        if c.thinkOff { thinkOffNext := true; }
        return true, i;
      }
      return false, i;
    }

    /** The verifier branch for an answer the guards let through. */
    method CheckAnswer(verdict: Verdict)
      requires Valid() && ending == Running
      modifies this`attempts, this`passed, this`stallSig, this`stallCount, this`ending, this`finalAnswer, this`failures
      ensures Valid()
      ensures Checked(old(Now()), old(finalAnswer), verdict, Now())
    {
      hide Streak;
      if verify.None? || passed {
        ending := Accepted;
        return;
      }
      attempts := attempts + 1;
      match verdict {
        case Passed =>
          passed := true;
          ending := Accepted;
        case Failed(sig, report) =>
          if stallSig == Some(sig) {
            stallCount := stallCount + 1;
          } else {
            stallSig, stallCount := Some(sig), 1;
          }
          StreakNext(failures, sig);
          failures := failures + [sig];
          if stallCount >= stallAfter || attempts >= verify.value.maxChecks {
            finalAnswer := finalAnswer + (NOT_VERIFIED + report);
            ending := GaveUp;
          }
      }
    }

    /** The text branch of the loop: the guards, then the verifier. */
    method AnswerTurn(c: Candidate, verdict: Verdict) returns (nudged: bool, ghost hit: nat)
      requires Valid() && ending == Running
      modifies this`fired, this`answerBounces, this`lastClean, this`finalAnswer, this`thinkOffNext, this`clean,
               this`attempts, this`passed, this`stallSig, this`stallCount, this`ending, this`failures
      ensures Valid()
      ensures Answered(old(Now()), c, verdict, Now(), nudged, hit)
      ensures !nudged && verify.Some? && !old(passed) ==>
        && (passed <==> verdict.Passed?) && (ending == Accepted <==> verdict.Passed?)
        && (ending == GaveUp <==> verdict.Failed? && Hopeless(failures))
      ensures ending in {Running, Accepted, GaveUp} && (nudged ==> ending == Running)
      ensures thinkOffNext == (old(thinkOffNext) || (nudged && c.thinkOff))
    {
      hide Valid, Hopeless, WellFormed, Armed, Blank;
      ghost var before := fired;
      nudged, hit := ApplyFinalGuards(c);
      ContentHitIsWellFormed(c, enabled, off, before, hit);
      if !nudged {
        CheckAnswer(verdict);
      }
    }

    /** The branch for a turn with tool calls: it ends the sequence of answers, and in a
        run that is wrapping up the run itself. */
    method ToolTurn(content: string, wraps: bool)
      requires Valid() && ending == Running
      modifies this`answerBounces, this`lastClean, this`clean, this`wrapUp, this`ending, this`finalAnswer
      ensures Valid()
      ensures ending == if old(wrapUp) then Cut else Running
      ensures ending == Cut ==> finalAnswer == if Blank(content) then CUT_ANSWER else Strip(content)
      ensures ending == Running ==> finalAnswer == old(finalAnswer) && answerBounces == 0 && lastClean == None && clean == []
      ensures wrapUp == (old(wrapUp) || wraps)
    {
      hide Blank, Ends, Streak;
      if wrapUp {
        ending := Cut;
        var said := Strip(content);
        finalAnswer := if said != "" then said else CUT_ANSWER;
        return;
      }
      answerBounces := 0;
      lastClean := None;
      clean := [];
      if wraps { wrapUp := true; }
    }

    /** The iteration budget is used up. */
    method OutOfTurns()
      requires Valid()
      modifies this`ending
      ensures Valid() && ending == OutOfIterations
    {
      ending := OutOfIterations;
    }

    /** One pass of the main loop. `text` tells a turn that really was a text answer. */
    method Step(turn: Turn) returns (text: bool, nudged: bool, ghost hit: nat)
      requires Valid() && ending == Running
      modifies this
      ensures Valid()
      ensures iterations == old(iterations) + 1
      ensures ending == OutOfIterations <==> maxIterations != 0 && iterations > maxIterations
      ensures text <==> turn.Text? && ending != OutOfIterations
      ensures text ==> Answered(old(Now()), turn.candidate, turn.verdict, Now(), nudged, hit)
      ensures text && !nudged && verify.Some? && !old(passed) ==>
        && (passed <==> turn.verdict.Passed?) && (ending == Accepted <==> turn.verdict.Passed?)
        && (ending == GaveUp <==> turn.verdict.Failed? && Hopeless(failures))
      ensures ending in if text then {Running, Accepted, GaveUp} else {Running, Cut, OutOfIterations}
      ensures nudged ==> text && ending == Running
      ensures ending != OutOfIterations ==> thinkOffNext == (nudged && turn.candidate.thinkOff)
      ensures !text ==>
        fired == old(fired) && attempts == old(attempts) && passed == old(passed) && failures == old(failures)
      ensures ending == Cut <==> !text && ending != OutOfIterations && old(wrapUp)
      ensures ending == Cut ==> finalAnswer == if Blank(turn.content) then CUT_ANSWER else Strip(turn.content)
      ensures ending == Running && !text ==>
        answerBounces == 0 && lastClean == None && clean == [] && finalAnswer == old(finalAnswer)
      ensures wrapUp == (old(wrapUp) || (turn.Tools? && turn.wraps && ending != OutOfIterations))
    {
      hide Answered, Blank, Ends, Hopeless, Valid;
      iterations := iterations + 1;
      text, nudged, hit := false, false, 0;
      if maxIterations != 0 && iterations > maxIterations {
        OutOfTurns();
        return;
      }
      thinkOffNext := false;
      match turn {
        case Tools(content, wraps) =>
          ToolTurn(content, wraps);
        case Text(candidate, verdict) =>
          text := true;
          nudged, hit := AnswerTurn(candidate, verdict);
      }
    }
  }

  function MaxOf(a: int, b: int): int { if a > b then a else b }

  /** How often the verifier may be asked. */
  function Checks(verify: Option<VerifySpec>): int {
    if verify.Some? then MaxOf(1, verify.value.maxChecks) else 1
  }

  /** How many of the turns are text answers. */
  function Texts(script: seq<Turn>): nat {
    if script == [] then 0 else
      Texts(script[..|script| - 1]) + if script[|script| - 1].Text? then 1 else 0
  }

  /** Some turn with tool calls ended in the tools-off wrap-up. */
  ghost predicate Wrapping(script: seq<Turn>) {
    exists k :: 0 <= k < |script| && script[k].Tools? && script[k].wraps
  }

  /** How many of the turns came after the wrap-up began. */
  ghost function Late(script: seq<Turn>): nat {
    if script == [] then 0 else
      Late(script[..|script| - 1]) + if Wrapping(script[..|script| - 1]) then 1 else 0
  }

  lemma PrefixGrows(script: seq<Turn>, n: nat)
    requires n < |script|
    ensures Texts(script[..n + 1]) == Texts(script[..n]) + if script[n].Text? then 1 else 0
    ensures Late(script[..n + 1]) == Late(script[..n]) + if Wrapping(script[..n]) then 1 else 0
    ensures Wrapping(script[..n + 1]) <==> Wrapping(script[..n]) || (script[n].Tools? && script[n].wraps)
  {
    var more := script[..n + 1];
    assert more[..n] == script[..n];
    if Wrapping(script[..n]) {
      var k :| 0 <= k < n && script[..n][k].Tools? && script[..n][k].wraps;
      assert more[k].Tools? && more[k].wraps;
    }
    assert more[n] == script[n];
  }

  /** A whole run: whatever the model answers and the verifier says, the turns without
      tool calls are bounded by the nine guards plus the verifier's attempts, the model
      turns by a positive iteration limit, and the turns taken after the tools-off
      wrap-up began by the text turns plus one. */
  method Run(f: Finisher, script: seq<Turn>) returns (textTurns: nat, nudges: nat, modelTurns: nat, lateTurns: nat)
    requires f.Valid() && f.ending == Running && f.fired == {} && f.attempts == 0 && f.iterations == 0 && !f.passed
    requires !f.wrapUp
    modifies f
    ensures f.Valid()
    ensures modelTurns <= |script| && (f.ending == Running ==> modelTurns == |script|)
    ensures modelTurns == f.iterations - if f.ending == OutOfIterations then 1 else 0
    ensures textTurns == Texts(script[..modelTurns]) && lateTurns == Late(script[..modelTurns])
    ensures nudges == |f.fired| <= 9
    ensures textTurns <= 9 + Checks(f.verify)
    ensures f.maxIterations > 0 ==> modelTurns <= f.maxIterations
    ensures lateTurns <= textTurns + 1 <= 10 + Checks(f.verify)
    ensures f.ending in {Accepted, GaveUp} ==> modelTurns > 0 && script[modelTurns - 1].Text?
    ensures f.ending == Accepted && f.verify.Some? ==> script[modelTurns - 1].verdict.Passed?
    ensures f.ending == GaveUp ==> script[modelTurns - 1].verdict.Failed? && f.Hopeless(f.failures)
    ensures f.verify.Some? ==> f.attempts == |f.failures| + if f.ending == Accepted then 1 else 0
  {
    hide Texts, Late, Wrapping, Streak, Finisher.Answered, Finisher.Hopeless;
    textTurns, nudges, modelTurns, lateTurns := 0, 0, 0, 0;
    GuardsAreNine(f.fired);
    NothingYet(script);
    var i := 0;
    while i < |script| && f.ending == Running
      invariant 0 <= i <= |script| && f.Valid()
      invariant nudges == |f.fired| <= 9
      invariant f.ending == Running ==> textTurns == nudges + f.attempts && !f.passed
      invariant textTurns <= nudges + Checks(f.verify)
      invariant f.iterations == i && i == modelTurns + if f.ending == OutOfIterations then 1 else 0
      invariant textTurns == Texts(script[..modelTurns]) && lateTurns == Late(script[..modelTurns])
      invariant f.wrapUp <==> Wrapping(script[..modelTurns])
      invariant f.maxIterations > 0 ==> modelTurns <= f.maxIterations
      invariant lateTurns <= textTurns + if f.ending == Cut then 1 else 0
      invariant f.ending in {Accepted, GaveUp} ==> modelTurns > 0 && script[modelTurns - 1].Text?
      invariant f.ending == Accepted && f.verify.Some? ==> script[modelTurns - 1].verdict.Passed?
      invariant f.ending == GaveUp ==> script[modelTurns - 1].verdict.Failed? && f.Hopeless(f.failures)
      invariant f.verify.Some? ==> f.attempts == |f.failures| + if f.ending == Accepted then 1 else 0
    {
      var late := f.wrapUp;
      PrefixGrows(script, i);
      ghost var before := f.Now();
      var text, nudged, hit := f.Step(script[i]);
      if text {
        f.VerdictDecides(before, script[i].candidate, script[i].verdict, f.Now(), nudged, hit);
      }
      GuardsAreNine(f.fired);
      if f.ending != OutOfIterations {
        modelTurns := modelTurns + 1;
        if late { lateTurns := lateTurns + 1; }
      }
      if text { textTurns := textTurns + 1; }
      if nudged { nudges := nudges + 1; }
      i := i + 1;
    }
  }

  lemma NothingYet(script: seq<Turn>)
    ensures Texts(script[..0]) == 0 && Late(script[..0]) == 0 && !Wrapping(script[..0])
  {
  }
}

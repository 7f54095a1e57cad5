/** The pre-execution gates a tool call passes, and the escalation behind them: counted
    refusals, one harness-side delegation, and the tools-off wrap-up. */
module DispatchGates {
  import opened Text
  import opened RepeatWindow

  /** The gates that can settle a call, in pipeline order. `Structural` stands for the
      malformed, admin-only, allowlist and phantom-tool gates, `Approval` for the privacy
      and confirmation gates; none of these touches the run's counters. */
  datatype Gate =
    | Structural | StallHardStop | RepeatError | JspaceBadge | Strength | DispatchMode
    | DelegateHard | ParseArgs | Duplicate | NearDuplicate | Approval

  /** Gates whose refusals count towards the rejection cap. */
  predicate Counted(g: Gate) { g in {StallHardStop, RepeatError, JspaceBadge, Duplicate, NearDuplicate} }

  /** Gates that send the implementation to a specialist and disarm once it was asked. */
  predicate AsksForDelegate(g: Gate) { g in {Strength, DispatchMode, DelegateHard} }

  predicate IsDelegate(name: string) { name in {"specialist.delegate", "code.delegate"} }

  predicate StallAllows(name: string) {
    IsDelegate(name) || name in {"ask.user", "todos", "context.pin", "run.badge", "fs.write", "fs.edit"}
  }

  /** One tool call as the gates see it: its name, what the classifiers say about its raw
      arguments, its signatures, and the outcome of the gates that are not modelled. */
  datatype Call = Call(name: string, structural: bool, rawSig: string, writeLike: bool, ledger: bool, codeFile: bool,
                       parsed: bool, sig: string, tokens: set<string>, flags: set<string>, approved: bool)
  {
    predicate AuthorsCode() { (name in {"fs.write", "fs.edit"} && codeFile) || name == "procedure.save" }
    predicate NeedsCeremony() { (writeLike && !ledger) || IsDelegate(name) || name in {"agent.spawn", "agent.fanout"} }
  }

  /** What a harness-side delegation would meet: the wall clock spent, a live route, a
      delegate tool, and whether the specialist's result is ok. */
  datatype Handover = Handover(spent: bool, routed: bool, hasTool: bool, ok: bool)

  /** What else may happen to the shared state between two calls. */
  datatype Observation = Observation(stall: bool, mutations: nat, delegated: bool, watched: bool, badged: bool, planned: bool,
                                     writes: nat, fails: map<(string, string), seq<(string, nat)>>)

  /** The most frequent error, the earliest among equals. */
  function Worst(errs: seq<(string, nat)>): (r: (string, nat))
    requires errs != []
    ensures r in errs && forall e :: e in errs ==> e.1 <= r.1
  {
    var last := errs[|errs| - 1];
    if |errs| == 1 then last else
      var w := Worst(errs[..|errs| - 1]);
      assert errs == errs[..|errs| - 1] + [last];
      if last.1 > w.1 then last else w
  }

  lemma WorstNext(errs: seq<(string, nat)>)
    requires errs != []
    ensures var n := |errs| - 1;
      Worst(errs) == if n == 0 || errs[n].1 > Worst(errs[..n]).1 then errs[n] else Worst(errs[..n])
  {
  }

  lemma WorstBounds(errs: seq<(string, nat)>, j: nat)
    requires j < |errs|
    ensures errs[j].1 <= Worst(errs).1
  {
    assert errs[j] in errs;
  }

  /** Among equally frequent errors it is the earliest. */
  lemma {:induction false} WorstIsEarliest(errs: seq<(string, nat)>) returns (k: nat)
    requires errs != []
    ensures k < |errs| && errs[k] == Worst(errs) && forall j :: 0 <= j < k ==> errs[j].1 < Worst(errs).1
  {
    hide Worst;
    WorstNext(errs);
    k := |errs| - 1;
    if k > 0 {
      var front := errs[..k];
      if errs[k].1 > Worst(front).1 {
        forall j | 0 <= j < k ensures errs[j].1 < errs[k].1 {
          WorstBounds(front, j);
        }
      } else {
        k := WorstIsEarliest(front);
        assert forall j :: 0 <= j <= k ==> errs[j] == front[j];
      }
    }
  }

  datatype Config = Config(guardMax: int, autoDelegateAfter: int, hardBlockAfter: int, stallStopOn: bool,
                           jspaceOn: bool, dispatchMode: bool, delegateAfter: int, enforce: bool, escalate: bool,
                           brainGate: bool, depth: nat, delegateAvailable: bool, delegateOk: bool,
                           strengthArmed: bool, nearDupTools: set<string>, threshold: real,
                           pollSafe: set<string>, off: set<Gate>)
  {
    function EnforceAt(): int {
      if enforce then delegateAfter else if escalate && brainGate then 2 * delegateAfter else 0
    }

    predicate AtCap(rejections: int) { guardMax != 0 && rejections >= guardMax }

    predicate AtStreak(refusals: int) { autoDelegateAfter != 0 && refusals >= autoDelegateAfter }

    /** A harness-side delegation would be attempted. */
    ghost predicate Eligible(p: Pressure, h: Handover) {
      && autoDelegateAfter != 0 && !p.autoDelegated && !p.delegated && depth == 0 && delegateAvailable
      && !h.spent && h.routed && h.hasTool
    }

    /** In a j-space run whose badge gate is closed, a delegation supplies badge and plan. */
    function Supplied(v: Openers): Openers {
      if jspaceOn && v.watched && !v.open then Openers(true, true, true, true) else v
    }

    /** A delegation that is asked for: latched even when it fails, real progress when not. */
    ghost function AfterAsking(p: Pressure, h: Handover): Pressure {
      if !Eligible(p, h) then p
      else if !h.ok then p.(autoDelegated := true, handovers := p.handovers + 1)
      else p.(autoDelegated := true, handovers := p.handovers + 1, delegated := true, stalled := false, gen := p.gen + 1)
    }

    /** Gate `g` refuses a call; `points` says whether the refusal names the specialist.
        A delegation is asked for when the streak is long enough, or at one of the
        duplicate gates when the cap is reached; if it does not succeed, a counted
        refusal at the cap, or a stall refusal at the end of the streak, wraps up. */
    ghost function AfterRefusal(p: Pressure, g: Gate, points: bool, h: Handover): Pressure {
      var q := p.(rejections := p.rejections + (if Counted(g) then 1 else 0),
                  refusals := p.refusals + (if points then 1 else 0));
      var asks := (points && AtStreak(q.refusals)) || (g in {Duplicate, NearDuplicate} && AtCap(q.rejections));
      var wraps := (Counted(g) && AtCap(q.rejections)) || (g == StallHardStop && AtStreak(q.refusals));
      var r := if asks then AfterAsking(q, h) else q;
      if wraps && !(asks && Eligible(q, h) && h.ok) then r.(wrapUp := true) else r
    }

    /** Past the cap the run is wrapping up, unless the one delegation just saved it; it
        never wraps up early; and at most one delegation was executed. */
    ghost predicate Escalated(p: Pressure) {
      && p.handovers == (if p.autoDelegated then 1 else 0)
      && (guardMax > 0 && p.rejections >= guardMax && !p.wrapUp ==> p.autoDelegated)
      && (guardMax > 0 && p.rejections > guardMax ==> p.wrapUp)
      && (p.wrapUp ==> AtCap(p.rejections) || AtStreak(p.refusals))
    }
  }

  /** Whether the run has loaded the j-space skill, the badge gate's latch, and the two
      openers it waits for. */
  datatype Openers = Openers(watched: bool, open: bool, badged: bool, planned: bool)

  /** The part of the run state the refusals drive. */
  datatype Pressure = Pressure(rejections: nat, refusals: nat, wrapUp: bool, autoDelegated: bool, handovers: nat,
                               delegated: bool, gen: nat, stalled: bool)

  lemma RefusalEscalates(cfg: Config, p: Pressure, g: Gate, points: bool, h: Handover)
    requires cfg.Escalated(p)
    ensures cfg.Escalated(cfg.AfterRefusal(p, g, points, h))
    ensures p.wrapUp ==> cfg.AfterRefusal(p, g, points, h).wrapUp
    ensures p.delegated ==> cfg.AfterRefusal(p, g, points, h).delegated
    ensures cfg.AfterRefusal(p, g, points, h).rejections == p.rejections + if Counted(g) then 1 else 0
  {
  }

  lemma ElsewhereEscalates(cfg: Config, p: Pressure, stalled: bool, gen: nat, delegated: bool)
    requires cfg.Escalated(p)
    ensures cfg.Escalated(p.(stalled := stalled, gen := gen, delegated := delegated))
  {
  }

  lemma UncountedIsFree(cfg: Config, p: Pressure, g: Gate, h: Handover)
    requires g in {Structural, ParseArgs, Approval}
    ensures cfg.AfterRefusal(p, g, false, h) == p
  {
  }

  /** The cap is exact: at the refusal that reaches it the run goes on only if the
      delegation was executed and succeeded at that very refusal. */
  lemma CapIsExact(cfg: Config, p: Pressure, g: Gate, points: bool, h: Handover)
    requires cfg.guardMax > 0 && cfg.Escalated(p) && Counted(g) && p.rejections + 1 == cfg.guardMax && !p.wrapUp
    ensures var q := cfg.AfterRefusal(p, g, points, h);
      !q.wrapUp <==> q.handovers == p.handovers + 1 && q.delegated
  {
  }

  /** A successful delegation prevents the wrap-up its own refusal would have started, but
      cancels none: afterwards the run wraps up exactly if it already did before. */
  lemma SuccessCancelsNothing(cfg: Config, p: Pressure, g: Gate, points: bool, h: Handover)
    requires cfg.AfterRefusal(p, g, points, h).handovers > p.handovers && h.ok
    ensures cfg.AfterRefusal(p, g, points, h).delegated
    ensures cfg.AfterRefusal(p, g, points, h).wrapUp <==> p.wrapUp
  {
  }

  /** When the harness delegates: at the refusal that brings the streak to its limit, or at a
      duplicate refusal that reaches the cap, and only while nobody was asked and a
      specialist can be reached. */
  lemma DelegationIsDue(cfg: Config, p: Pressure, g: Gate, points: bool, h: Handover)
    requires g in {Duplicate, NearDuplicate} ==> !points
    ensures cfg.AfterRefusal(p, g, points, h).handovers == p.handovers + 1 <==>
      && (if g in {Duplicate, NearDuplicate} then cfg.guardMax != 0 && p.rejections + 1 >= cfg.guardMax
          else points && p.refusals + 1 >= cfg.autoDelegateAfter)
      && cfg.autoDelegateAfter != 0 && !p.autoDelegated && !p.delegated && cfg.depth == 0 && cfg.delegateAvailable
      && !h.spent && h.routed && h.hasTool
  {
  }

  const HANDOVER_WORDS := "specialist.delegate"

  class RunGates {
    const cfg: Config

    var guardRejections: nat
    var delegateRefusals: nat
    var wrapUp: bool
    var autoDelegated: bool
    var delegated: bool
    var stallHardStop: bool
    var jspaceWatched: bool
    var jspaceOpen: bool
    var badged: bool
    var planned: bool
    var mutationGen: nat
    var inlineWrites: nat
    var repeatFails: map<(string, string), seq<(string, nat)>>
    var recentCalls: seq<Key>
    var recentQueries: seq<Query>
    /** Every call and query the windows ever recorded, and the delegations executed. */
    ghost var callLog: seq<Key>
    ghost var queryLog: seq<Query>
    ghost var handovers: nat

    ghost function Now(): Pressure
      reads this`guardRejections, this`delegateRefusals, this`wrapUp, this`autoDelegated, this`handovers,
            this`delegated, this`mutationGen, this`stallHardStop
    {
      Pressure(guardRejections, delegateRefusals, wrapUp, autoDelegated, handovers, delegated, mutationGen, stallHardStop)
    }

    function View(): Openers
      reads this`jspaceWatched, this`jspaceOpen, this`badged, this`planned
    {
      Openers(jspaceWatched, jspaceOpen, badged, planned)
    }

    /** The openers are as before, or as an executed delegation supplies them. */
    ghost predicate OpenersAfter(before: Openers, executed: bool)
      reads this`jspaceWatched, this`jspaceOpen, this`badged, this`planned
    {
      View() == if executed then cfg.Supplied(before) else before
    }

    ghost predicate Windows()
      reads this`recentCalls, this`recentQueries, this`callLog, this`queryLog
    {
      && recentCalls == Last(callLog, WINDOW) && Spaced(callLog, SameKey)
      && recentQueries == Last(queryLog, WINDOW) && Spaced(queryLog, Alike(cfg.threshold))
    }

    ghost predicate Valid()
      reads this
    {
      cfg.Escalated(Now()) && Windows()
    }

    constructor (cfg: Config)
      ensures this.cfg == cfg && Valid()
      ensures guardRejections == 0 && !wrapUp && !delegated && handovers == 0 && callLog == []
      ensures delegateRefusals == 0 && View() == Openers(false, false, false, false)
    {
      this.cfg := cfg;
      guardRejections, delegateRefusals, wrapUp, autoDelegated, delegated := 0, 0, false, false, false;
      stallHardStop, jspaceWatched, jspaceOpen, badged, planned := false, false, false, false, false;
      mutationGen, inlineWrites := 0, 0;
      repeatFails, recentCalls, recentQueries, callLog, queryLog, handovers := map[], [], [], [], [], 0;
    }

    // ---- when each gate refuses ----

    ghost predicate StallBlocks(c: Call)
      reads this`stallHardStop
    {
      StallHardStop !in cfg.off && cfg.stallStopOn && stallHardStop && !StallAllows(c.name)
    }

    /** The worst error this exact call already met, if the repeat block is on. */
    ghost predicate RepeatBlocks(c: Call)
      reads this`repeatFails
    {
      && RepeatError !in cfg.off && cfg.hardBlockAfter != 0
      && (c.name, c.rawSig) in repeatFails && repeatFails[(c.name, c.rawSig)] != []
      && Worst(repeatFails[(c.name, c.rawSig)]).1 >= cfg.hardBlockAfter
    }

    ghost predicate JspaceBlocks(c: Call)
      reads this`jspaceWatched, this`jspaceOpen, this`badged, this`planned
    {
      && JspaceBadge !in cfg.off && cfg.jspaceOn && jspaceWatched && !jspaceOpen && !(badged && planned)
      && c.NeedsCeremony()
    }

    ghost predicate StrengthBlocks(c: Call)
      reads this`delegated
    {
      Strength !in cfg.off && cfg.strengthArmed && !delegated && c.writeLike
    }

    ghost predicate DispatchBlocks(c: Call)
      reads this`delegated
    {
      DispatchMode !in cfg.off && cfg.dispatchMode && !delegated && c.AuthorsCode()
    }

    ghost predicate DelegateBlocks(c: Call)
      reads this`delegated, this`inlineWrites
    {
      && DelegateHard !in cfg.off && cfg.EnforceAt() != 0 && cfg.depth == 0 && !delegated
      && inlineWrites + 1 >= cfg.EnforceAt() && c.writeLike && cfg.delegateOk
    }

    function CallKey(c: Call): Key
      reads this`mutationGen
    {
      Key(c.sig, mutationGen)
    }

    function CallQuery(c: Call): Query
      reads this`mutationGen
    {
      Query(c.name, mutationGen, c.tokens, c.flags)
    }

    predicate RecordsCall(c: Call) { Duplicate !in cfg.off && c.name !in cfg.pollSafe }

    predicate RecordsQuery(c: Call) {
      && NearDuplicate !in cfg.off && !(Duplicate !in cfg.off && c.name in cfg.pollSafe)
      && c.name in cfg.nearDupTools && cfg.threshold != 0.0
    }

    /** The near-duplicate gate looks at the call: it is on, the tool is a query tool, and the
        call was not let through as a poll by the gate before it. */
    ghost predicate NearDupArmed(c: Call) {
      && NearDuplicate !in cfg.off && c.name in cfg.nearDupTools && cfg.threshold != 0.0
      && (c.name in cfg.pollSafe ==> Duplicate in cfg.off)
    }

    ghost predicate DuplicateBlocks(c: Call)
      reads this`recentCalls, this`mutationGen
    {
      RecordsCall(c) && Twice(recentCalls, SameKey, CallKey(c))
    }

    ghost predicate NearDuplicateBlocks(c: Call)
      reads this`recentQueries, this`mutationGen
    {
      RecordsQuery(c) && Twice(recentQueries, Alike(cfg.threshold), CallQuery(c))
    }

    /** The first gate before argument parsing, in pipeline order, that refuses the call. */
    ghost function EarlyRefuser(c: Call): Option<Gate>
      reads this`stallHardStop, this`repeatFails, this`jspaceWatched, this`jspaceOpen, this`badged, this`planned,
            this`delegated, this`inlineWrites
    {
      if c.structural then Some(Structural)
      else if StallBlocks(c) then Some(StallHardStop)
      else if RepeatBlocks(c) then Some(RepeatError)
      else if JspaceBlocks(c) then Some(JspaceBadge)
      else if StrengthBlocks(c) then Some(Strength)
      else if DispatchBlocks(c) then Some(DispatchMode)
      else if DelegateBlocks(c) then Some(DelegateHard)
      else None
    }

    /** The first gate from argument parsing on that refuses the call. */
    ghost function LateRefuser(c: Call): Option<Gate>
      reads this`recentCalls, this`recentQueries, this`mutationGen
    {
      if !c.parsed then Some(ParseArgs)
      else if DuplicateBlocks(c) then Some(Duplicate)
      else if NearDuplicateBlocks(c) then Some(NearDuplicate)
      else if !c.approved then Some(Approval)
      else None
    }

    ghost function Refuser(c: Call): Option<Gate>
      reads this
    {
      if EarlyRefuser(c).Some? then EarlyRefuser(c) else LateRefuser(c)
    }

    /** The refusal names the specialist, so it counts towards the streak. */
    ghost predicate Points(g: Gate, c: Call)
      reads this`repeatFails
    {
      || g == StallHardStop || AsksForDelegate(g)
      || (g == RepeatError && RepeatBlocks(c)
          && Contains(Worst(repeatFails[(c.name, c.rawSig)]).0, "specialist.delegate"))
    }

    // ---- the operations ----

    method AutoDelegate(h: Handover) returns (ok: bool)
      modifies this`autoDelegated, this`delegated, this`handovers, this`mutationGen, this`stallHardStop,
               this`jspaceOpen, this`badged, this`planned
      ensures ok == (cfg.Eligible(old(Now()), h) && h.ok)
      ensures Now() == cfg.AfterAsking(old(Now()), h)
      ensures OpenersAfter(old(View()), handovers > old(handovers))
    {
      ok := false;
      if cfg.autoDelegateAfter == 0 || autoDelegated || delegated || cfg.depth != 0 || !cfg.delegateAvailable {
        return;
      }
      if h.spent || !h.routed || !h.hasTool {
        return;
      }
      if cfg.jspaceOn && jspaceWatched && !jspaceOpen {
        badged, planned, jspaceOpen := true, true, true;
      }
      autoDelegated := true;
      handovers := handovers + 1;
      ok := h.ok;
      if ok {
        mutationGen := mutationGen + 1;
        delegated := true;
        stallHardStop := false;
      }
    }

    /** The delegation the harness attempts once the refusal streak is long enough. */
    method DelegateOnStreak(h: Handover) returns (salvaged: bool)
      modifies this`autoDelegated, this`delegated, this`handovers, this`mutationGen, this`stallHardStop,
               this`jspaceOpen, this`badged, this`planned
      ensures salvaged == (cfg.AtStreak(delegateRefusals) && cfg.Eligible(old(Now()), h) && h.ok)
      ensures Now() == if cfg.AtStreak(delegateRefusals) then cfg.AfterAsking(old(Now()), h) else old(Now())
      ensures OpenersAfter(old(View()), handovers > old(handovers))
    {
      hide Config.AfterAsking, Config.Eligible, Config.Supplied;
      salvaged := false;
      if cfg.AtStreak(delegateRefusals) {
        salvaged := AutoDelegate(h);
      }
    }

    method WrapUpOrSalvage(h: Handover)
      modifies this`autoDelegated, this`delegated, this`handovers, this`mutationGen, this`stallHardStop,
               this`jspaceOpen, this`badged, this`planned, this`wrapUp
      ensures var p := cfg.AfterAsking(old(Now()), h);
        Now() == if cfg.Eligible(old(Now()), h) && h.ok then p else p.(wrapUp := true)
      ensures OpenersAfter(old(View()), handovers > old(handovers))
    {
      var ok := AutoDelegate(h);
      if !ok { wrapUp := true; }
    }

    method StallGate(c: Call, h: Handover) returns (settled: bool)
      modifies this`guardRejections, this`delegateRefusals, this`wrapUp, this`autoDelegated, this`delegated,
               this`handovers, this`mutationGen, this`stallHardStop, this`jspaceOpen, this`badged, this`planned
      ensures settled <==> old(StallBlocks(c))
      ensures settled ==> Now() == cfg.AfterRefusal(old(Now()), StallHardStop, old(Points(StallHardStop, c)), h)
      ensures settled ==> OpenersAfter(old(View()), handovers > old(handovers))
      ensures !settled ==> unchanged(this)
    {
      hide Worst, Contains, RepeatBlocks, StallAllows, Config.Supplied, View, Config.AfterAsking, Config.Eligible;
      if !(StallHardStop !in cfg.off && cfg.stallStopOn && stallHardStop && !StallAllows(c.name)) {
        return false;
      }
      guardRejections := guardRejections + 1;
      delegateRefusals := delegateRefusals + 1;
      var salvaged := DelegateOnStreak(h);
      if !salvaged && (cfg.AtCap(guardRejections) || cfg.AtStreak(delegateRefusals)) {
        wrapUp := true;
      }
      return true;
    }

    method RepeatGate(c: Call, h: Handover) returns (settled: bool)
      modifies this`guardRejections, this`delegateRefusals, this`wrapUp, this`autoDelegated, this`delegated,
               this`handovers, this`mutationGen, this`stallHardStop, this`jspaceOpen, this`badged, this`planned
      ensures settled <==> old(RepeatBlocks(c))
      ensures settled ==> Now() == cfg.AfterRefusal(old(Now()), RepeatError, old(Points(RepeatError, c)), h)
      ensures settled ==> OpenersAfter(old(View()), handovers > old(handovers))
      ensures !settled ==> unchanged(this)
    {
      hide Worst, Contains, Config.AfterRefusal, OpenersAfter;
      if RepeatError in cfg.off || cfg.hardBlockAfter == 0 || (c.name, c.rawSig) !in repeatFails {
        return false;
      }
      var errs := repeatFails[(c.name, c.rawSig)];
      if errs == [] {
        return false;
      }
      var worst := Worst(errs);
      if worst.1 < cfg.hardBlockAfter {
        return false;
      }
      RefuseRepeat(Contains(worst.0, HANDOVER_WORDS), h);
      return true;
    }

    /** What a repeat refusal does; `points` tells an error that names the specialist. */
    method RefuseRepeat(points: bool, h: Handover)
      modifies this`guardRejections, this`delegateRefusals, this`wrapUp, this`autoDelegated, this`delegated,
               this`handovers, this`mutationGen, this`stallHardStop, this`jspaceOpen, this`badged, this`planned
      ensures Now() == cfg.AfterRefusal(old(Now()), RepeatError, points, h)
      ensures OpenersAfter(old(View()), handovers > old(handovers))
    {
      hide Config.Supplied, View, Config.AfterAsking, Config.Eligible;
      guardRejections := guardRejections + 1;
      var salvaged := false;
      if points {
        delegateRefusals := delegateRefusals + 1;
        salvaged := DelegateOnStreak(h);
      }
      if cfg.AtCap(guardRejections) && !salvaged {
        wrapUp := true;
      }
    }

    method JspaceGate(c: Call, h: Handover) returns (settled: bool)
      modifies this`guardRejections, this`wrapUp, this`jspaceOpen
      ensures settled <==> old(JspaceBlocks(c))
      ensures settled ==> Now() == cfg.AfterRefusal(old(Now()), JspaceBadge, old(Points(JspaceBadge, c)), h)
      ensures !settled ==> Now() == old(Now())
      ensures badged == old(badged) && planned == old(planned)
      ensures jspaceOpen == (old(jspaceOpen)
                             || (JspaceBadge !in cfg.off && cfg.jspaceOn && jspaceWatched && badged && planned))
    {
      hide Contains, RepeatBlocks, Call.NeedsCeremony;
      if JspaceBadge in cfg.off {
        return false;
      }
      if cfg.jspaceOn && jspaceWatched && !jspaceOpen && badged && planned {
        jspaceOpen := true;
      }
      if !(cfg.jspaceOn && jspaceWatched && !jspaceOpen && c.NeedsCeremony()) {
        return false;
      }
      guardRejections := guardRejections + 1;
      if cfg.AtCap(guardRejections) {
        wrapUp := true;
      }
      return true;
    }

    /** What those three gates do when they refuse. */
    method PointAtSpecialist(g: Gate, h: Handover)
      requires AsksForDelegate(g)
      modifies this`delegateRefusals, this`autoDelegated, this`delegated,
               this`handovers, this`mutationGen, this`stallHardStop, this`jspaceOpen, this`badged, this`planned
      ensures Now() == cfg.AfterRefusal(old(Now()), g, true, h)
      ensures OpenersAfter(old(View()), handovers > old(handovers))
    {
      delegateRefusals := delegateRefusals + 1;
      var _ := DelegateOnStreak(h);
    }

    /** The three gates that send the implementation to the specialist. */
    method DelegatePointingGates(c: Call, h: Handover) returns (gate: Option<Gate>)
      modifies this`delegateRefusals, this`autoDelegated, this`delegated,
               this`handovers, this`mutationGen, this`stallHardStop, this`jspaceOpen, this`badged, this`planned
      ensures gate == old(if StrengthBlocks(c) then Some(Strength) else if DispatchBlocks(c) then Some(DispatchMode)
                        else if DelegateBlocks(c) then Some(DelegateHard) else None)
      ensures gate.Some? ==> Now() == cfg.AfterRefusal(old(Now()), gate.value, old(Points(gate.value, c)), h)
      ensures gate == None ==> unchanged(this)
      ensures OpenersAfter(old(View()), handovers > old(handovers))
    {
      hide Contains, RepeatBlocks, Call.AuthorsCode, Config.AfterRefusal, Config.EnforceAt, Config.Supplied, View;
      if Strength !in cfg.off && cfg.strengthArmed && !delegated && c.writeLike {
        gate := Some(Strength);
      } else if DispatchMode !in cfg.off && cfg.dispatchMode && !delegated && c.AuthorsCode() {
        gate := Some(DispatchMode);
      } else if DelegateHard !in cfg.off && cfg.EnforceAt() != 0 && cfg.depth == 0 && !delegated
                && inlineWrites + 1 >= cfg.EnforceAt() && c.writeLike && cfg.delegateOk {
        gate := Some(DelegateHard);
      } else {
        return None;
      }
      PointAtSpecialist(gate.value, h);
    }

    /** Appends to the window of calls and drops the oldest one past the twentieth. */
    method RecordCall(key: Key)
      requires Windows() && !Twice(recentCalls, SameKey, key)
      modifies this`recentCalls, this`callLog
      ensures Windows() && callLog == old(callLog) + [key]
      ensures recentCalls == Last(old(recentCalls) + [key], 20)
    {
      hide Spaced, Twice, Alike, Count;
      RecordKeepsSpaced(callLog, SameKey, key);
      LastOfLast(callLog, [key], WINDOW);
      recentCalls, callLog := recentCalls + [key], callLog + [key];
      if |recentCalls| > WINDOW {
        recentCalls := recentCalls[1..];
      }
    }

    /** A recorded call is refused when it already stands twice in the window, with the same
        signature and in the same mutation generation. */
    method DuplicateGate(c: Call, h: Handover) returns (settled: bool)
      requires Windows()
      modifies this`guardRejections, this`wrapUp, this`autoDelegated, this`delegated, this`handovers, this`mutationGen,
               this`stallHardStop, this`jspaceOpen, this`badged, this`planned, this`recentCalls, this`callLog
      ensures Windows()
      ensures settled <==> old(DuplicateBlocks(c))
      ensures settled <==> Duplicate !in cfg.off && c.name !in cfg.pollSafe
                           && multiset(old(recentCalls))[Key(c.sig, old(mutationGen))] >= 2
      ensures recentCalls == if settled || Duplicate in cfg.off || c.name in cfg.pollSafe then old(recentCalls)
                             else Last(old(recentCalls) + [Key(c.sig, old(mutationGen))], 20)
      ensures OpenersAfter(old(View()), handovers > old(handovers))
      ensures settled ==>
        Now() == cfg.AfterRefusal(old(Now()), Duplicate, old(Points(Duplicate, c)), h) && callLog == old(callLog)
      ensures !settled ==> Now() == old(Now())
      ensures !settled ==> callLog == old(callLog) + (if RecordsCall(c) then [old(CallKey(c))] else [])
    {
      hide Twice, Last, Count, Contains, RepeatBlocks, Windows, Config.Supplied, View, Config.AfterAsking, Config.Eligible;
      if !RecordsCall(c) {
        return false;
      }
      var key := Key(c.sig, mutationGen);
      CountTwo(recentCalls, SameKey, key);
      CountIsExact(recentCalls, key);
      if Count(recentCalls, SameKey, key) < 2 {
        RecordCall(key);
        return false;
      }
      guardRejections := guardRejections + 1;
      if cfg.AtCap(guardRejections) {
        WrapUpOrSalvage(h);
      }
      return true;
    }

    /** Appends to the window of queries and drops the oldest one past the twentieth. */
    method RecordQuery(query: Query)
      requires Windows() && !Twice(recentQueries, Alike(cfg.threshold), query)
      modifies this`recentQueries, this`queryLog
      ensures Windows() && queryLog == old(queryLog) + [query]
      ensures recentQueries == Last(old(recentQueries) + [query], 20)
    {
      hide Spaced, Twice, Alike, Count;
      RecordKeepsSpaced(queryLog, Alike(cfg.threshold), query);
      LastOfLast(queryLog, [query], WINDOW);
      recentQueries, queryLog := recentQueries + [query], queryLog + [query];
      if |recentQueries| > WINDOW {
        recentQueries := recentQueries[1..];
      }
    }

    /** A recorded query is refused when it rewords two queries of the window. */
    method NearDuplicateGate(c: Call, h: Handover) returns (settled: bool)
      requires Windows()
      modifies this`guardRejections, this`wrapUp, this`autoDelegated, this`delegated, this`handovers, this`mutationGen,
               this`stallHardStop, this`jspaceOpen, this`badged, this`planned, this`recentQueries, this`queryLog
      ensures Windows()
      ensures settled <==> old(NearDuplicateBlocks(c))
      ensures settled <==>
        NearDupArmed(c) && TwoReworded(old(recentQueries), Query(c.name, old(mutationGen), c.tokens, c.flags), cfg.threshold)
      ensures recentQueries == if settled || !NearDupArmed(c) then old(recentQueries)
                               else Last(old(recentQueries) + [Query(c.name, old(mutationGen), c.tokens, c.flags)], 20)
      ensures OpenersAfter(old(View()), handovers > old(handovers))
      ensures settled ==>
        Now() == cfg.AfterRefusal(old(Now()), NearDuplicate, old(Points(NearDuplicate, c)), h) && queryLog == old(queryLog)
      ensures !settled ==> Now() == old(Now())
      ensures !settled ==> queryLog == old(queryLog) + (if RecordsQuery(c) then [old(CallQuery(c))] else [])
    {
      hide Twice, TwoReworded, Last, Count, Contains, RepeatBlocks, Alike, Windows, Config.Supplied, View,
           Config.AfterAsking, Config.Eligible;
      if !RecordsQuery(c) {
        return false;
      }
      var query := Query(c.name, mutationGen, c.tokens, c.flags);
      CountTwo(recentQueries, Alike(cfg.threshold), query);
      TwiceIsReworded(recentQueries, query, cfg.threshold);
      if Count(recentQueries, Alike(cfg.threshold), query) >= 2 {
        guardRejections := guardRejections + 1;
        if cfg.AtCap(guardRejections) {
          WrapUpOrSalvage(h);
        }
        return true;
      }
      RecordQuery(query);
      return false;
    }

    /** What a call that every gate lets through cannot be, told by its name and classifiers. */
    lemma PassedCallsAreAllowed(c: Call)
      requires Refuser(c).None?
      ensures StallHardStop !in cfg.off && cfg.stallStopOn && stallHardStop ==>
        c.name in {"specialist.delegate", "code.delegate", "ask.user", "todos", "context.pin", "run.badge", "fs.write",
                   "fs.edit"}
      ensures JspaceBadge !in cfg.off && cfg.jspaceOn && jspaceWatched && !jspaceOpen && !(badged && planned) ==>
        (c.writeLike ==> c.ledger) && c.name !in {"specialist.delegate", "code.delegate", "agent.spawn", "agent.fanout"}
      ensures DispatchMode !in cfg.off && cfg.dispatchMode && !delegated ==>
        c.name != "procedure.save" && (c.codeFile ==> c.name !in {"fs.write", "fs.edit"})
      ensures DelegateHard !in cfg.off && cfg.depth == 0 && !delegated && c.writeLike && cfg.delegateAfter > 0 ==>
        cfg.delegateOk ==>
        && (cfg.enforce ==> inlineWrites + 1 < cfg.delegateAfter)
        && (cfg.escalate && cfg.brainGate ==> inlineWrites + 1 < 2 * cfg.delegateAfter)
    {
      hide RepeatBlocks, StrengthBlocks, LateRefuser;
    }

    /** And what a call must be for these gates to refuse it. */
    lemma RefusalsHaveCause(c: Call)
      ensures Refuser(c) == Some(StallHardStop) ==>
        stallHardStop && c.name !in {"specialist.delegate", "code.delegate", "ask.user", "todos", "context.pin", "run.badge",
                                     "fs.write", "fs.edit"}
      ensures Refuser(c) == Some(JspaceBadge) ==>
        (c.writeLike && !c.ledger) || c.name in {"specialist.delegate", "code.delegate", "agent.spawn", "agent.fanout"}
      ensures Refuser(c) == Some(DispatchMode) ==>
        c.name == "procedure.save" || (c.codeFile && c.name in {"fs.write", "fs.edit"})
      ensures Refuser(c) == Some(DelegateHard) ==>
        && c.writeLike && cfg.delegateAfter != 0
        && if cfg.enforce then inlineWrites + 1 >= cfg.delegateAfter
           else cfg.escalate && cfg.brainGate && inlineWrites + 1 >= 2 * cfg.delegateAfter
    {
      hide RepeatBlocks, DuplicateBlocks, NearDuplicateBlocks;
    }

    /** Whatever the window holds, nothing recorded before the latest mutation makes a call a
        duplicate. */
    lemma MutationClearsDuplicates(c: Call)
      requires forall k :: k in recentCalls ==> k.gen != mutationGen
      requires forall q :: q in recentQueries ==> q.gen != mutationGen
      ensures !DuplicateBlocks(c) && !NearDuplicateBlocks(c)
      ensures Refuser(c).None? || Refuser(c).value !in {Duplicate, NearDuplicate}
    {
      hide Count, RecordsCall, RecordsQuery, EarlyRefuser;
      CountTwo(recentCalls, SameKey, CallKey(c));
      CountIsExact(recentCalls, CallKey(c));
      TwiceIsReworded(recentQueries, CallQuery(c), cfg.threshold);
      EarlyIsNoDuplicate(c);
    }

    /** What a duplicate refusal says about the windows. */
    lemma RefusedAsDuplicate(c: Call)
      ensures Refuser(c) == Some(Duplicate) ==> multiset(recentCalls)[Key(c.sig, mutationGen)] >= 2
      ensures Refuser(c) == Some(NearDuplicate) ==>
        TwoReworded(recentQueries, Query(c.name, mutationGen, c.tokens, c.flags), cfg.threshold)
    {
      hide Count, RecordsCall, RecordsQuery, EarlyRefuser, Twice, TwoReworded, Alike;
      CountTwo(recentCalls, SameKey, CallKey(c));
      CountIsExact(recentCalls, CallKey(c));
      TwiceIsReworded(recentQueries, CallQuery(c), cfg.threshold);
      EarlyIsNoDuplicate(c);
    }

    lemma EarlyIsNoDuplicate(c: Call)
      ensures EarlyRefuser(c).None? || EarlyRefuser(c).value !in {Duplicate, NearDuplicate}
    {
      hide StallBlocks, RepeatBlocks, JspaceBlocks, StrengthBlocks, DispatchBlocks, DelegateBlocks;
    }

    /** After a delegation none of the three specialist gates is the one that refuses. */
    lemma DelegatedDisarms(c: Call)
      requires delegated
      ensures Refuser(c).None? || !AsksForDelegate(Refuser(c).value)
    {
    }

    /** The gates that read the raw arguments; the first that refuses ends the pass. */
    method EarlyGates(c: Call, h: Handover) returns (gate: Option<Gate>)
      modifies this`guardRejections, this`delegateRefusals, this`wrapUp, this`autoDelegated, this`delegated,
               this`handovers, this`mutationGen, this`stallHardStop, this`jspaceOpen, this`badged, this`planned
      ensures gate == old(EarlyRefuser(c))
      ensures gate.Some? ==> Now() == cfg.AfterRefusal(old(Now()), gate.value, old(Points(gate.value, c)), h)
      ensures gate.None? ==> Now() == old(Now())
      ensures gate.None? ==> mutationGen == old(mutationGen)
    {
      hide StallBlocks, RepeatBlocks, JspaceBlocks, StrengthBlocks, DispatchBlocks, DelegateBlocks, Contains, Worst,
           Config.AfterRefusal;
      UncountedIsFree(cfg, Now(), Structural, h);
      if c.structural { return Some(Structural); }
      var settled := StallGate(c, h);
      if settled { return Some(StallHardStop); }
      settled := RepeatGate(c, h);
      if settled { return Some(RepeatError); }
      settled := JspaceGate(c, h);
      if settled { return Some(JspaceBadge); }
      gate := DelegatePointingGates(c, h);
    }

    /** The gates behind argument parsing. */
    method LateGates(c: Call, h: Handover) returns (gate: Option<Gate>)
      requires Windows()
      modifies this`guardRejections, this`wrapUp, this`autoDelegated, this`delegated, this`handovers, this`mutationGen,
               this`stallHardStop, this`jspaceOpen, this`badged, this`planned, this`recentCalls, this`callLog,
               this`recentQueries, this`queryLog
      ensures Windows()
      ensures gate == old(LateRefuser(c))
      ensures gate.Some? ==> Now() == cfg.AfterRefusal(old(Now()), gate.value, old(Points(gate.value, c)), h)
      ensures gate.None? ==> Now() == old(Now())
      ensures callLog == old(callLog)
        + (if gate in {None, Some(NearDuplicate), Some(Approval)} && RecordsCall(c) then [old(CallKey(c))] else [])
      ensures queryLog == old(queryLog)
        + (if gate in {None, Some(Approval)} && RecordsQuery(c) then [old(CallQuery(c))] else [])
    {
      hide DuplicateBlocks, NearDuplicateBlocks, NearDupArmed, TwoReworded, Last, View, OpenersAfter, Windows, RecordsCall,
           RecordsQuery, Config.AfterRefusal, RepeatBlocks, Contains, Worst;
      UncountedIsFree(cfg, Now(), ParseArgs, h);
      if !c.parsed { return Some(ParseArgs); }
      var settled := DuplicateGate(c, h);
      if settled { return Some(Duplicate); }
      settled := NearDuplicateGate(c, h);
      if settled { return Some(NearDuplicate); }
      UncountedIsFree(cfg, Now(), Approval, h);
      if !c.approved { return Some(Approval); }
      return None;
    }

    /** Every gate in order; the first that refuses ends the pass. */
    method AllGates(c: Call, h: Handover) returns (gate: Option<Gate>)
      requires Windows()
      modifies this
      ensures Windows()
      ensures gate == old(Refuser(c))
      ensures gate.Some? ==> Now() == cfg.AfterRefusal(old(Now()), gate.value, old(Points(gate.value, c)), h)
      ensures gate.None? ==> Now() == old(Now())
      ensures callLog == old(callLog)
        + (if gate in {None, Some(NearDuplicate), Some(Approval)} && RecordsCall(c) then [old(CallKey(c))] else [])
      ensures queryLog == old(queryLog)
        + (if gate in {None, Some(Approval)} && RecordsQuery(c) then [old(CallQuery(c))] else [])
    {
      hide Windows, Now, Points, RecordsCall, RecordsQuery, LateRefuser, Config.AfterRefusal, CallKey, CallQuery,
           StallBlocks, RepeatBlocks, JspaceBlocks, StrengthBlocks, DispatchBlocks, DelegateBlocks;
      gate := EarlyGates(c, h);
      if gate.None? {
        gate := LateGates(c, h);
      }
    }

    /** One call through the pipeline; `gate` is the gate that settled it. */
    method Dispatch(c: Call, h: Handover) returns (gate: Option<Gate>)
      requires Valid()
      modifies this
      ensures Valid()
      ensures gate == old(Refuser(c))
      ensures guardRejections == old(guardRejections) + if gate.Some? && Counted(gate.value) then 1 else 0
      ensures old(delegated) ==> delegated && (gate.None? || !AsksForDelegate(gate.value))
      ensures gate == Some(Duplicate) ==> multiset(old(recentCalls))[Key(c.sig, old(mutationGen))] >= 2
      ensures gate == Some(NearDuplicate) ==>
        TwoReworded(old(recentQueries), Query(c.name, old(mutationGen), c.tokens, c.flags), cfg.threshold)
      ensures gate.Some? ==> Now() == cfg.AfterRefusal(old(Now()), gate.value, old(Points(gate.value, c)), h)
      ensures gate.None? ==> Now() == old(Now())
      ensures callLog == old(callLog)
        + (if gate in {None, Some(NearDuplicate), Some(Approval)} && RecordsCall(c) then [old(CallKey(c))] else [])
      ensures queryLog == old(queryLog)
        + (if gate in {None, Some(Approval)} && RecordsQuery(c) then [old(CallQuery(c))] else [])
    {
      hide Windows, Points, RecordsCall, RecordsQuery, Refuser, Config.Escalated, Config.AfterRefusal, CallKey,
           CallQuery, AsksForDelegate, Counted, TwoReworded;
      ghost var before := Now();
      if delegated { DelegatedDisarms(c); }
      RefusedAsDuplicate(c);
      gate := AllGates(c, h);
      if gate.Some? {
        RefusalEscalates(cfg, before, gate.value, old(Points(gate.value, c)), h);
      }
    }

    /** What else happens between two calls: executed tools, turn guards, model turns.
        A delegation seen there is never forgotten. */
    method Observe(o: Observation)
      requires Valid()
      modifies this`stallHardStop, this`mutationGen, this`delegated, this`jspaceWatched, this`badged, this`planned,
               this`inlineWrites, this`repeatFails
      ensures Valid()
      ensures Now() == old(Now()).(stalled := o.stall, gen := old(mutationGen) + o.mutations,
                                   delegated := old(delegated) || o.delegated)
      ensures View() == Openers(o.watched, old(jspaceOpen), o.badged, o.planned)
      ensures inlineWrites == o.writes && repeatFails == o.fails
    {
      hide Windows, Config.Escalated;
      ElsewhereEscalates(cfg, Now(), o.stall, mutationGen + o.mutations, delegated || o.delegated);
      stallHardStop := o.stall;
      mutationGen := mutationGen + o.mutations;
      if o.delegated { delegated := true; }
      Look(o);
    }

    /** The facts the gates consult but never count. */
    method Look(o: Observation)
      modifies this`jspaceWatched, this`badged, this`planned, this`inlineWrites, this`repeatFails
      ensures View() == Openers(o.watched, old(jspaceOpen), o.badged, o.planned)
      ensures inlineWrites == o.writes && repeatFails == o.fails
    {
      jspaceWatched, badged, planned := o.watched, o.badged, o.planned;
      inlineWrites, repeatFails := o.writes, o.fails;
    }
  }

  datatype Event = Requested(call: Call, handover: Handover) | Elsewhere(observation: Observation)

  /** How many calls a run asks for. */
  function Requests(events: seq<Event>): nat {
    if events == [] then 0 else
      Requests(events[..|events| - 1]) + if events[|events| - 1].Requested? then 1 else 0
  }

  /** How one call ended, and whether a delegation had already been seen. */
  datatype Outcome = Outcome(gate: Option<Gate>, delegated: bool)

  predicate CountedOutcome(o: Outcome) { o.gate.Some? && Counted(o.gate.value) }

  function CountedIn(outcomes: seq<Outcome>): nat {
    if outcomes == [] then 0 else
      CountedIn(outcomes[..|outcomes| - 1]) + if CountedOutcome(outcomes[|outcomes| - 1]) then 1 else 0
  }

  /** Once a delegation was seen, no later call is refused for want of one. */
  ghost predicate Disarmed(outcomes: seq<Outcome>) {
    forall i, j :: 0 <= i <= j < |outcomes| && outcomes[i].delegated ==>
      outcomes[j].gate.None? || !AsksForDelegate(outcomes[j].gate.value)
  }

  ghost predicate Remembered(outcomes: seq<Outcome>, delegated: bool) {
    forall i :: 0 <= i < |outcomes| && outcomes[i].delegated ==> delegated
  }

  lemma OutcomeSnoc(outcomes: seq<Outcome>, o: Outcome, after: bool)
    requires Disarmed(outcomes) && Remembered(outcomes, o.delegated) && (o.delegated ==> after)
    requires o.delegated ==> o.gate.None? || !AsksForDelegate(o.gate.value)
    ensures Disarmed(outcomes + [o]) && Remembered(outcomes + [o], after)
    ensures CountedIn(outcomes + [o]) == CountedIn(outcomes) + if CountedOutcome(o) then 1 else 0
  {
    hide AsksForDelegate, Counted;
    assert (outcomes + [o])[..|outcomes|] == outcomes;
  }

  lemma StartOfRun(delegated: bool)
    ensures Disarmed([]) && Remembered([], delegated) && CountedIn([]) == 0
  {
  }

  lemma RememberMore(outcomes: seq<Outcome>, before: bool, after: bool)
    requires Remembered(outcomes, before) && (before ==> after)
    ensures Remembered(outcomes, after)
  {
  }

  /** What the run invariant says in every reachable state. */
  lemma ValidMeans(g: RunGates)
    requires g.Valid()
    ensures g.handovers <= 1
    ensures g.cfg.guardMax > 0 && g.guardRejections > g.cfg.guardMax ==> g.wrapUp
    ensures g.wrapUp ==> g.cfg.AtCap(g.guardRejections) || g.cfg.AtStreak(g.delegateRefusals)
    ensures Spaced(g.callLog, SameKey) && Spaced(g.queryLog, Alike(g.cfg.threshold))
    ensures |g.recentCalls| <= WINDOW && |g.recentQueries| <= WINDOW
  {
    hide Spaced;
  }

  /** A whole run, whatever the model calls and whatever happens around it: with a positive
      cap G the run is wrapping up after at most G + 1 counted refusals, it never wraps up
      without a cause, the harness delegates at most once, and after a delegation the
      three specialist gates never refuse again. The windows stay spaced. */
  method Run(g: RunGates, events: seq<Event>) returns (outcomes: seq<Outcome>)
    requires g.Valid() && g.guardRejections == 0
    modifies g
    ensures g.Valid() && g.handovers <= 1
    ensures |outcomes| == Requests(events)
    ensures g.guardRejections == CountedIn(outcomes)
    ensures g.cfg.guardMax > 0 && CountedIn(outcomes) > g.cfg.guardMax ==> g.wrapUp
    ensures g.wrapUp ==> g.cfg.AtCap(CountedIn(outcomes)) || g.cfg.AtStreak(g.delegateRefusals)
    ensures Disarmed(outcomes)
    ensures Spaced(g.callLog, SameKey) && Spaced(g.queryLog, Alike(g.cfg.threshold))
    ensures |g.recentCalls| <= WINDOW && |g.recentQueries| <= WINDOW
  {
    hide RunGates.Refuser, RunGates.Points, RunGates.Windows, RunGates.CallKey, RunGates.CallQuery,
         RunGates.RecordsCall, RunGates.RecordsQuery, Config.AfterRefusal, Disarmed, Remembered, CountedIn, Spaced,
         AsksForDelegate, Counted, Config.Escalated;
    outcomes := [];
    StartOfRun(g.delegated);
    for k := 0 to |events|
      invariant g.Valid() && |outcomes| == Requests(events[..k])
      invariant g.guardRejections == CountedIn(outcomes)
      invariant Disarmed(outcomes) && Remembered(outcomes, g.delegated)
    {
      assert events[..k + 1][..k] == events[..k];
      match events[k] {
        case Requested(c, h) =>
          var delegated := g.delegated;
          var gate := g.Dispatch(c, h);
          OutcomeSnoc(outcomes, Outcome(gate, delegated), g.delegated);
          outcomes := outcomes + [Outcome(gate, delegated)];
        case Elsewhere(o) =>
          RememberMore(outcomes, g.delegated, g.delegated || o.delegated);
          g.Observe(o);
      }
    }
    assert events[..|events|] == events;
    ValidMeans(g);
  }

  /** A run in which a delegation succeeds while a wrap-up is pending, and the wrap-up stays:
      with a cap of one, and the j-space skill loaded, the badge gate's refusal of the first
      call starts it, and the strength gate's refusal of the next call in the same batch delegates. */
  method WrapUpOutlivesDelegation() returns (g: RunGates)
    ensures fresh(g) && g.Valid() && g.cfg.guardMax == 1
    ensures g.handovers == 1 && g.delegated && g.wrapUp
  {
    hide RunGates.Windows, Contains, Worst;
    var cfg := Config(1, 1, 0, false, true, false, 0, false, false, false, 0, true, false, true, {}, 0.0, {}, {});
    var blocked := Call("fs.write", false, "", true, false, false, true, "a", {}, {}, true);
    var ledger := Call("fs.write", false, "", true, true, false, true, "b", {}, {}, true);
    g := new RunGates(cfg);
    g.Observe(Observation(false, 0, false, true, false, false, 0, map[]));
    var ready := Handover(false, true, true, true);
    assert g.Refuser(blocked) == Some(JspaceBadge);
    var first := g.Dispatch(blocked, ready);
    assert g.wrapUp && !g.delegated;
    assert g.Refuser(ledger) == Some(Strength);
    var second := g.Dispatch(ledger, ready);
  }
}

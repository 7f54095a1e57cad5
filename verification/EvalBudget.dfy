/** Money bounds of the evaluation runner: model calls against a shared cost budget, and a
    suite of cases against its cost cap. */
module EvalBudget {
  import opened Text

  /** Prices per million tokens; a model without an entry is free. */
  datatype Rates = Rates(input: real, output: real)

  type Prices = string -> Option<Rates>

  const FALLBACK := "local-specialist"

  function MaxOf(a: int, b: int): int { if a < b then b else a }

  function MinOf(a: int, b: int): int { if a < b then a else b }

  function Billable(prompt: nat, cached: nat): real {
    MaxOf(prompt - cached, 0) as real + cached as real * 0.1
  }

  function Cost(rates: Option<Rates>, prompt: nat, completion: nat, cached: nat): real {
    if rates.None? then 0.0 else
      (Billable(prompt, cached) * rates.value.input + completion as real * rates.value.output) / 1000000.0
  }

  ghost predicate Fair(prices: Prices) {
    forall alias :: prices(alias).Some? ==> prices(alias).value.input >= 0.0 && prices(alias).value.output >= 0.0
  }

  /** What the proxy answers: nothing usable, or tokens used and whether the content parses. */
  datatype Reply = NoReply | Answer(prompt: nat, completion: nat, cached: nat, json: bool)

  /** The bill stays within what was estimated and asked for. */
  predicate WithinEstimate(r: Reply, estimate: nat, limit: int) {
    r.Answer? ==> r.prompt <= estimate && r.completion <= limit && r.cached <= r.prompt
  }

  /** The world: the reply to the n-th request, for a model, a prompt estimate and a limit. */
  type World = (nat, string, nat, int) -> Reply

  ghost predicate Honest(world: World) {
    forall n, alias, estimate, limit :: WithinEstimate(world(n, alias, estimate, limit), estimate, limit)
  }

  /** The completion limit that the remaining money can fund; 0 when it cannot fund a call. */
  function Fit(rates: Option<Rates>, estimate: nat, maxTokens: int, remaining: Option<real>): int {
    if remaining.None? then maxTokens
    else if remaining.value <= 0.0 then 0
    else
      var available := remaining.value - Cost(rates, estimate, 0, 0);
      if available <= 0.0 then 0
      else
        var outputRate := if rates.Some? then rates.value.output / 1000000.0 else 0.0;
        if outputRate <= 0.0 then maxTokens
        else MaxOf(0, MinOf(maxTokens, (available / outputRate).Floor))
  }

  /** Prices are per million tokens, and a cached prompt token costs a tenth. */
  lemma CostIs(rates: Rates, prompt: nat, completion: nat, cached: nat)
    requires cached <= prompt
    ensures 1000000.0 * Cost(Some(rates), prompt, completion, cached) ==
      (prompt - cached) as real * rates.input + cached as real * (rates.input / 10.0) + completion as real * rates.output
    ensures Cost(None, prompt, completion, cached) == 0.0
  {
    var a, c := (prompt - cached) as real, cached as real;
    assert Billable(prompt, cached) == a + c * 0.1;
    assert (a + c * 0.1) * rates.input == a * rates.input + c * 0.1 * rates.input;
    assert c * 0.1 * rates.input == c * (rates.input / 10.0);
  }

  lemma TimesMono(a: real, b: real, c: real)
    requires a <= b && c >= 0.0
    ensures a * c <= b * c
  {
    assert (b - a) * c >= 0.0;
  }

  lemma CostNonNegative(rates: Option<Rates>, prompt: nat, completion: nat, cached: nat)
    requires rates.Some? ==> rates.value.input >= 0.0 && rates.value.output >= 0.0
    ensures Cost(rates, prompt, completion, cached) >= 0.0
  {
    if rates.Some? {
      TimesMono(0.0, Billable(prompt, cached), rates.value.input);
      TimesMono(0.0, completion as real, rates.value.output);
    }
  }

  /** As many tokens as the quotient allows cost no more than what is available. */
  lemma OutputIsFunded(available: real, output: real, completion: nat)
    requires output > 0.0 && available > 0.0 && completion as real <= available / (output / 1000000.0)
    ensures completion as real * output / 1000000.0 <= available
  {
    var perToken := output / 1000000.0;
    var fitted := available / perToken;
    assert fitted * perToken == available;
    TimesMono(completion as real, fitted, perToken);
    assert completion as real * perToken == completion as real * output / 1000000.0;
  }

  /** The two parts of a bill, each within its share, make a bill within the whole. */
  lemma PartsAreFunded(prompt: real, estimate: real, output: real, available: real, remaining: real)
    requires prompt <= estimate && output / 1000000.0 <= available == remaining - estimate / 1000000.0
    ensures (prompt + output) / 1000000.0 <= remaining
  {
  }

  lemma FitBounds(rates: Option<Rates>, estimate: nat, maxTokens: int, remaining: real)
    requires rates.Some? && rates.value.output > 0.0 && Fit(rates, estimate, maxTokens, Some(remaining)) > 0
    ensures var available := remaining - Cost(rates, estimate, 0, 0);
      available > 0.0
      && Fit(rates, estimate, maxTokens, Some(remaining)) as real <= available / (rates.value.output / 1000000.0)
  {
    hide Cost;
  }

  lemma FittedOutput(rates: Option<Rates>, estimate: nat, maxTokens: int, remaining: real, completion: nat)
    requires rates.Some? && rates.value.output > 0.0
    requires completion <= Fit(rates, estimate, maxTokens, Some(remaining)) && Fit(rates, estimate, maxTokens, Some(remaining)) > 0
    ensures completion as real * rates.value.output / 1000000.0 <= remaining - Cost(rates, estimate, 0, 0)
  {
    hide Fit, Cost;
    FitBounds(rates, estimate, maxTokens, remaining);
    assert completion as real <= Fit(rates, estimate, maxTokens, Some(remaining)) as real;
    OutputIsFunded(remaining - Cost(rates, estimate, 0, 0), rates.value.output, completion);
  }

  /** A call whose limit was fitted costs at most what was left. */
  lemma FittedCallIsFunded(rates: Option<Rates>, estimate: nat, maxTokens: int, remaining: real, limit: int, r: Reply)
    requires rates.Some? ==> rates.value.input >= 0.0 && rates.value.output >= 0.0
    requires 0 < limit <= Fit(rates, estimate, maxTokens, Some(remaining))
    requires r.Answer? && WithinEstimate(r, estimate, limit)
    ensures 0.0 <= Cost(rates, r.prompt, r.completion, r.cached) <= remaining
  {
    hide Fit;
    CostNonNegative(rates, r.prompt, r.completion, r.cached);
    FitIsAffordable(rates, estimate, maxTokens, remaining);
    if rates.Some? {
      var input, output := rates.value.input, rates.value.output;
      TimesMono(Billable(r.prompt, r.cached), estimate as real, input);
      var inputCost, outputCost := Billable(r.prompt, r.cached) * input, r.completion as real * output;
      var estimated := estimate as real * input;
      var available := remaining - estimated / 1000000.0;
      EstimateCost(rates, estimate);
      if output > 0.0 {
        FittedOutput(rates, estimate, maxTokens, remaining, r.completion);
      } else {
        assert outputCost == 0.0;
      }
      PartsAreFunded(inputCost, estimated, outputCost, available, remaining);
    }
  }

  lemma TimesStrict(a: real, b: real, c: real)
    requires a < b && c > 0.0
    ensures a * c < b * c
  {
    assert (b - a) * c > 0.0;
  }

  lemma QuotientFloor(available: real, rate: real, n: int)
    requires rate > 0.0
    ensures n <= (available / rate).Floor <==> n as real * rate <= available
  {
    var q := available / rate;
    assert q * rate == available;
    if n as real <= q {
      TimesMono(n as real, q, rate);
    } else {
      TimesStrict(q, n as real, rate);
    }
  }

  lemma OutputCost(rates: Rates, estimate: nat, n: nat)
    ensures Cost(Some(rates), estimate, n, 0) == Cost(Some(rates), estimate, 0, 0) + n as real * (rates.output / 1000000.0)
  {
    assert 0 as real * rates.output == 0.0;
  }

  /** The fitted limit is the largest that can be paid for: within the limit asked for, `n`
      completion tokens fit exactly when their bill, with the prompt as estimated, is within
      what remains; where output is free, exactly when the prompt leaves something over. */
  lemma FitIsLargest(rates: Option<Rates>, estimate: nat, maxTokens: int, remaining: real, n: nat)
    requires n > 0 && (rates.Some? ==> rates.value.input >= 0.0 && rates.value.output >= 0.0)
    ensures n <= Fit(rates, estimate, maxTokens, Some(remaining)) <==>
      n <= maxTokens && if rates.Some? && rates.value.output > 0.0 then Cost(rates, estimate, n, 0) <= remaining
                        else Cost(rates, estimate, 0, 0) < remaining
    ensures Fit(rates, estimate, maxTokens, None) == maxTokens
  {
    hide Cost;
    CostNonNegative(rates, estimate, 0, 0);
    if rates.Some? && rates.value.output > 0.0 {
      var rate := rates.value.output / 1000000.0;
      var available := remaining - Cost(rates, estimate, 0, 0);
      OutputCost(rates.value, estimate, n);
      QuotientFloor(available, rate, n);
      assert n as real * rate > 0.0;
    }
  }

  lemma FitIsAffordable(rates: Option<Rates>, estimate: nat, maxTokens: int, remaining: real)
    ensures Fit(rates, estimate, maxTokens, Some(remaining)) > 0 ==> remaining - Cost(rates, estimate, 0, 0) > 0.0
  {
    hide Cost;
  }

  lemma EstimateCost(rates: Option<Rates>, estimate: nat)
    requires rates.Some?
    ensures Cost(rates, estimate, 0, 0) == estimate as real * rates.value.input / 1000000.0
  {
    assert Billable(estimate, 0) == estimate as real;
    assert 0 as real * rates.value.output == 0.0;
  }

  /** What is left to spend (None means no cap), and how many requests were sent. */
  datatype Money = Money(remaining: Option<real>, requests: nat)

  /** The budget several calls share. */
  class Purse {
    var remaining: Option<real>
    var requests: nat

    function Now(): Money
      reads this
    {
      Money(remaining, requests)
    }

    constructor (remaining: Option<real>)
      ensures Now() == Money(remaining, 0)
    {
      this.remaining, requests := remaining, 0;
    }
  }

  datatype Result = Result(ok: bool, model: string, json: bool, cost: real)

  /** What one alias gives as request `n`: nothing is sent when the money cannot fund it. */
  function Attempt(prices: Prices, world: World, model: string, estimate: nat, maxTokens: int, remaining: Option<real>,
                   n: nat): Reply {
    var limit := Fit(prices(model), estimate, maxTokens, remaining);
    if limit <= 0 then NoReply else world(n, model, estimate, limit)
  }

  function Billed(prices: Prices, model: string, reply: Reply): Result {
    if reply.NoReply? then Result(false, model, false, 0.0)
    else Result(true, model, reply.json, Cost(prices(model), reply.prompt, reply.completion, reply.cached))
  }

  /** The answer of the alias, or else of the local specialist, fitted anew. */
  function Completion(prices: Prices, world: World, alias: string, estimate: nat, maxTokens: int,
                      remaining: Option<real>, n: nat): Result {
    var first := Billed(prices, alias, Attempt(prices, world, alias, estimate, maxTokens, remaining, n));
    if first.ok || alias == FALLBACK then first else
      var next := if Fit(prices(alias), estimate, maxTokens, remaining) <= 0 then n else n + 1;
      var second := Billed(prices, FALLBACK, Attempt(prices, world, FALLBACK, estimate, maxTokens, remaining, next));
      if second.ok then second else first
  }

  /** How many requests such a completion sends. */
  function Sent(prices: Prices, world: World, alias: string, estimate: nat, maxTokens: int, remaining: Option<real>,
                n: nat): nat {
    var one := if Fit(prices(alias), estimate, maxTokens, remaining) <= 0 then 0 else 1;
    if alias == FALLBACK || Attempt(prices, world, alias, estimate, maxTokens, remaining, n).Answer? then one
    else one + if Fit(prices(FALLBACK), estimate, maxTokens, remaining) <= 0 then 0 else 1
  }

  lemma AttemptIsFunded(prices: Prices, world: World, model: string, estimate: nat, maxTokens: int, remaining: Option<real>,
                        n: nat)
    requires Fair(prices) && Honest(world)
    ensures var r := Billed(prices, model, Attempt(prices, world, model, estimate, maxTokens, remaining, n));
      r.cost >= 0.0 && (remaining.Some? && r.cost > 0.0 ==> r.cost <= remaining.value)
  {
    var limit := Fit(prices(model), estimate, maxTokens, remaining);
    var reply := Attempt(prices, world, model, estimate, maxTokens, remaining, n);
    if reply.Answer? {
      assert WithinEstimate(world(n, model, estimate, limit), estimate, limit);
      CostNonNegative(prices(model), reply.prompt, reply.completion, reply.cached);
      if remaining.Some? {
        FittedCallIsFunded(prices(model), estimate, maxTokens, remaining.value, limit, reply);
      }
    }
  }

  /** Whatever the world answers, a completion costs at most what was left. */
  lemma CompletionIsFunded(prices: Prices, world: World, alias: string, estimate: nat, maxTokens: int,
                           remaining: Option<real>, n: nat)
    requires Fair(prices) && Honest(world)
    ensures var r := Completion(prices, world, alias, estimate, maxTokens, remaining, n);
      r.cost >= 0.0 && (!r.ok ==> r.cost == 0.0 && !r.json)
      && (remaining.Some? && r.cost > 0.0 ==> r.cost <= remaining.value)
  {
    hide Fit, Cost, Attempt;
    var next := if Fit(prices(alias), estimate, maxTokens, remaining) <= 0 then n else n + 1;
    AttemptIsFunded(prices, world, alias, estimate, maxTokens, remaining, n);
    AttemptIsFunded(prices, world, FALLBACK, estimate, maxTokens, remaining, next);
  }

  /** One completion with fallback to the local specialist; every alias is fitted again. */
  method ModelText(prices: Prices, world: World, alias: string, estimate: nat, maxTokens: int, purse: Purse)
    returns (r: Result)
    modifies purse`requests
    ensures r == Completion(prices, world, alias, estimate, maxTokens, purse.remaining, old(purse.requests))
    ensures purse.requests == old(purse.requests)
      + Sent(prices, world, alias, estimate, maxTokens, purse.remaining, old(purse.requests))
  {
    hide Fit, Cost;
    var aliases := if alias != FALLBACK then [alias, FALLBACK] else [alias];
    for i := 0 to |aliases|
      invariant i == 0 ==> purse.requests == old(purse.requests)
      invariant i >= 1 ==>
        && Attempt(prices, world, alias, estimate, maxTokens, purse.remaining, old(purse.requests)).NoReply?
        && (i == 1 ==> purse.requests == old(purse.requests)
                       + if Fit(prices(alias), estimate, maxTokens, purse.remaining) <= 0 then 0 else 1)
      invariant i == 2 ==>
        Completion(prices, world, alias, estimate, maxTokens, purse.remaining, old(purse.requests))
        == Result(false, alias, false, 0.0)
        && purse.requests == old(purse.requests)
          + Sent(prices, world, alias, estimate, maxTokens, purse.remaining, old(purse.requests))
    {
      var model := aliases[i];
      var limit := Fit(prices(model), estimate, maxTokens, purse.remaining);
      if limit <= 0 { continue; }
      var reply := world(purse.requests, model, estimate, limit);
      purse.requests := purse.requests + 1;
      if reply.NoReply? { continue; }
      return Result(true, model, reply.json, Cost(prices(model), reply.prompt, reply.completion, reply.cached));
    }
    return Result(false, alias, false, 0.0);
  }

  function Charged(remaining: Option<real>, cost: real): Option<real> {
    if remaining.None? then None else Some(if remaining.value - cost > 0.0 then remaining.value - cost else 0.0)
  }

  /** A guarded call: preflight on the primary alias, completion, charge. */
  function Guarded(prices: Prices, world: World, alias: string, estimate: nat, maxTokens: int, m: Money): (Result, Money) {
    var limit := Fit(prices(alias), estimate, maxTokens, m.remaining);
    if m.remaining.Some? && limit <= 0 then (Result(false, alias, false, 0.0), m)
    else
      var r := Completion(prices, world, alias, estimate, limit, m.remaining, m.requests);
      var sent := Sent(prices, world, alias, estimate, limit, m.remaining, m.requests);
      (r, Money(Charged(m.remaining, r.cost), m.requests + sent))
  }

  /** A guarded call spends what it reports and never more than there is. */
  lemma GuardedIsFunded(prices: Prices, world: World, alias: string, estimate: nat, maxTokens: int, m: Money)
    requires Fair(prices) && Honest(world)
    ensures var (r, next) := Guarded(prices, world, alias, estimate, maxTokens, m);
      && r.cost >= 0.0 && (!r.ok ==> r.cost == 0.0 && !r.json)
      && next.remaining.Some? == m.remaining.Some?
      && (m.remaining.Some? && m.remaining.value > 0.0 ==> 0.0 <= next.remaining.value == m.remaining.value - r.cost)
      && (m.remaining.Some? && m.remaining.value <= 0.0 ==> r.cost == 0.0 && next.remaining == m.remaining)
  {
    hide Completion, Sent, Cost;
    var limit := Fit(prices(alias), estimate, maxTokens, m.remaining);
    CompletionIsFunded(prices, world, alias, estimate, limit, m.remaining, m.requests);
  }

  /** One guarded call as its caller asks for it. */
  datatype Request = Request(alias: string, estimate: nat, maxTokens: int)

  /** Any sequence of guarded calls on one budget: the total spent and what is left. */
  function Chain(prices: Prices, world: World, reqs: seq<Request>, m: Money): (real, Money)
    decreases |reqs|
  {
    if reqs == [] then (0.0, m) else
      var (r, next) := Guarded(prices, world, reqs[0].alias, reqs[0].estimate, reqs[0].maxTokens, m);
      var (rest, left) := Chain(prices, world, reqs[1..], next);
      (r.cost + rest, left)
  }

  /** However many calls there are and however they turn out, together they spend exactly
      what the budget loses, and never more than it held. */
  lemma {:induction false} ChainIsFunded(prices: Prices, world: World, reqs: seq<Request>, m: Money)
    requires Fair(prices) && Honest(world) && m.remaining.Some?
    ensures var (spent, left) := Chain(prices, world, reqs, m);
      && left.remaining.Some? && spent >= 0.0
      && (m.remaining.value > 0.0 ==> 0.0 <= left.remaining.value == m.remaining.value - spent)
      && (m.remaining.value <= 0.0 ==> spent == 0.0 && left.remaining == m.remaining)
    decreases |reqs|
  {
    hide Guarded, Fair, Honest;
    if reqs != [] {
      GuardedIsFunded(prices, world, reqs[0].alias, reqs[0].estimate, reqs[0].maxTokens, m);
      ChainIsFunded(prices, world, reqs[1..],
                    Guarded(prices, world, reqs[0].alias, reqs[0].estimate, reqs[0].maxTokens, m).1);
    }
  }

  /** What an adaptive case does: a guarded call of the driver, or an agent turn, after which
      the budget is set anew from the case's cap and its total cost. */
  datatype Step = Probe(request: Request) | AgentTurn(cost: real)

  predicate Charges(s: Step) { s.AgentTurn? ==> s.cost >= 0.0 }

  /** What a case has left of its cap. */
  function Left(cap: real, total: real): real { if cap - total > 0.0 then cap - total else 0.0 }

  /** Assigning what is left of the cap is the same as charging the turn to what was left. */
  lemma AssignedIsCharged(cap: real, total: real, cost: real)
    requires cost >= 0.0
    ensures Some(Left(cap, total + cost)) == Charged(Some(Left(cap, total)), cost)
  {
  }

  /** What the agent turns cost. */
  function TurnCosts(steps: seq<Step>): real {
    if steps == [] then 0.0 else (if steps[0].AgentTurn? then steps[0].cost else 0.0) + TurnCosts(steps[1..])
  }

  /** What the driver's calls spend, the case's total after it all, and the budget. */
  function Adaptive(prices: Prices, world: World, steps: seq<Step>, cap: real, total: real, m: Money): (real, real, Money)
    decreases |steps|
  {
    if steps == [] then (0.0, total, m)
    else if steps[0].AgentTurn? then
      var sum := total + steps[0].cost;
      Adaptive(prices, world, steps[1..], cap, sum, m.(remaining := Some(Left(cap, sum))))
    else
      var q := steps[0].request;
      var (r, next) := Guarded(prices, world, q.alias, q.estimate, q.maxTokens, m);
      var (rest, sum, left) := Adaptive(prices, world, steps[1..], cap, total + r.cost, next);
      (r.cost + rest, sum, left)
  }

  /** The driver's calls never spend more than what is left of the cap, and the budget they
      share is at every point what is left of it: before the first call an agent turn has
      set it, and a call's own charge keeps it. */
  lemma {:induction false} AdaptiveIsFunded(prices: Prices, world: World, steps: seq<Step>, cap: real, total: real, m: Money)
    requires Fair(prices) && Honest(world) && forall i :: 0 <= i < |steps| ==> Charges(steps[i])
    requires (steps != [] && steps[0].AgentTurn?) || m.remaining == Some(Left(cap, total))
    ensures var (spent, sum, left) := Adaptive(prices, world, steps, cap, total, m);
      && 0.0 <= spent <= (if total < cap then cap - total else 0.0)
      && sum == total + spent + TurnCosts(steps)
      && left.remaining == Some(if sum < cap then cap - sum else 0.0)
    decreases |steps|
  {
    hide Guarded, Fair, Honest;
    if steps != [] {
      assert Charges(steps[0]) && forall i :: 0 <= i < |steps| - 1 ==> steps[1..][i] == steps[i + 1];
      if steps[0].AgentTurn? {
        var sum := total + steps[0].cost;
        AdaptiveIsFunded(prices, world, steps[1..], cap, sum, m.(remaining := Some(Left(cap, sum))));
      } else {
        var q := steps[0].request;
        var (r, next) := Guarded(prices, world, q.alias, q.estimate, q.maxTokens, m);
        GuardedIsFunded(prices, world, q.alias, q.estimate, q.maxTokens, m);
        AdaptiveIsFunded(prices, world, steps[1..], cap, total + r.cost, next);
      }
    }
  }

  /** A caller's loop over one shared budget. */
  method RunChain(prices: Prices, world: World, reqs: seq<Request>, purse: Purse) returns (spent: real)
    requires Fair(prices) && Honest(world)
    modifies purse
    ensures (spent, purse.Now()) == Chain(prices, world, reqs, old(purse.Now()))
    ensures old(purse.remaining).Some? ==>
      0.0 <= spent <= if old(purse.remaining).value > 0.0 then old(purse.remaining).value else 0.0
  {
    hide Guarded, Fair, Honest;
    if purse.remaining.Some? {
      ChainIsFunded(prices, world, reqs, purse.Now());
    }
    spent := 0.0;
    ghost var whole := Chain(prices, world, reqs, purse.Now());
    assert reqs[0..] == reqs;
    for i := 0 to |reqs|
      invariant var (rest, left) := Chain(prices, world, reqs[i..], purse.Now()); whole == (spent + rest, left)
    {
      assert reqs[i..][0] == reqs[i] && reqs[i..][1..] == reqs[i + 1..];
      var r := GuardedModelText(prices, world, reqs[i].alias, reqs[i].estimate, reqs[i].maxTokens, purse);
      spent := spent + r.cost;
    }
    assert reqs[|reqs|..] == [];
  }

  method GuardedModelText(prices: Prices, world: World, alias: string, estimate: nat, maxTokens: int, purse: Purse)
    returns (r: Result)
    modifies purse
    ensures (r, purse.Now()) == Guarded(prices, world, alias, estimate, maxTokens, old(purse.Now()))
  {
    hide Cost, Completion, Sent;
    var limit := maxTokens;
    if purse.remaining.Some? {
      limit := Fit(prices(alias), estimate, maxTokens, purse.remaining);
      if limit <= 0 {
        return Result(false, alias, false, 0.0);
      }
    }
    r := ModelText(prices, world, alias, estimate, limit, purse);
    if purse.remaining.Some? {
      var left := purse.remaining.value - r.cost;
      purse.remaining := Some(if left > 0.0 then left else 0.0);
    }
  }

  datatype Judged = Judged(ok: bool, usedFallback: bool, model: string, cost: real)

  /** The judge's chain: the primary, the fallback after a hard error, one retry after
      unparseable content, and the fallback once more. */
  function JudgeChain(prices: Prices, world: World, judgeModel: string, estimate: nat, retryEstimate: nat, maxTokens: int,
                      m0: Money): (Judged, Money) {
    var (r1, m1) := Guarded(prices, world, judgeModel, estimate, maxTokens, m0);
    var hard := !r1.ok && judgeModel != FALLBACK;
    var (r2, m2) := if hard then Guarded(prices, world, FALLBACK, estimate, maxTokens, m1) else (r1, m1);
    var cost2 := if hard then r1.cost + r2.cost else r1.cost;
    if !r2.ok then (Judged(false, false, r2.model, cost2), m2)
    else
      var (r3, m3) := if r2.json then (r2, m2) else Guarded(prices, world, judgeModel, retryEstimate, maxTokens, m2);
      var cost3 := if r2.json then cost2 else cost2 + r3.cost;
      if r3.json || judgeModel == FALLBACK then (Judged(r3.json, false, r3.model, cost3), m3)
      else
        var (r4, m4) := Guarded(prices, world, FALLBACK, estimate, maxTokens, m3);
        (Judged(r4.json, r4.json, r4.model, cost3 + r4.cost), m4)
  }

  function Cons(alias: string, estimate: nat, maxTokens: int, reqs: seq<Request>): seq<Request> {
    [Request(alias, estimate, maxTokens)] + reqs
  }

  /** The judge's calls are a chain of one to four requests, which depend on the answers. */
  ghost function JudgeRequests(prices: Prices, world: World, judgeModel: string, estimate: nat, retryEstimate: nat,
                               maxTokens: int, m0: Money): seq<Request> {
    var (r1, m1) := Guarded(prices, world, judgeModel, estimate, maxTokens, m0);
    var hard := !r1.ok && judgeModel != FALLBACK;
    var (r2, m2) := if hard then Guarded(prices, world, FALLBACK, estimate, maxTokens, m1) else (r1, m1);
    var (r3, m3) := Guarded(prices, world, judgeModel, retryEstimate, maxTokens, m2);
    var retry := r2.ok && !r2.json;
    Cons(judgeModel, estimate, maxTokens,
         (if hard then Cons(FALLBACK, estimate, maxTokens, []) else [])
         + (if retry then Cons(judgeModel, retryEstimate, maxTokens, []) else [])
         + (if retry && !r3.json && judgeModel != FALLBACK then Cons(FALLBACK, estimate, maxTokens, []) else []))
  }

  lemma {:induction false} ChainAppend(prices: Prices, world: World, a: seq<Request>, b: seq<Request>, m: Money)
    ensures var (spentA, mid) := Chain(prices, world, a, m); var (spentB, left) := Chain(prices, world, b, mid);
      Chain(prices, world, a + b, m) == (spentA + spentB, left)
    decreases |a|
  {
    hide Guarded;
    if a == [] {
      assert a + b == b;
    } else {
      assert (a + b)[0] == a[0] && (a + b)[1..] == a[1..] + b;
      ChainAppend(prices, world, a[1..], b, Guarded(prices, world, a[0].alias, a[0].estimate, a[0].maxTokens, m).1);
    }
  }

  lemma ChainOne(prices: Prices, world: World, alias: string, estimate: nat, maxTokens: int, m: Money)
    ensures var (r, next) := Guarded(prices, world, alias, estimate, maxTokens, m);
      Chain(prices, world, Cons(alias, estimate, maxTokens, []), m) == (r.cost, next)
    ensures Chain(prices, world, [], m) == (0.0, m)
  {
    hide Guarded;
    var one := Cons(alias, estimate, maxTokens, []);
    assert one[1..] == [];
    assert Chain(prices, world, one[1..], Guarded(prices, world, alias, estimate, maxTokens, m).1).0 == 0.0;
  }

  /** The judge spends what its requests spend as a chain. */
  lemma JudgeIsChain(prices: Prices, world: World, judgeModel: string, estimate: nat, retryEstimate: nat, maxTokens: int,
                     m0: Money)
    ensures var (judged, left) := JudgeChain(prices, world, judgeModel, estimate, retryEstimate, maxTokens, m0);
      Chain(prices, world, JudgeRequests(prices, world, judgeModel, estimate, retryEstimate, maxTokens, m0), m0)
      == (judged.cost, left)
    ensures 1 <= |JudgeRequests(prices, world, judgeModel, estimate, retryEstimate, maxTokens, m0)| <= 4
  {
    hide Guarded, Chain, Cons;
    var (r1, m1) := Guarded(prices, world, judgeModel, estimate, maxTokens, m0);
    var hard := !r1.ok && judgeModel != FALLBACK;
    var (r2, m2) := if hard then Guarded(prices, world, FALLBACK, estimate, maxTokens, m1) else (r1, m1);
    var (r3, m3) := Guarded(prices, world, judgeModel, retryEstimate, maxTokens, m2);
    var retry := r2.ok && !r2.json;
    var again := retry && !r3.json && judgeModel != FALLBACK;
    var a := Cons(judgeModel, estimate, maxTokens, []);
    var b := if hard then Cons(FALLBACK, estimate, maxTokens, []) else [];
    var c := if retry then Cons(judgeModel, retryEstimate, maxTokens, []) else [];
    var d := if again then Cons(FALLBACK, estimate, maxTokens, []) else [];
    ChainOne(prices, world, judgeModel, estimate, maxTokens, m0);
    ChainOne(prices, world, FALLBACK, estimate, maxTokens, m1);
    ChainOne(prices, world, judgeModel, retryEstimate, maxTokens, m2);
    var m4 := if retry then m3 else m2;
    ChainOne(prices, world, FALLBACK, estimate, maxTokens, m4);
    ChainAppend(prices, world, a, b + c + d, m0);
    ChainAppend(prices, world, b + c, d, m1);
    ChainAppend(prices, world, b, c, m1);
    ConsSplit(judgeModel, estimate, maxTokens, b + c + d);
    ConsSplit(FALLBACK, estimate, maxTokens, []);
    ConsSplit(judgeModel, retryEstimate, maxTokens, []);
  }

  lemma ConsSplit(alias: string, estimate: nat, maxTokens: int, reqs: seq<Request>)
    ensures Cons(alias, estimate, maxTokens, reqs) == Cons(alias, estimate, maxTokens, []) + reqs
    ensures |Cons(alias, estimate, maxTokens, reqs)| == 1 + |reqs|
  {
  }

  /** However the calls turn out, the judge reports what it spends, and spends no more than
      the budget held at the start. */
  lemma JudgeIsFunded(prices: Prices, world: World, judgeModel: string, estimate: nat, retryEstimate: nat, maxTokens: int,
                      start: real, n: nat)
    requires Fair(prices) && Honest(world)
    ensures var (judged, left) := JudgeChain(prices, world, judgeModel, estimate, retryEstimate, maxTokens,
                                             Money(Some(start), n));
      && left.remaining.Some?
      && (start > 0.0 ==> 0.0 <= left.remaining.value == start - judged.cost <= start)
      && (start <= 0.0 ==> judged.cost == 0.0)
  {
    hide JudgeChain, JudgeRequests, Chain, Fair, Honest;
    var m0 := Money(Some(start), n);
    JudgeIsChain(prices, world, judgeModel, estimate, retryEstimate, maxTokens, m0);
    ChainIsFunded(prices, world, JudgeRequests(prices, world, judgeModel, estimate, retryEstimate, maxTokens, m0), m0);
  }

  method Judge(prices: Prices, world: World, judgeModel: string, estimate: nat, retryEstimate: nat, maxTokens: int,
               purse: Purse)
    returns (judged: Judged)
    modifies purse
    ensures (judged, purse.Now()) ==
            JudgeChain(prices, world, judgeModel, estimate, retryEstimate, maxTokens, old(purse.Now()))
  {
    hide Guarded;
    var r := GuardedModelText(prices, world, judgeModel, estimate, maxTokens, purse);
    var cost := r.cost;
    if !r.ok && judgeModel != FALLBACK {
      r := GuardedModelText(prices, world, FALLBACK, estimate, maxTokens, purse);
      cost := cost + r.cost;
    }
    if !r.ok {
      return Judged(false, false, r.model, cost);
    }
    if !r.json {
      r := GuardedModelText(prices, world, judgeModel, retryEstimate, maxTokens, purse);
      cost := cost + r.cost;
    }
    var usedFallback := false;
    if !r.json && judgeModel != FALLBACK {
      r := GuardedModelText(prices, world, FALLBACK, estimate, maxTokens, purse);
      cost := cost + r.cost;
      usedFallback := r.json;
    }
    return Judged(r.json, usedFallback, r.model, cost);
  }

  // ---- the suite ----

  /** What running one case gives: a result, a skipped row of its own (a capability gate, or
      a fixture that cannot be built), a crash, or the news that the backend is down. */
  datatype Outcome = Row(cost: real, invalid: bool, retriable: bool) | Gated | Crashed | Down

  datatype Entry = Ran(id: string, cost: real, invalid: bool, retriable: bool) | Skipped(id: string)

  function EntryOf(id: string, o: Outcome): Entry {
    match o
    case Row(cost, invalid, retriable) => Ran(id, cost, invalid, retriable)
    case Crashed => Ran(id, 0.0, false, false)
    case _ => Skipped(id)
  }

  function EntryCost(e: Entry): real { if e.Ran? then e.cost else 0.0 }

  function RowsCost(rows: seq<Entry>): real {
    if rows == [] then 0.0 else RowsCost(rows[..|rows| - 1]) + EntryCost(rows[|rows| - 1])
  }

  lemma RowsCostSnoc(rows: seq<Entry>, e: Entry)
    ensures RowsCost([]) == 0.0
    ensures RowsCost(rows + [e]) == RowsCost(rows) + EntryCost(e)
    ensures EntryCost(e) == if e.Ran? then e.cost else 0.0
  {
    assert (rows + [e])[..|rows|] == rows;
  }

  function OutcomeCost(o: Outcome): real { if o.Row? then o.cost else 0.0 }

  /** What the retries that were kept cost. */
  function KeptCost(retries: seq<Outcome>, kept: seq<bool>): real
    requires |kept| <= |retries|
  {
    if kept == [] then 0.0 else
      var n := |kept| - 1;
      KeptCost(retries, kept[..n]) + if kept[n] then OutcomeCost(retries[n]) else 0.0
  }

  lemma KeptCostSnoc(retries: seq<Outcome>, kept: seq<bool>, k: bool)
    requires |kept| < |retries|
    ensures KeptCost(retries, []) == 0.0
    ensures KeptCost(retries, kept + [k]) == KeptCost(retries, kept) + if k then OutcomeCost(retries[|kept|]) else 0.0
    ensures OutcomeCost(retries[|kept|]) == if retries[|kept|].Row? then retries[|kept|].cost else 0.0
  {
    assert (kept + [k])[..|kept|] == kept;
  }

  predicate NonNegative(o: Outcome) { o.Row? ==> o.cost >= 0.0 }

  /** A row that a fallback made invalid and that may be run again. */
  predicate Wants(e: Entry) { e.Ran? && e.invalid && e.retriable }

  /** A run that came back with a row, as opposed to raising. */
  predicate Returned(o: Outcome) { o.Row? || o.Gated? }

  /** A suite: its cases in order, what running and what re-running each would give, when a
      stop is asked for, and the health of the fallback sources before and after. */
  datatype Suite = Suite(ids: seq<string>, outcomes: seq<Outcome>, stops: seq<bool>, retries: seq<Outcome>,
                         unhealthy: bool, degraded: bool, cap: real)
  {
    ghost predicate Ok() {
      && |outcomes| == |stops| == |retries| == |ids|
      && (forall i :: 0 <= i < |ids| ==> NonNegative(outcomes[i]) && NonNegative(retries[i]))
    }

    /** At case `k`, with these rows before it, the suite is cancelled. */
    ghost predicate Stopped(rows: seq<Entry>, k: nat)
      requires Ok() && k < |ids| && k <= |rows|
    {
      stops[k] || (outcomes[k].Down? && RowsCost(rows[..k]) < cap)
    }

    /** Case `i` is run: nothing has stopped the suite and the cap is not reached. */
    ghost predicate Goes(rows: seq<Entry>, i: nat)
      requires Ok() && i < |ids| && i <= |rows|
    {
      && !unhealthy && !stops[i] && (forall k :: 0 <= k < i ==> !Stopped(rows, k))
      && RowsCost(rows[..i]) < cap
    }

    /** `rows` are the rows of the first cases, before any retry. */
    ghost predicate Played(rows: seq<Entry>)
      requires Ok()
    {
      && |rows| <= |ids|
      && forall i :: 0 <= i < |rows| ==> rows[i] == if Goes(rows, i) then EntryOf(ids[i], outcomes[i]) else Skipped(ids[i])
    }

    ghost predicate CancelledBy(rows: seq<Entry>)
      requires Ok() && |rows| <= |ids|
    {
      !unhealthy && exists k :: 0 <= k < |rows| && Stopped(rows, k)
    }
  }

  /** Which rows a retry replaces: those that want one, whose retry came back with a row, as
      long as the cap is not reached by what was spent and retried before. */
  ghost predicate Kept(rows: seq<Entry>, retries: seq<Outcome>, degraded: bool, cap: real, spent: real, kept: seq<bool>) {
    && |kept| <= |rows| == |retries|
    && forall i :: 0 <= i < |kept| ==>
         (kept[i] <==> !degraded && Wants(rows[i]) && Returned(retries[i]) && spent + KeptCost(retries, kept[..i]) < cap)
  }

  /** The rows after the retries. */
  ghost predicate Replaced(rows: seq<Entry>, retries: seq<Outcome>, kept: seq<bool>, newRows: seq<Entry>) {
    && |newRows| == |rows| == |retries| && |kept| <= |rows|
    && forall i :: 0 <= i < |rows| ==>
         newRows[i] == if i < |kept| && kept[i] then EntryOf(rows[i].id, retries[i]) else rows[i]
  }

  lemma KeptSnoc(rows: seq<Entry>, retries: seq<Outcome>, degraded: bool, cap: real, spent: real, kept: seq<bool>, k: bool)
    requires Kept(rows, retries, degraded, cap, spent, kept) && |kept| < |rows|
    requires k <==>
      !degraded && Wants(rows[|kept|]) && Returned(retries[|kept|]) && spent + KeptCost(retries, kept) < cap
    ensures Kept(rows, retries, degraded, cap, spent, kept + [k])
  {
    hide KeptCost, Wants, Returned;
    var next := kept + [k];
    forall i | 0 <= i < |next| ensures next[..i] == if i < |kept| then kept[..i] else kept {
    }
  }

  /** One retry for each row that a fallback made invalid, as long as the cap is not reached. */
  method RetryInvalidOnce(rows: seq<Entry>, retries: seq<Outcome>, degraded: bool, cap: real, spent: real)
    returns (newRows: seq<Entry>, extra: real, kept: seq<bool>)
    requires |retries| == |rows|
    ensures |kept| == |rows| && Kept(rows, retries, degraded, cap, spent, kept)
    ensures Replaced(rows, retries, kept, newRows)
    ensures extra == KeptCost(retries, kept)
  {
    hide KeptCost, Kept, EntryOf;
    newRows, extra, kept := rows, 0.0, [];
    NothingKept(rows, retries, degraded, cap, spent);
    for i := 0 to |rows|
      invariant |kept| == i && Kept(rows, retries, degraded, cap, spent, kept)
      invariant Replaced(rows, retries, kept, newRows)
      invariant extra == KeptCost(retries, kept)
    {
      var again := !degraded && Wants(rows[i]) && spent + extra < cap;
      var keep := again && Returned(retries[i]);
      if keep {
        newRows := newRows[i := EntryOf(rows[i].id, retries[i])];
        extra := extra + OutcomeCost(retries[i]);
      }
      KeptCostSnoc(retries, kept, keep);
      KeptSnoc(rows, retries, degraded, cap, spent, kept, keep);
      kept := kept + [keep];
    }
  }

  lemma NothingKept(rows: seq<Entry>, retries: seq<Outcome>, degraded: bool, cap: real, spent: real)
    requires |retries| == |rows|
    ensures Kept(rows, retries, degraded, cap, spent, []) && KeptCost(retries, []) == 0.0
  {
  }

  lemma PrefixOfSnoc(rows: seq<Entry>, e: Entry, k: nat)
    requires k <= |rows|
    ensures (rows + [e])[..k] == rows[..k]
  {
  }

  /** Appending a row changes nothing that was decided before it. */
  lemma GoesBefore(suite: Suite, rows: seq<Entry>, e: Entry, i: nat)
    requires suite.Ok() && i < |suite.ids| && i <= |rows|
    ensures suite.Stopped(rows + [e], i) == suite.Stopped(rows, i)
    ensures suite.Goes(rows + [e], i) == suite.Goes(rows, i)
  {
    hide RowsCost;
    PrefixOfSnoc(rows, e, i);
    forall k | 0 <= k < i ensures suite.Stopped(rows + [e], k) == suite.Stopped(rows, k) {
      PrefixOfSnoc(rows, e, k);
    }
  }

  lemma PlayedSnoc(suite: Suite, rows: seq<Entry>)
    requires suite.Ok() && suite.Played(rows) && |rows| < |suite.ids|
    ensures var i := |rows|;
      var e := if suite.Goes(rows, i) then EntryOf(suite.ids[i], suite.outcomes[i]) else Skipped(suite.ids[i]);
      && suite.Played(rows + [e])
      && (suite.CancelledBy(rows + [e]) <==> suite.CancelledBy(rows) || (!suite.unhealthy && suite.Stopped(rows, i)))
  {
    hide Suite.Goes, Suite.Stopped, EntryOf;
    var i := |rows|;
    var e := if suite.Goes(rows, i) then EntryOf(suite.ids[i], suite.outcomes[i]) else Skipped(suite.ids[i]);
    var next := rows + [e];
    forall k | 0 <= k < |next|
      ensures suite.Stopped(next, k) == suite.Stopped(rows, k) && suite.Goes(next, k) == suite.Goes(rows, k)
    {
      GoesBefore(suite, rows, e, k);
    }
    if suite.CancelledBy(rows) {
      var k :| 0 <= k < |rows| && suite.Stopped(rows, k);
      assert suite.Stopped(next, k);
    }
    if !suite.unhealthy && suite.Stopped(rows, i) {
      assert suite.Stopped(next, i);
    }
  }

  /** The case loop and the retries after it. `first` are the rows before the retries. */
  method RunSuite(suite: Suite)
    returns (rows: seq<Entry>, spent: real, cancelled: bool, kept: seq<bool>, ghost first: seq<Entry>)
    requires suite.Ok()
    ensures |first| == |suite.ids| && suite.Played(first)
    ensures cancelled <==> suite.CancelledBy(first)
    ensures |kept| == |suite.ids| && Replaced(first, suite.retries, kept, rows)
    ensures Kept(first, suite.retries, suite.degraded || suite.unhealthy || cancelled, suite.cap, RowsCost(first), kept)
    ensures spent == RowsCost(first) + KeptCost(suite.retries, kept)
  {
    hide RowsCost, KeptCost, Suite.Played, Suite.CancelledBy, EntryOf, Kept;
    rows, spent, cancelled := [], 0.0, false;
    RowsCostSnoc([], Skipped(""));
    NothingPlayed(suite);
    for i := 0 to |suite.ids|
      invariant |rows| == i && suite.Played(rows) && spent == RowsCost(rows)
      invariant cancelled <==> suite.CancelledBy(rows)
    {
      GoesWhen(suite, rows, cancelled);
      PlayedSnoc(suite, rows);
      var entry := Skipped(suite.ids[i]);
      if !suite.unhealthy {
        if cancelled || suite.stops[i] {
          cancelled := true;
        } else if spent < suite.cap {
          entry := EntryOf(suite.ids[i], suite.outcomes[i]);
          if suite.outcomes[i].Down? { cancelled := true; }
        }
      }
      RowsCostSnoc(rows, entry);
      spent := spent + EntryCost(entry);
      rows := rows + [entry];
    }
    first := rows;
    var extra;
    rows, extra, kept :=
      RetryInvalidOnce(rows, suite.retries, suite.degraded || suite.unhealthy || cancelled, suite.cap, spent);
    spent := spent + extra;
  }

  lemma NothingPlayed(suite: Suite)
    requires suite.Ok()
    ensures suite.Played([]) && !suite.CancelledBy([])
  {
  }

  /** What the loop looks at decides whether the next case is run. */
  lemma GoesWhen(suite: Suite, rows: seq<Entry>, cancelled: bool)
    requires suite.Ok() && |rows| < |suite.ids| && (cancelled <==> suite.CancelledBy(rows))
    ensures var i := |rows|;
      && (suite.Goes(rows, i) <==> !suite.unhealthy && !cancelled && !suite.stops[i] && RowsCost(rows) < suite.cap)
      && (suite.Stopped(rows, i) <==> suite.stops[i] || (suite.outcomes[i].Down? && RowsCost(rows) < suite.cap))
  {
    hide RowsCost;
    assert rows[..|rows|] == rows;
  }

  // ---- what a suite may spend ----

  /** Without the cost of one case or retry that was run, what was spent is below the cap. */
  ghost predicate OverByOne(suite: Suite, first: seq<Entry>, kept: seq<bool>, spent: real)
    requires suite.Ok() && |first| <= |suite.ids| && |kept| <= |suite.ids|
  {
    || spent == 0.0
    || (exists i :: 0 <= i < |first| && first[i].Ran? && first[i] == EntryOf(suite.ids[i], suite.outcomes[i])
                    && spent - OutcomeCost(suite.outcomes[i]) < suite.cap)
    || (exists i :: 0 <= i < |kept| && kept[i] && spent - OutcomeCost(suite.retries[i]) < suite.cap)
  }

  lemma {:induction false} FirstOverByOne(suite: Suite, first: seq<Entry>, n: nat)
    requires suite.Ok() && suite.Played(first) && n <= |first|
    ensures RowsCost(first[..n]) >= 0.0 && OverByOne(suite, first, [], RowsCost(first[..n]))
  {
    hide RowsCost, Suite.Played, EntryOf, EntryCost;
    if n > 0 {
      FirstOverByOne(suite, first, n - 1);
      assert first[..n] == first[..n - 1] + [first[n - 1]];
      RowsCostSnoc(first[..n - 1], first[n - 1]);
      RowIsCharged(suite, first, n - 1);
    } else {
      assert first[..0] == [];
      RowsCostSnoc([], Skipped(""));
    }
  }

  /** A row that costs anything is a case that was run below the cap. */
  lemma RowIsCharged(suite: Suite, first: seq<Entry>, i: nat)
    requires suite.Ok() && suite.Played(first) && i < |first|
    ensures EntryCost(first[i]) >= 0.0
    ensures EntryCost(first[i]) > 0.0 ==>
      && first[i].Ran? && first[i] == EntryOf(suite.ids[i], suite.outcomes[i])
      && EntryCost(first[i]) == OutcomeCost(suite.outcomes[i]) && RowsCost(first[..i]) < suite.cap
  {
    hide RowsCost;
    assert NonNegative(suite.outcomes[i]);
  }

  lemma {:induction false} KeptOverByOne(suite: Suite, first: seq<Entry>, degraded: bool, kept: seq<bool>, n: nat)
    requires suite.Ok() && suite.Played(first) && |first| == |suite.ids| && n <= |kept|
    requires Kept(first, suite.retries, degraded, suite.cap, RowsCost(first), kept)
    ensures KeptCost(suite.retries, kept[..n]) >= 0.0
    ensures OverByOne(suite, first, kept, RowsCost(first) + KeptCost(suite.retries, kept[..n]))
  {
    hide RowsCost, KeptCost, Suite.Played, EntryOf, Wants, Returned;
    if n > 0 {
      KeptOverByOne(suite, first, degraded, kept, n - 1);
      assert kept[..n] == kept[..n - 1] + [kept[n - 1]];
      KeptCostSnoc(suite.retries, kept[..n - 1], kept[n - 1]);
      assert NonNegative(suite.retries[n - 1]);
    } else {
      assert first[..|first|] == first && kept[..0] == [];
      FirstOverByOne(suite, first, |first|);
      NothingKept(first, suite.retries, degraded, suite.cap, RowsCost(first));
    }
  }

  /** Whatever the cases cost, a suite's recorded spend passes its cap by less than one case
      that was run; so by less than any amount that no case exceeds. */
  lemma SuiteWithinOne(suite: Suite, first: seq<Entry>, degraded: bool, kept: seq<bool>, most: real)
    requires suite.Ok() && suite.Played(first) && |first| == |suite.ids| == |kept|
    requires Kept(first, suite.retries, degraded, suite.cap, RowsCost(first), kept)
    requires forall i :: 0 <= i < |suite.ids| ==>
      OutcomeCost(suite.outcomes[i]) <= most && OutcomeCost(suite.retries[i]) <= most
    ensures var spent := RowsCost(first) + KeptCost(suite.retries, kept);
      OverByOne(suite, first, kept, spent) && (spent == 0.0 || 0.0 < spent < suite.cap + most)
  {
    hide RowsCost, KeptCost, Suite.Played, Kept, EntryOf;
    assert kept[..|kept|] == kept && first[..|first|] == first;
    KeptOverByOne(suite, first, degraded, kept, |kept|);
    FirstOverByOne(suite, first, |first|);
  }

  /** What the first pass makes of a case: a row with its own cost and flags when it was run
      and came back, a free one when it crashed, and a skipped one otherwise. */
  lemma RowByOutcome(suite: Suite, first: seq<Entry>, i: nat)
    requires suite.Ok() && suite.Played(first) && i < |first|
    ensures var o := suite.outcomes[i];
      first[i] == if !suite.Goes(first, i) || o.Gated? || o.Down? then Skipped(suite.ids[i])
                  else if o.Crashed? then Ran(suite.ids[i], 0.0, false, false)
                  else Ran(suite.ids[i], o.cost, o.invalid, o.retriable)
  {
    hide Suite.Goes;
  }

  /** Which cases are run again and keep what comes of it, told by the outcomes: those that
      were run, came back invalid and may be repeated, and whose retry came back, while what
      was spent so far is below the cap and no fallback source was unhealthy. */
  lemma KeptByOutcomes(suite: Suite, first: seq<Entry>, degraded: bool, kept: seq<bool>, i: nat)
    requires suite.Ok() && suite.Played(first) && |first| == |suite.ids| == |kept| && i < |first|
    requires Kept(first, suite.retries, degraded, suite.cap, RowsCost(first), kept)
    ensures kept[i] <==>
      && !degraded && suite.Goes(first, i) && suite.outcomes[i].Row? && suite.outcomes[i].invalid && suite.outcomes[i].retriable
      && (suite.retries[i].Row? || suite.retries[i].Gated?)
      && RowsCost(first) + KeptCost(suite.retries, kept[..i]) < suite.cap
  {
    hide Suite.Goes, RowsCost, KeptCost, Suite.Played, EntryOf;
    RowByOutcome(suite, first, i);
  }

  /** Why a row of a suite that was not cancelled is a skipped one: the case, or its retry,
      was skipped by a gate of its own, or the cap had been reached. */
  lemma SkippedForCause(suite: Suite, first: seq<Entry>, kept: seq<bool>, rows: seq<Entry>, i: nat)
    requires suite.Ok() && suite.Played(first) && |first| == |suite.ids| == |kept| && i < |first|
    requires !suite.unhealthy && !suite.CancelledBy(first) && Replaced(first, suite.retries, kept, rows)
    requires Kept(first, suite.retries, suite.degraded, suite.cap, RowsCost(first), kept)
    ensures rows[i].Skipped? ==>
      || suite.outcomes[i].Gated? || (kept[i] && suite.retries[i].Gated?)
      || RowsCost(first[..i]) >= suite.cap
  {
    hide RowsCost, KeptCost;
    assert !suite.Stopped(first, i);
    assert forall k :: 0 <= k < i ==> !suite.Stopped(first, k);
  }

  /** Once a stop was asked for no case is run, and none is retried. */
  lemma NothingAfterStop(suite: Suite, first: seq<Entry>, kept: seq<bool>, rows: seq<Entry>, i: nat, j: nat)
    requires suite.Ok() && suite.Played(first) && |first| == |suite.ids| == |kept| && i <= j < |first|
    requires suite.stops[i] && Replaced(first, suite.retries, kept, rows)
    requires Kept(first, suite.retries, suite.degraded || suite.unhealthy || suite.CancelledBy(first), suite.cap,
                  RowsCost(first), kept)
    ensures rows[j] == Skipped(suite.ids[j])
    ensures !suite.unhealthy ==> suite.CancelledBy(first) && forall k :: 0 <= k < |kept| ==> !kept[k]
  {
    hide RowsCost, KeptCost, EntryOf;
    assert suite.Stopped(first, i);
  }
}

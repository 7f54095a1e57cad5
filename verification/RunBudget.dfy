/** The ceilings of one run: iterations, wall clock with liveness extensions, cost, tokens. */
module RunBudget {
  import opened Text

  datatype Reason = MaxIterations | MaxWallClock | MaxCost | MaxTokens

  /** The order in which the dimensions are listed and checked. */
  function Rank(r: Reason): nat {
    match r
    case MaxIterations => 0
    case MaxWallClock => 1
    case MaxCost => 2
    case MaxTokens => 3
  }

  /** Prices per million tokens of one model. */
  datatype Rates = Rates(input: real, output: real)

  /** Python's `int(x)`: truncation towards zero. */
  function Trunc(x: real): int {
    if x >= 0.0 then x.Floor else -((-x).Floor)
  }

  lemma TruncIs(x: real)
    ensures Trunc(-x) == -Trunc(x)
    ensures x >= 0.0 ==> x - 1.0 < Trunc(x) as real <= x
  {
  }

  function MaxNat(a: int, b: int): nat
    requires b >= 0
  {
    if a < b then b else a
  }

  /** How much of a ceiling is used; 0 means there is no ceiling. */
  function Fraction(used: real, limit: real): real {
    if limit == 0.0 then 0.0 else used / limit
  }

  /** A ceiling that is set is exceeded. */
  predicate Over(used: real, limit: real) { limit != 0.0 && used > limit }

  lemma FractionIs(used: real, limit: real)
    requires limit != 0.0
    ensures Fraction(used, limit) * limit == used && Fraction(used, 0.0) == 0.0
  {
  }

  /** For a ceiling that is not negative, exceeding it is using more than all of it; a
      negative one is always exceeded, and its fraction is never positive. */
  lemma FractionOver(used: real, limit: real)
    requires used >= 0.0
    ensures limit >= 0.0 ==> (Fraction(used, limit) > 1.0 <==> Over(used, limit))
    ensures limit < 0.0 ==> Fraction(used, limit) <= 0.0 && Over(used, limit)
  {
    if limit < 0.0 {
      var q := used / limit;
      assert q * limit == used;
      if q > 0.0 {
        assert q * (-limit) > 0.0;
      }
    } else if limit > 0.0 {
      var q := used / limit;
      assert q * limit == used;
      if q > 1.0 {
        assert (q - 1.0) * limit > 0.0;
      } else {
        assert (1.0 - q) * limit >= 0.0;
      }
    }
  }

  /** Tokens charged for some counts: uncached prompt and completion in full, cached prompt
      at a weight. */
  function Tokens(prompt: nat, completion: nat, cached: nat, weight: real): int {
    Trunc(MaxNat(prompt - cached, 0) as real + cached as real * weight + completion as real)
  }

  /** A cached prompt token counts for its weight, every other token in full; the sum is
      rounded down once. */
  lemma TokensAre(prompt: nat, completion: nat, cached: nat, weight: real)
    requires weight >= 0.0
    ensures var uncached := if cached <= prompt then prompt - cached else 0;
      Tokens(prompt, completion, cached, weight) == uncached + completion + (cached as real * weight).Floor
  {
    var part := cached as real * weight;
    assert part >= 0.0;
    var whole := MaxNat(prompt - cached, 0) + completion;
    assert (whole as real + part).Floor == whole + part.Floor;
  }

  /** The price of one report. */
  function Price(prompt: nat, completion: nat, cached: nat, rates: Option<Rates>): real {
    if rates.None? then 0.0 else
      (MaxNat(prompt - cached, 0) as real + cached as real * 0.1) * rates.value.input / 1000000.0
      + completion as real * rates.value.output / 1000000.0
  }

  /** Prices are per million tokens, and a cached prompt token costs a tenth. */
  lemma PriceIs(prompt: nat, completion: nat, cached: nat, rates: Rates)
    requires cached <= prompt
    ensures 1000000.0 * Price(prompt, completion, cached, Some(rates)) ==
      (prompt - cached) as real * rates.input + cached as real * (rates.input / 10.0) + completion as real * rates.output
    ensures Price(prompt, completion, cached, None) == 0.0
  {
    var a, c, o := (prompt - cached) as real, cached as real, completion as real * rates.output;
    assert MaxNat(prompt - cached, 0) as real == a;
    assert (a + c * 0.1) * rates.input == a * rates.input + c * 0.1 * rates.input;
    assert c * 0.1 * rates.input == c * (rates.input / 10.0);
  }

  predicate FairRates(rates: Option<Rates>) {
    rates.Some? ==> rates.value.input >= 0.0 && rates.value.output >= 0.0
  }

  lemma PriceNotNegative(prompt: nat, completion: nat, cached: nat, rates: Option<Rates>)
    requires FairRates(rates)
    ensures Price(prompt, completion, cached, rates) >= 0.0
  {
    if rates.Some? {
      assert (MaxNat(prompt - cached, 0) as real + cached as real * 0.1) * rates.value.input >= 0.0;
      assert completion as real * rates.value.output >= 0.0;
    }
  }

  lemma TruncMonotone(x: real, y: real)
    requires x <= y
    ensures Trunc(x) <= Trunc(y)
  {
  }

  /** A further report never lowers the tokens charged, as long as no more of its prompt was
      cached than was sent. */
  lemma TokensGrow(p: nat, n: nat, c: nat, prompt: nat, completion: nat, cached: nat, weight: real)
    requires cached <= prompt && weight >= 0.0
    ensures Tokens(p, n, c, weight) <= Tokens(p + prompt, n + completion, c + cached, weight)
  {
    var before, more := c as real * weight, cached as real * weight;
    assert more >= 0.0;
    assert (c + cached) as real * weight == before + more;
    TruncMonotone(MaxNat(p - c, 0) as real + before + n as real,
                  MaxNat(p + prompt - (c + cached), 0) as real + (before + more) + (n + completion) as real);
  }

  lemma FractionGrows(used: real, more: real, limit: real)
    requires used <= more && limit >= 0.0
    ensures Fraction(used, limit) <= Fraction(more, limit)
  {
    if limit > 0.0 {
      var q, r := used / limit, more / limit;
      assert q * limit == used && r * limit == more;
      if q > r {
        assert (q - r) * limit > 0.0;
      }
    }
  }

  datatype Event = Tick(elapsed: real) | Usage(prompt: nat, completion: nat, cached: nat, rates: Option<Rates>)

  class Budget {
    const maxIterations: int
    const maxCost: real
    const maxTokens: int
    const cachedWeight: real
    const grace: real
    const maxExtensions: int
    /** The wall clock the run was given at the start. */
    ghost const baseClock: real

    var maxWallClock: real
    var iterations: nat
    var cost: real
    var prompt: nat
    var completion: nat
    var cached: nat
    var extensions: nat

    /** The deadline is the base plus one grace period per extension, and extensions are
        limited and only given for a positive grace. */
    ghost predicate Valid()
      reads this
    {
      && maxWallClock == baseClock + extensions as real * grace
      && (extensions > 0 ==> extensions <= maxExtensions && grace > 0.0)
    }

    constructor (maxIterations: int, maxWallClock: real, maxCost: real, maxTokens: int, cachedWeight: real, grace: real,
                 maxExtensions: int)
      ensures Valid() && this.maxWallClock == baseClock == maxWallClock && iterations == extensions == 0 && cost == 0.0
      ensures this.maxIterations == maxIterations && this.maxCost == maxCost && this.maxTokens == maxTokens
      ensures this.grace == grace && this.maxExtensions == maxExtensions && this.cachedWeight == cachedWeight
      ensures prompt == completion == cached == 0
    {
      this.maxIterations, this.maxCost, this.maxTokens := maxIterations, maxCost, maxTokens;
      this.cachedWeight, this.grace, this.maxExtensions := cachedWeight, grace, maxExtensions;
      this.maxWallClock, baseClock := maxWallClock, maxWallClock;
      iterations, cost, prompt, completion, cached, extensions := 0, 0.0, 0, 0, 0, 0;
    }

    function TotalTokens(): int
      reads this`prompt, this`completion, this`cached
    {
      Tokens(prompt, completion, cached, cachedWeight)
    }

    function IterationUse(): real
      reads this`iterations
    {
      Fraction(iterations as real, maxIterations as real)
    }

    function TimeUse(elapsed: real): real
      reads this`maxWallClock
    {
      Fraction(elapsed, maxWallClock)
    }

    function CostUse(): real
      reads this`cost
    {
      Fraction(cost, maxCost)
    }

    function TokenUse(): real
      reads this`prompt, this`completion, this`cached
    {
      Fraction(TotalTokens() as real, maxTokens as real)
    }

    function Use(dimension: Reason, elapsed: real): real
      reads this
    {
      match dimension
      case MaxIterations => IterationUse()
      case MaxWallClock => TimeUse(elapsed)
      case MaxCost => CostUse()
      case MaxTokens => TokenUse()
    }

    /** The highest fraction of any ceiling, and the first dimension that reaches it. */
    function Pressure(elapsed: real): (r: (real, Reason))
      reads this
      ensures r.0 == Use(r.1, elapsed)
      ensures forall d: Reason :: Use(d, elapsed) <= r.0 && (Rank(d) < Rank(r.1) ==> Use(d, elapsed) < r.0)
    {
      var a := (IterationUse(), MaxIterations);
      var b := if TimeUse(elapsed) > a.0 then (TimeUse(elapsed), MaxWallClock) else a;
      var c := if CostUse() > b.0 then (CostUse(), MaxCost) else b;
      if TokenUse() > c.0 then (TokenUse(), MaxTokens) else c
    }

    /** The clock has run out and an extension is left. */
    predicate Extends(elapsed: real)
      reads this`maxWallClock, this`extensions
    {
      maxWallClock != 0.0 && elapsed > maxWallClock && grace > 0.0 && extensions < maxExtensions
    }

    /** The ceiling that stops the run at `elapsed`, in the order they are checked. */
    ghost function Hit(elapsed: real): Option<Reason>
      reads this
    {
      if maxIterations != 0 && iterations > maxIterations then Some(MaxIterations)
      else if maxWallClock != 0.0 && elapsed > maxWallClock && !Extends(elapsed) then Some(MaxWallClock)
      else if maxCost != 0.0 && cost > maxCost then Some(MaxCost)
      else if maxTokens != 0 && TotalTokens() > maxTokens then Some(MaxTokens)
      else None
    }

    /** Raises (returns a reason) when a ceiling is hit. A spent clock first uses up an
        extension if there is one, even when a later ceiling then stops the run. */
    method Check(elapsed: real) returns (stop: Option<Reason>)
      requires Valid()
      modifies this`maxWallClock, this`extensions
      ensures Valid()
      ensures stop == old(Hit(elapsed))
      ensures var extended := old(Extends(elapsed)) && stop != Some(MaxIterations);
        && extensions == old(extensions) + (if extended then 1 else 0)
        && maxWallClock == old(maxWallClock) + (if extended then grace else 0.0)
    {
      if maxIterations != 0 && iterations > maxIterations {
        return Some(MaxIterations);
      }
      if maxWallClock != 0.0 && elapsed > maxWallClock {
        if grace > 0.0 && extensions < maxExtensions {
          extensions := extensions + 1;
          maxWallClock := maxWallClock + grace;
        } else {
          return Some(MaxWallClock);
        }
      }
      if maxCost != 0.0 && cost > maxCost {
        return Some(MaxCost);
      }
      if maxTokens != 0 && TotalTokens() > maxTokens {
        return Some(MaxTokens);
      }
      return None;
    }

    /** The ceiling of this dimension is set and exceeded. */
    ghost predicate Exceeded(dimension: Reason, elapsed: real)
      reads this
    {
      match dimension
      case MaxIterations => maxIterations != 0 && iterations > maxIterations
      case MaxWallClock => maxWallClock != 0.0 && elapsed > maxWallClock
      case MaxCost => maxCost != 0.0 && cost > maxCost
      case MaxTokens => maxTokens != 0 && TotalTokens() > maxTokens
    }

    method DoTick(elapsed: real) returns (stop: Option<Reason>)
      requires Valid()
      modifies this`iterations, this`maxWallClock, this`extensions
      ensures Valid() && iterations == old(iterations) + 1
      ensures extensions >= old(extensions) && maxWallClock == old(maxWallClock) + (extensions - old(extensions)) as real * grace
      ensures extensions == old(extensions) + (if old(Extends(elapsed)) && stop != Some(MaxIterations) then 1 else 0)
      ensures stop == None ==> maxIterations == 0 || iterations <= maxIterations
      ensures stop == None && old(maxWallClock) != 0.0 && elapsed > old(maxWallClock) ==> extensions == old(extensions) + 1
      ensures stop == None ==> (maxCost == 0.0 || cost <= maxCost) && (maxTokens == 0 || TotalTokens() <= maxTokens)
      ensures stop.Some? ==> Exceeded(stop.value, elapsed)
    {
      hide Tokens;
      iterations := iterations + 1;
      stop := Check(elapsed);
    }

    /** Adds the price of one report to the cost. */
    method Charge(prompt: nat, completion: nat, cached: nat, rates: Option<Rates>)
      modifies this`cost
      ensures cost == old(cost) + Price(prompt, completion, cached, rates)
    {
      if rates.Some? {
        var billable := MaxNat(prompt - cached, 0) as real + cached as real * 0.1;
        cost := cost + billable * rates.value.input / 1000000.0;
        cost := cost + completion as real * rates.value.output / 1000000.0;
      }
    }

    method AddUsage(prompt: nat, completion: nat, cached: nat, rates: Option<Rates>)
      requires Valid()
      modifies this`prompt, this`completion, this`cached, this`cost
      ensures Valid()
      ensures this.prompt == old(this.prompt) + prompt && this.completion == old(this.completion) + completion
      ensures this.cached == old(this.cached) + cached
      ensures cost == old(cost) + Price(prompt, completion, cached, rates)
      ensures FairRates(rates) ==> cost >= old(cost)
      ensures cached <= prompt && cachedWeight >= 0.0 ==> TotalTokens() >= old(TotalTokens())
      ensures FairRates(rates) && cached <= prompt && cachedWeight >= 0.0 && maxCost >= 0.0 && maxTokens >= 0 ==>
        forall elapsed: real :: Pressure(elapsed).0 >= old(Pressure(elapsed).0)
    {
      hide Tokens, Fraction, Pressure, Trunc, Price;
      ghost var oldCost, oldTokens := cost, TotalTokens();
      if FairRates(rates) {
        PriceNotNegative(prompt, completion, cached, rates);
      }
      if cached <= prompt && cachedWeight >= 0.0 {
        TokensGrow(this.prompt, this.completion, this.cached, prompt, completion, cached, cachedWeight);
      }
      this.prompt := this.prompt + prompt;
      this.completion := this.completion + completion;
      this.cached := this.cached + cached;
      Charge(prompt, completion, cached, rates);
      if cost >= oldCost && TotalTokens() >= oldTokens && maxCost >= 0.0 && maxTokens >= 0 {
        FractionGrows(oldCost, cost, maxCost);
        FractionGrows(oldTokens as real, TotalTokens() as real, maxTokens as real);
        forall elapsed: real ensures Pressure(elapsed).0 >= old(Pressure(elapsed).0) {
          PressureCovers(elapsed, old(Pressure(elapsed)));
        }
      }
    }

    lemma PressureCovers(elapsed: real, before: (real, Reason))
      requires before.0 <= Use(before.1, elapsed)
      ensures before.0 <= Pressure(elapsed).0
    {
      hide Pressure, Use;
      assert Use(before.1, elapsed) <= Pressure(elapsed).0;
    }

    /** A check lets the run go on and leaves the budget alone. */
    ghost predicate Passes(elapsed: real)
      reads this
    {
      Hit(elapsed) == None && !Extends(elapsed)
    }

    ghost predicate SomeNegative()
      reads this
    {
      maxIterations < 0 || maxWallClock < 0.0 || maxCost < 0.0 || maxTokens < 0
    }

    /** The warning level and the cut-off. With no negative ceiling they agree: a check passes
        exactly when the pressure is at most 1. A negative ceiling counts as exceeded by the
        check and as unused by the pressure; with one, no check passes, and the two agree
        exactly when another ceiling is over as well. */
    lemma PressureDecides(elapsed: real)
      requires elapsed >= 0.0 && cost >= 0.0 && TotalTokens() >= 0
      ensures (Passes(elapsed) <==> Pressure(elapsed).0 <= 1.0) <==> !SomeNegative() || Pressure(elapsed).0 > 1.0
      ensures SomeNegative() ==> !Passes(elapsed)
    {
      hide Fraction, Tokens;
      FractionOver(iterations as real, maxIterations as real);
      FractionOver(elapsed, maxWallClock);
      FractionOver(cost, maxCost);
      FractionOver(TotalTokens() as real, maxTokens as real);
    }
  }

  /** A check at `elapsed` is not stopped by the clock. */
  ghost predicate ClockPasses(b: Budget, elapsed: real)
    reads b
  {
    b.maxWallClock == 0.0 || elapsed <= b.maxWallClock || b.Extends(elapsed)
  }

  /** Exactly when the documented ceiling, base plus all the grace there is, bounds every
      check the clock lets through: when no extension is left. */
  lemma CeilingHoldsWhenSpent(b: Budget)
    requires b.Valid() && b.maxWallClock > 0.0 && b.grace >= 0.0 && b.maxExtensions >= 0
    ensures (forall elapsed: real :: ClockPasses(b, elapsed) ==>
               elapsed <= b.baseClock + b.maxExtensions as real * b.grace)
            <==> b.grace == 0.0 || b.extensions >= b.maxExtensions
  {
    var ceiling := b.baseClock + b.maxExtensions as real * b.grace;
    if b.grace > 0.0 && b.extensions < b.maxExtensions {
      var elapsed := (if ceiling > b.maxWallClock then ceiling else b.maxWallClock) + 1.0;
      assert ClockPasses(b, elapsed) && elapsed > ceiling;
    } else if b.grace > 0.0 {
      assert b.extensions == b.maxExtensions;
    }
  }

  /** The documented ceiling of base plus all the grace there is does not hold: while an
      extension is left, a check passes however late it comes. */
  method LateCheckPasses(elapsed: real) returns (stop: Option<Reason>, b: Budget)
    requires elapsed > 100.0
    ensures stop == None && b.Valid() && b.maxWallClock == 110.0 && b.extensions == b.maxExtensions == 1
  {
    b := new Budget(0, 100.0, 0.0, 0, 0.1, 10.0, 1);
    stop := b.Check(elapsed);
  }

  /** How many of the events are ticks. */
  function Ticks(script: seq<Event>): nat {
    if script == [] then 0 else
      Ticks(script[..|script| - 1]) + if script[|script| - 1].Tick? then 1 else 0
  }

  /** Everything the reports of a script add up to. */
  datatype Bill = Bill(prompt: nat, completion: nat, cached: nat, cost: real)

  function BillOf(script: seq<Event>): Bill {
    if script == [] then Bill(0, 0, 0, 0.0) else
      var before := BillOf(script[..|script| - 1]);
      match script[|script| - 1]
      case Tick(_) => before
      case Usage(prompt, completion, cached, rates) =>
        Bill(before.prompt + prompt, before.completion + completion, before.cached + cached,
             before.cost + Price(prompt, completion, cached, rates))
  }

  /** A whole run of ticks and usage reports, up to the first tick that stops it. The
      deadline only moves by grace periods, at most the allowed number of them; a tick
      passes after its deadline at most that often; and a positive iteration limit bounds
      the ticks that pass. Every report up to the end is charged, and what stops the run is
      a ceiling that is exceeded. */
  method Drive(b: Budget, script: seq<Event>)
    returns (passed: nat, late: nat, stop: Option<Reason>, seen: nat)
    requires b.Valid() && b.iterations == 0 && b.extensions == 0
    requires b.prompt == b.completion == b.cached == 0 && b.cost == 0.0
    modifies b
    ensures b.Valid()
    ensures seen <= |script| && (stop == None ==> seen == |script|)
    ensures b.iterations == Ticks(script[..seen]) == passed + if stop == None then 0 else 1
    ensures if stop == None then late == b.extensions else b.extensions <= late + 1
    ensures b.maxIterations > 0 ==> passed <= b.maxIterations
    ensures late <= b.extensions && (b.extensions > 0 ==> b.extensions <= b.maxExtensions)
    ensures b.maxWallClock == b.baseClock + b.extensions as real * b.grace
    ensures Bill(b.prompt, b.completion, b.cached, b.cost) == BillOf(script[..seen])
    ensures stop.Some? ==> seen > 0 && script[seen - 1].Tick? && b.Exceeded(stop.value, script[seen - 1].elapsed)
  {
    hide Tokens, Price;
    passed, late, stop, seen := 0, 0, None, 0;
    while seen < |script| && stop == None
      invariant b.Valid() && 0 <= seen <= |script|
      invariant b.iterations == Ticks(script[..seen])
      invariant if stop == None then late == b.extensions else b.extensions <= late + 1
      invariant if stop == None then b.iterations == passed else b.iterations == passed + 1
      invariant b.maxIterations > 0 ==> passed <= b.maxIterations
      invariant late <= b.extensions
      invariant Bill(b.prompt, b.completion, b.cached, b.cost) == BillOf(script[..seen])
      invariant stop.Some? ==> seen > 0 && script[seen - 1].Tick? && b.Exceeded(stop.value, script[seen - 1].elapsed)
    {
      assert script[..seen + 1][..seen] == script[..seen];
      match script[seen] {
        case Tick(elapsed) =>
          var after := b.maxWallClock != 0.0 && elapsed > b.maxWallClock;
          stop := b.DoTick(elapsed);
          if stop == None {
            passed := passed + 1;
            if after { late := late + 1; }
          }
        case Usage(prompt, completion, cached, rates) =>
          b.AddUsage(prompt, completion, cached, rates);
      }
      seen := seen + 1;
    }
  }
}

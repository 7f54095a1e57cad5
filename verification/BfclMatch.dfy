/** Grading of tool calls against acceptable ground-truth calls: value and call
    matching, and the greedy order-insensitive assignment of calls to expectations. */
module BfclMatch {
  import opened Text

  /** JSON-like values; a dict is its key/value pairs in order, keys distinct. */
  datatype Value =
    | Null
    | Bool(b: bool)
    | Int(i: int)
    | Float(r: real)
    | Str(s: string)
    | List(items: seq<Value>)
    | Dict(pairs: seq<(string, Value)>)

  datatype Call = Call(name: string, args: seq<(string, Value)>)

  /** One ground-truth call: per parameter its acceptable value or list of values. */
  datatype Expected = Expected(name: string, params: seq<(string, Value)>)

  datatype CallError = UnexpectedParam(param: string) | MissingParam(param: string) | BadValue(param: string)

  datatype Failure =
    | Irrelevant(fired: nat)
    | CountMismatch(expected: nat, got: nat)
    | NeverFired(name: string)
    | Mismatch(error: CallError)

  const OPTIONAL := Str("")

  predicate IsNum(v: Value) { v.Int? || v.Float? }

  function ToFloat(v: Value): real
    requires IsNum(v)
  {
    if v.Int? then v.i as real else v.r
  }

  /** Index of a key, or -1. */
  function KeyIndex(pairs: seq<(string, Value)>, key: string): (k: int)
    ensures -1 <= k < |pairs|
    ensures k >= 0 ==> pairs[k].0 == key
    ensures k == -1 ==> forall i :: 0 <= i < |pairs| ==> pairs[i].0 != key
  {
    if pairs == [] then -1
    else if pairs[|pairs| - 1].0 == key then |pairs| - 1
    else KeyIndex(pairs[..|pairs| - 1], key)
  }

  /** The acceptable values: a list stands for its members. */
  function OptionsOf(acceptable: Value): seq<Value> {
    if acceptable.List? then acceptable.items else [acceptable]
  }

  predicate MayOmit(acceptable: Value) { OPTIONAL in OptionsOf(acceptable) }

  /** Only the optional marker is listed, so any value will do. */
  predicate AnyValue(acceptable: Value) {
    forall k :: 0 <= k < |OptionsOf(acceptable)| ==> OptionsOf(acceptable)[k] == OPTIONAL
  }

  /** One actual value against one acceptable value. `std` is the case- and
      punctuation-insensitive key of a string, number or bool. */
  predicate ValueMatches(std: Value -> string, actual: Value, acceptable: Value)
    decreases acceptable, 1
  {
    match acceptable
    case Str(_) => (actual.Str? || IsNum(actual) || actual.Bool?) && std(actual) == std(acceptable)
    case Int(_) => IsNum(actual) && ToFloat(actual) == ToFloat(acceptable)
    case Float(_) => IsNum(actual) && ToFloat(actual) == ToFloat(acceptable)
    case Bool(_) => actual == acceptable
    case Null => actual == acceptable
    case List(items) =>
      actual.List? && |actual.items| == |items|
      && forall k :: 0 <= k < |items| ==> ValueMatches(std, actual.items[k], items[k])
    case Dict(pairs) =>
      actual.Dict? && forall k :: 0 <= k < |pairs| ==>
        var at := KeyIndex(actual.pairs, pairs[k].0);
        if at < 0 then MayOmit(pairs[k].1) else OneOf(std, actual.pairs[at].1, pairs[k].1)
  }

  /** The value matches one of the acceptable values other than the optional marker,
      or there is none. */
  predicate OneOf(std: Value -> string, actual: Value, acceptable: Value)
    decreases acceptable, 2
  {
    AnyValue(acceptable) ||
    if acceptable.List? then
      exists k :: 0 <= k < |acceptable.items| && acceptable.items[k] != OPTIONAL
                  && ValueMatches(std, actual, acceptable.items[k])
    else ValueMatches(std, actual, acceptable)
  }

  /** Values without parts: text by its key, numbers by their value whatever their type, and
      a bool or null only by itself. */
  lemma ScalarsMatch(std: Value -> string, actual: Value, acceptable: Value)
    requires !acceptable.List? && !acceptable.Dict?
    ensures ValueMatches(std, actual, acceptable) <==>
      || (acceptable.Str? && !actual.Null? && !actual.List? && !actual.Dict? && std(actual) == std(acceptable))
      || (IsNum(acceptable) && IsNum(actual) && ToFloat(actual) - ToFloat(acceptable) == 0.0)
      || (actual == acceptable && (acceptable.Bool? || acceptable.Null?))
    ensures forall n: int :: ToFloat(Int(n)) == n as real && (actual == Int(n) && acceptable == Float(n as real) ==>
      ValueMatches(std, actual, acceptable))
  {
  }

  /** Lists match member by member, and a longer or shorter one never does. */
  lemma {:induction false} ListsMatch(std: Value -> string, actual: seq<Value>, acceptable: seq<Value>)
    ensures ValueMatches(std, List(actual), List([])) <==> actual == []
    ensures actual != [] && acceptable != [] ==>
      (ValueMatches(std, List(actual), List(acceptable)) <==>
         ValueMatches(std, actual[0], acceptable[0]) && ValueMatches(std, List(actual[1..]), List(acceptable[1..])))
    ensures ValueMatches(std, List(actual), List(acceptable)) ==> |actual| == |acceptable|
  {
    if actual != [] && acceptable != [] {
      var a, e := List(actual), List(acceptable);
      var more, most := List(actual[1..]), List(acceptable[1..]);
      if ValueMatches(std, actual[0], acceptable[0]) && ValueMatches(std, more, most) {
        forall k | 0 <= k < |acceptable| ensures ValueMatches(std, actual[k], acceptable[k]) {
          if k > 0 {
            assert ValueMatches(std, more.items[k - 1], most.items[k - 1]);
          }
        }
      }
      if ValueMatches(std, a, e) {
        forall k | 0 <= k < |most.items| ensures ValueMatches(std, more.items[k], most.items[k]) {
          assert ValueMatches(std, a.items[k + 1], e.items[k + 1]);
        }
      }
    }
  }

  lemma AllMarkers(acceptable: Value)
    ensures AnyValue(acceptable) <==> forall o :: o in OptionsOf(acceptable) ==> o == Str("")
  {
    var opts := OptionsOf(acceptable);
    if forall o :: o in opts ==> o == Str("") {
      forall k | 0 <= k < |opts| ensures opts[k] == OPTIONAL {
        assert opts[k] in opts;
      }
    }
  }

  lemma SomeIndex(std: Value -> string, actual: Value, opts: seq<Value>)
    ensures (exists k :: 0 <= k < |opts| && opts[k] != OPTIONAL && ValueMatches(std, actual, opts[k]))
            <==> exists o :: o in opts && o != Str("") && ValueMatches(std, actual, o)
  {
    if k :| 0 <= k < |opts| && opts[k] != OPTIONAL && ValueMatches(std, actual, opts[k]) {
      assert opts[k] in opts;
    }
  }

  /** Some value other than the optional marker is listed, and one of those matches; or none
      is, and any value will do. */
  lemma OneOfMeans(std: Value -> string, actual: Value, acceptable: Value)
    ensures acceptable.List? ==> var opts := acceptable.items;
      (OneOf(std, actual, acceptable) <==>
         (forall o :: o in opts ==> o == Str("")) || exists o :: o in opts && o != Str("") && ValueMatches(std, actual, o))
    ensures !acceptable.List? ==>
      (OneOf(std, actual, acceptable) <==> acceptable == Str("") || ValueMatches(std, actual, acceptable))
    ensures MayOmit(acceptable) <==> acceptable == Str("") || (acceptable.List? && Str("") in acceptable.items)
  {
    hide AnyValue;
    AllMarkers(acceptable);
    if acceptable.List? {
      var opts := acceptable.items;
      var some := exists k :: 0 <= k < |opts| && opts[k] != OPTIONAL && ValueMatches(std, actual, opts[k]);
      assert OneOf(std, actual, acceptable) <==> AnyValue(acceptable) || some;
      SomeIndex(std, actual, opts);
      assert OptionsOf(acceptable) == opts;
    } else {
      var opts := OptionsOf(acceptable);
      assert opts == [acceptable] && opts[0] == acceptable;
      assert acceptable in opts && AnyValue(acceptable) == (acceptable == Str(""));
      assert OneOf(std, actual, acceptable) <==> AnyValue(acceptable) || ValueMatches(std, actual, acceptable);
    }
  }

  /** A dictionary matches when every listed key is there with a value that will do, or is
      not there and may be left out; other keys do not matter. */
  lemma DictsMatch(std: Value -> string, actual: seq<(string, Value)>, acceptable: seq<(string, Value)>)
    ensures ValueMatches(std, Dict(actual), Dict(acceptable)) <==>
      forall k :: 0 <= k < |acceptable| ==> ParamOk(std, actual, acceptable[k])
  {
    var e := Dict(acceptable);
    assert e.pairs == acceptable;
    if ValueMatches(std, Dict(actual), e) {
      forall k | 0 <= k < |acceptable| ensures ParamOk(std, actual, acceptable[k]) {
        assert e.pairs[k] == acceptable[k];
      }
    }
  }

  /** First actual parameter the ground truth does not know, by position. */
  function FirstUnknown(args: seq<(string, Value)>, params: seq<(string, Value)>): (r: Option<CallError>)
    ensures r.None? <==> forall k :: 0 <= k < |args| ==> KeyIndex(params, args[k].0) >= 0
  {
    if args == [] then None
    else if KeyIndex(params, args[0].0) < 0 then Some(UnexpectedParam(args[0].0))
    else
      var r := FirstUnknown(args[1..], params);
      assert forall k :: 1 <= k < |args| ==> args[k] == args[1..][k - 1];
      r
  }

  predicate ParamOk(std: Value -> string, args: seq<(string, Value)>, param: (string, Value)) {
    var at := KeyIndex(args, param.0);
    if at < 0 then MayOmit(param.1) else OneOf(std, args[at].1, param.1)
  }

  /** First ground-truth parameter that is missing or has a value that does not match. */
  function FirstBad(std: Value -> string, args: seq<(string, Value)>, params: seq<(string, Value)>): (r: Option<CallError>)
    ensures r.None? <==> forall k :: 0 <= k < |params| ==> ParamOk(std, args, params[k])
  {
    if params == [] then None
    else if !ParamOk(std, args, params[0]) then
      Some(if KeyIndex(args, params[0].0) < 0 then MissingParam(params[0].0) else BadValue(params[0].0))
    else
      var r := FirstBad(std, args, params[1..]);
      assert forall k :: 1 <= k < |params| ==> params[k] == params[1..][k - 1];
      r
  }

  /** None when the call, whose name is already known to agree, matches. */
  function CallMatches(std: Value -> string, call: Call, expected: Expected): Option<CallError> {
    var unknown := FirstUnknown(call.args, expected.params);
    if unknown.Some? then unknown else FirstBad(std, call.args, expected.params)
  }

  /** The ground truth accepts the call: right name, no parameter it does not know,
      and every parameter it lists either matches or may be left out. */
  ghost predicate Accepts(std: Value -> string, expected: Expected, call: Call) {
    && call.name == expected.name
    && (forall k :: 0 <= k < |call.args| ==> KeyIndex(expected.params, call.args[k].0) >= 0)
    && (forall k :: 0 <= k < |expected.params| ==> ParamOk(std, call.args, expected.params[k]))
  }

  lemma CallMatchesAccepts(std: Value -> string, call: Call, expected: Expected)
    ensures call.name == expected.name && CallMatches(std, call, expected).None? <==> Accepts(std, expected, call)
  {
  }

  /** Which error a call gets: the first parameter the ground truth does not know; when it
      knows all, the first of its own that is missing or has a value that will not do. */
  lemma CallErrorIs(std: Value -> string, call: Call, expected: Expected)
    requires CallMatches(std, call, expected).Some?
    ensures match CallMatches(std, call, expected).value
      case UnexpectedParam(p) =>
        exists k :: 0 <= k < |call.args| && call.args[k].0 == p && KeyIndex(expected.params, p) < 0
          && forall j :: 0 <= j < k ==> KeyIndex(expected.params, call.args[j].0) >= 0
      case MissingParam(p) =>
        && (forall j :: 0 <= j < |call.args| ==> KeyIndex(expected.params, call.args[j].0) >= 0)
        && exists k :: FirstNotOk(std, call, expected, k) && expected.params[k].0 == p && KeyIndex(call.args, p) < 0
      case BadValue(p) =>
        && (forall j :: 0 <= j < |call.args| ==> KeyIndex(expected.params, call.args[j].0) >= 0)
        && exists k :: FirstNotOk(std, call, expected, k) && expected.params[k].0 == p && KeyIndex(call.args, p) >= 0
  {
    hide ParamOk;
    if FirstUnknown(call.args, expected.params).Some? {
      var _ := UnknownAt(call.args, expected.params);
    } else {
      var k := BadAt(std, call.args, expected.params);
      assert FirstNotOk(std, call, expected, k);
    }
  }

  ghost predicate FirstNotOk(std: Value -> string, call: Call, expected: Expected, k: int) {
    && 0 <= k < |expected.params| && !ParamOk(std, call.args, expected.params[k])
    && forall j :: 0 <= j < k ==> ParamOk(std, call.args, expected.params[j])
  }

  lemma {:induction false} UnknownAt(args: seq<(string, Value)>, params: seq<(string, Value)>) returns (k: nat)
    requires FirstUnknown(args, params).Some?
    ensures k < |args| && FirstUnknown(args, params) == Some(UnexpectedParam(args[k].0)) && KeyIndex(params, args[k].0) < 0
    ensures forall j :: 0 <= j < k ==> KeyIndex(params, args[j].0) >= 0
  {
    hide KeyIndex;
    k := 0;
    if KeyIndex(params, args[0].0) >= 0 {
      k := UnknownAt(args[1..], params);
      assert forall j :: 1 <= j <= k ==> args[j] == args[1..][j - 1];
      k := k + 1;
    }
  }

  lemma {:induction false} BadAt(std: Value -> string, args: seq<(string, Value)>, params: seq<(string, Value)>)
    returns (k: nat)
    requires FirstBad(std, args, params).Some?
    ensures k < |params| && !ParamOk(std, args, params[k]) && forall j :: 0 <= j < k ==> ParamOk(std, args, params[j])
    ensures FirstBad(std, args, params).value
            == if KeyIndex(args, params[k].0) < 0 then MissingParam(params[k].0) else BadValue(params[k].0)
  {
    hide KeyIndex, ParamOk;
    k := 0;
    if ParamOk(std, args, params[0]) {
      k := BadAt(std, args, params[1..]);
      assert forall j :: 1 <= j <= k ==> params[j] == params[1..][j - 1];
      k := k + 1;
    }
  }

  // ---- the greedy assignment ----

  function Without<T>(s: seq<T>, i: nat): seq<T>
    requires i < |s|
  {
    s[..i] + s[i + 1..]
  }

  lemma WithoutMultiset<T>(s: seq<T>, i: nat)
    requires i < |s|
    ensures multiset(Without(s, i)) == multiset(s) - multiset{s[i]}
  {
    assert s == s[..i] + [s[i]] + s[i + 1..];
  }

  /** `i` is the first remaining call the expectation accepts. */
  ghost predicate FirstAccepted(std: Value -> string, expected: Expected, rem: seq<Call>, i: nat) {
    i < |rem| && Accepts(std, expected, rem[i]) && forall j :: 0 <= j < i ==> !Accepts(std, expected, rem[j])
  }

  /** Taking the first accepted call for each expectation in turn uses up all of them. */
  ghost predicate GreedyPasses(std: Value -> string, expected: seq<Expected>, rem: seq<Call>)
    decreases |expected|
  {
    expected == [] ||
    exists i: nat :: FirstAccepted(std, expected[0], rem, i) && GreedyPasses(std, expected[1..], Without(rem, i))
  }

  /** `order` arranges calls so that each expectation accepts the call at its place. */
  ghost predicate Fulfils(std: Value -> string, expected: seq<Expected>, order: seq<Call>) {
    |order| == |expected| && forall k :: 0 <= k < |expected| ==> Accepts(std, expected[k], order[k])
  }

  /** The calls can be assigned one to one to the expectations. */
  ghost predicate Assignable(std: Value -> string, expected: seq<Expected>, actual: multiset<Call>) {
    exists order: seq<Call> :: multiset(order) == actual && Fulfils(std, expected, order)
  }

  lemma FulfilsCons(std: Value -> string, expected: seq<Expected>, call: Call, order: seq<Call>)
    requires expected != [] && Accepts(std, expected[0], call) && Fulfils(std, expected[1..], order)
    ensures Fulfils(std, expected, [call] + order)
  {
    hide Accepts;
    forall k | 0 <= k < |expected| ensures Accepts(std, expected[k], ([call] + order)[k]) {
      if k > 0 {
        assert expected[k] == expected[1..][k - 1];
      }
    }
  }

  lemma ConsMultiset<T>(s: seq<T>, i: nat, order: seq<T>)
    requires i < |s| && multiset(order) == multiset(Without(s, i))
    ensures multiset([s[i]] + order) == multiset(s)
  {
    WithoutMultiset(s, i);
    assert s[i] in multiset(s);
  }

  /** A pass is never a fluke: it comes with a one-to-one assignment. */
  lemma {:induction false} GreedyIsSound(std: Value -> string, expected: seq<Expected>, rem: seq<Call>)
    requires GreedyPasses(std, expected, rem) && |expected| == |rem|
    ensures Assignable(std, expected, multiset(rem))
    decreases |expected|
  {
    hide Accepts;
    if expected == [] {
      assert Fulfils(std, expected, rem);
    } else {
      hide Fulfils;
      var i: nat :| FirstAccepted(std, expected[0], rem, i) && GreedyPasses(std, expected[1..], Without(rem, i));
      GreedyIsSound(std, expected[1..], Without(rem, i));
      var order :| multiset(order) == multiset(Without(rem, i)) && Fulfils(std, expected[1..], order);
      FulfilsCons(std, expected, rem[i], order);
      ConsMultiset(rem, i, order);
    }
  }

  /** Of these calls, a later expectation accepts all that an earlier one accepts, or none
      of them. */
  ghost predicate NestedOrDisjoint(std: Value -> string, expected: seq<Expected>, calls: multiset<Call>) {
    forall j, k :: 0 <= j < k < |expected| ==>
      NestedPair(std, expected[j], expected[k], calls) || DisjointPair(std, expected[j], expected[k], calls)
  }

  ghost predicate NestedPair(std: Value -> string, d: Expected, e: Expected, calls: multiset<Call>) {
    forall c :: c in calls && Accepts(std, d, c) ==> Accepts(std, e, c)
  }

  ghost predicate DisjointPair(std: Value -> string, d: Expected, e: Expected, calls: multiset<Call>) {
    forall c :: c in calls ==> !(Accepts(std, d, c) && Accepts(std, e, c))
  }

  lemma NestedShrinks(std: Value -> string, expected: seq<Expected>, calls: multiset<Call>, fewer: multiset<Call>)
    requires expected != [] && NestedOrDisjoint(std, expected, calls) && fewer <= calls
    ensures NestedOrDisjoint(std, expected[1..], fewer)
  {
    hide Accepts;
    forall j, k | 0 <= j < k < |expected| - 1
      ensures NestedPair(std, expected[1..][j], expected[1..][k], fewer)
              || DisjointPair(std, expected[1..][j], expected[1..][k], fewer)
    {
      var d, e := expected[1..][j], expected[1..][k];
      assert d == expected[j + 1] && e == expected[k + 1];
      if NestedPair(std, d, e, calls) {
        assert NestedPair(std, d, e, fewer);
      } else {
        assert DisjointPair(std, d, e, fewer);
      }
    }
  }

  lemma {:induction false} FirstAcceptedExists(std: Value -> string, expected: Expected, rem: seq<Call>, n: nat)
    requires n < |rem| && Accepts(std, expected, rem[n])
    ensures exists i: nat :: FirstAccepted(std, expected, rem, i)
    decreases n
  {
    hide Accepts;
    if exists j: nat :: j < n && Accepts(std, expected, rem[j]) {
      var j: nat :| j < n && Accepts(std, expected, rem[j]);
      FirstAcceptedExists(std, expected, rem, j);
    } else {
      assert FirstAccepted(std, expected, rem, n);
    }
  }

  /** Whatever accepted call the greedy step takes, the others can still be assigned:
      its owner in the assignment takes the displaced call instead. */
  lemma Exchange(std: Value -> string, expected: seq<Expected>, rem: seq<Call>, order: seq<Call>, i: nat)
    requires expected != [] && NestedOrDisjoint(std, expected, multiset(rem))
    requires multiset(order) == multiset(rem) && Fulfils(std, expected, order)
    requires i < |rem| && Accepts(std, expected[0], rem[i])
    ensures Assignable(std, expected[1..], multiset(Without(rem, i)))
  {
    hide Accepts, NestedOrDisjoint, Fulfils;
    var call := rem[i];
    MemberOfBoth(rem, order, i);
    var k :| 0 <= k < |order| && order[k] == call;
    FulfilsSwapped(std, expected, multiset(rem), order, k);
    SwapTail(order, k);
    WithoutMultiset(rem, i);
  }

  lemma MemberOfBoth<T>(s: seq<T>, t: seq<T>, i: nat)
    requires multiset(s) == multiset(t) && i < |s|
    ensures s[i] in t
  {
    assert s[i] in multiset(s);
  }

  lemma FulfilsSwapped(std: Value -> string, expected: seq<Expected>, calls: multiset<Call>, order: seq<Call>, k: nat)
    requires expected != [] && Fulfils(std, expected, order) && k < |order|
    requires NestedOrDisjoint(std, expected, calls) && multiset(order) == calls
    requires Accepts(std, expected[0], order[k])
    ensures Fulfils(std, expected[1..], order[k := order[0]][1..])
  {
    hide Accepts, NestedOrDisjoint;
    assert order[k] in multiset(order) && order[0] in multiset(order);
    DisplacedFits(std, expected, calls, k, order[k], order[0]);
    var rest := order[k := order[0]][1..];
    forall j | 0 <= j < |expected| - 1 ensures Accepts(std, expected[1..][j], rest[j]) {
      assert Accepts(std, expected[j + 1], order[j + 1]);
    }
  }

  lemma DisplacedFits(std: Value -> string, expected: seq<Expected>, calls: multiset<Call>, k: nat, shared: Call, other: Call)
    requires k < |expected| && NestedOrDisjoint(std, expected, calls) && shared in calls && other in calls
    requires Accepts(std, expected[0], shared) && Accepts(std, expected[k], shared)
    requires Accepts(std, expected[0], other)
    ensures Accepts(std, expected[k], other)
  {
    hide Accepts;
    if k > 0 {
      assert NestedPair(std, expected[0], expected[k], calls) || DisjointPair(std, expected[0], expected[k], calls);
    }
  }

  lemma SwapTail<T>(s: seq<T>, k: nat)
    requires k < |s|
    ensures multiset(s[k := s[0]][1..]) == multiset(s) - multiset{s[k]}
  {
    var swapped := s[k := s[0]];
    if k == 0 {
      assert swapped == s;
      assert s == [s[0]] + s[1..];
    } else {
      assert swapped[1..] == s[1..k] + [s[0]] + s[k + 1..];
      assert s == [s[0]] + s[1..k] + [s[k]] + s[k + 1..];
    }
  }

  /** When later expectations contain the earlier ones or have nothing in common with
      them, taking the first accepted call each time finds an assignment whenever there
      is one. */
  lemma {:induction false} GreedyIsComplete(std: Value -> string, expected: seq<Expected>, rem: seq<Call>)
    requires NestedOrDisjoint(std, expected, multiset(rem)) && Assignable(std, expected, multiset(rem))
    ensures GreedyPasses(std, expected, rem)
    decreases |expected|
  {
    hide Accepts;
    if expected != [] {
      var order :| multiset(order) == multiset(rem) && Fulfils(std, expected, order);
      assert order[0] in multiset(order);
      assert order[0] in rem;
      var n :| 0 <= n < |rem| && rem[n] == order[0];
      FirstAcceptedExists(std, expected[0], rem, n);
      var i: nat :| FirstAccepted(std, expected[0], rem, i);
      Exchange(std, expected, rem, order, i);
      WithoutMultiset(rem, i);
      NestedShrinks(std, expected, multiset(rem), multiset(Without(rem, i)));
      GreedyIsComplete(std, expected[1..], Without(rem, i));
    }
  }

  /** Under that condition the verdict is the existence of an assignment, so it does
      not depend on the order in which the calls were made. */
  lemma VerdictIgnoresOrder(std: Value -> string, expected: seq<Expected>, actual: seq<Call>, shuffled: seq<Call>)
    requires |expected| == |actual| && multiset(shuffled) == multiset(actual)
    requires NestedOrDisjoint(std, expected, multiset(actual))
    ensures GreedyPasses(std, expected, actual) <==> Assignable(std, expected, multiset(actual))
    ensures GreedyPasses(std, expected, shuffled) <==> GreedyPasses(std, expected, actual)
  {
    hide Accepts;
    assert |shuffled| == |multiset(shuffled)| == |multiset(actual)| == |actual|;
    if GreedyPasses(std, expected, actual) { GreedyIsSound(std, expected, actual); }
    if GreedyPasses(std, expected, shuffled) { GreedyIsSound(std, expected, shuffled); }
    if Assignable(std, expected, multiset(actual)) {
      GreedyIsComplete(std, expected, actual);
      GreedyIsComplete(std, expected, shuffled);
    }
  }

  // ---- grading the calls ----

  lemma GreedyStep(std: Value -> string, expected: seq<Expected>, rem: seq<Call>, i: nat)
    requires expected != [] && FirstAccepted(std, expected[0], rem, i)
    ensures GreedyPasses(std, expected, rem) <==> GreedyPasses(std, expected[1..], Without(rem, i))
  {
    hide Accepts, Without;
    if GreedyPasses(std, expected, rem) {
      var j: nat :| FirstAccepted(std, expected[0], rem, j) && GreedyPasses(std, expected[1..], Without(rem, j));
      assert j == i;
    }
  }

  /** `i` is the first remaining call of the expectation's name. */
  ghost predicate FirstNamed(expected: Expected, rem: seq<Call>, i: nat) {
    i < |rem| && rem[i].name == expected.name && forall j :: 0 <= j < i ==> rem[j].name != expected.name
  }

  /** The failures that one expectation after the other leaves: none when it accepts a call,
      and then takes the first one; else the error of the first call of its name, which is
      used up as well; else that it never fired. */
  ghost predicate Grades(std: Value -> string, expected: seq<Expected>, rem: seq<Call>, failures: seq<Failure>)
    decreases |expected|
  {
    if expected == [] then failures == []
    else
      || (exists i: nat :: FirstAccepted(std, expected[0], rem, i) && Grades(std, expected[1..], Without(rem, i), failures))
      || ((forall j :: 0 <= j < |rem| ==> !Accepts(std, expected[0], rem[j])) && failures != []
          && exists i: nat :: FirstNamed(expected[0], rem, i) && CallMatches(std, rem[i], expected[0]).Some?
               && failures[0] == Mismatch(CallMatches(std, rem[i], expected[0]).value)
               && Grades(std, expected[1..], Without(rem, i), failures[1..]))
      || ((forall j :: 0 <= j < |rem| ==> rem[j].name != expected[0].name) && failures != []
          && failures[0] == NeverFired(expected[0].name) && Grades(std, expected[1..], rem, failures[1..]))
  }

  /** What one expectation finds among the remaining calls: the first accepted one, or
      failing that the first one of the right name with its error. */
  method BestCall(std: Value -> string, expected: Expected, rem: seq<Call>)
    returns (best: Option<nat>, error: Option<CallError>)
    ensures best.Some? ==> best.value < |rem|
    ensures best.Some? && error.None? ==> FirstAccepted(std, expected, rem, best.value)
    ensures best.None? || error.Some? ==> forall j :: 0 <= j < |rem| ==> !Accepts(std, expected, rem[j])
    ensures best.None? <==> forall j :: 0 <= j < |rem| ==> rem[j].name != expected.name
    ensures error.Some? ==>
      best.Some? && FirstNamed(expected, rem, best.value) && error == CallMatches(std, rem[best.value], expected)
  {
    hide Accepts, CallMatches;
    best, error := None, None;
    for i := 0 to |rem|
      invariant best.Some? ==> best.value < |rem| && rem[best.value].name == expected.name
      invariant best.Some? <==> error.Some?
      invariant best.Some? ==> FirstNamed(expected, rem, best.value) && error == CallMatches(std, rem[best.value], expected)
      invariant best.None? ==> forall j :: 0 <= j < i ==> rem[j].name != expected.name
      invariant forall j :: 0 <= j < i ==> !Accepts(std, expected, rem[j])
    {
      CallMatchesAccepts(std, rem[i], expected);
      if rem[i].name == expected.name {
        var err := CallMatches(std, rem[i], expected);
        if err.None? { return Some(i), None; }
        if best.None? { best, error := Some(i), err; }
      }
    }
  }

  /** Grades actual calls against the ground truth; no failure means a pass. */
  method MatchCalls(std: Value -> string, expected: seq<Expected>, actual: seq<Call>)
    returns (failures: seq<Failure>)
    ensures expected == [] ==> failures == if actual == [] then [] else [Irrelevant(|actual|)]
    ensures expected != [] && |actual| != |expected| ==> failures == [CountMismatch(|expected|, |actual|)]
    ensures expected != [] && |actual| == |expected| ==> (failures == [] <==> GreedyPasses(std, expected, actual))
    ensures expected != [] && |actual| == |expected| ==> Grades(std, expected, actual, failures)
  {
    if expected == [] {
      return if actual == [] then [] else [Irrelevant(|actual|)];
    }
    if |actual| != |expected| {
      return [CountMismatch(|expected|, |actual|)];
    }
    failures := [];
    var remaining := actual;
    assert expected[0..] == expected;
    NothingGraded(std, expected, actual);
    for k := 0 to |expected|
      invariant Continues(std, expected, actual, failures, expected[k..], remaining)
      invariant failures == [] ==>
        (GreedyPasses(std, expected[k..], remaining) <==> GreedyPasses(std, expected, actual))
      invariant failures != [] ==> !GreedyPasses(std, expected, actual)
    {
      hide Accepts, Without, GreedyPasses, Grades, CallMatches, Continues, FirstNamed;
      ghost var left, before := remaining, failures;
      var best, error := BestCall(std, expected[k], remaining);
      assert expected[k..][0] == expected[k] && expected[k..][1..] == expected[k + 1..];
      if best.Some? && error.None? {
        GreedyStep(std, expected[k..], remaining, best.value);
      } else {
        GreedyStuck(std, expected[k..], remaining);
      }
      match best {
        case None => failures := failures + [NeverFired(expected[k].name)];
        case Some(i) =>
          remaining := Without(remaining, i);
          if error.Some? { failures := failures + [Mismatch(error.value)]; }
      }
      GradeNext(std, expected, actual, before, expected[k..], left, best, error);
    }
    assert expected[|expected|..] == [];
    AllGraded(std, expected, actual, failures, remaining);
  }

  /** Whatever failures the rest leaves, the failures so far followed by them are what the
      whole leaves. */
  ghost predicate Continues(std: Value -> string, expected: seq<Expected>, actual: seq<Call>, failures: seq<Failure>,
                            rest: seq<Expected>, rem: seq<Call>) {
    forall more :: Grades(std, rest, rem, more) ==> Grades(std, expected, actual, failures + more)
  }

  lemma NothingGraded(std: Value -> string, expected: seq<Expected>, actual: seq<Call>)
    ensures Continues(std, expected, actual, [], expected, actual)
  {
    forall more: seq<Failure> ensures [] + more == more {
    }
  }

  lemma AllGraded(std: Value -> string, expected: seq<Expected>, actual: seq<Call>, failures: seq<Failure>, rem: seq<Call>)
    requires Continues(std, expected, actual, failures, [], rem)
    ensures Grades(std, expected, actual, failures)
  {
    assert Grades(std, [], rem, []);
    assert failures + [] == failures;
  }

  lemma GradeNext(std: Value -> string, expected: seq<Expected>, actual: seq<Call>, failures: seq<Failure>,
                  rest: seq<Expected>, rem: seq<Call>, best: Option<nat>, error: Option<CallError>)
    requires Continues(std, expected, actual, failures, rest, rem) && rest != []
    requires best.Some? ==> best.value < |rem|
    requires best.Some? && error.None? ==> FirstAccepted(std, rest[0], rem, best.value)
    requires best.None? || error.Some? ==> forall j :: 0 <= j < |rem| ==> !Accepts(std, rest[0], rem[j])
    requires best.None? <==> forall j :: 0 <= j < |rem| ==> rem[j].name != rest[0].name
    requires error.Some? ==>
      best.Some? && FirstNamed(rest[0], rem, best.value) && error == CallMatches(std, rem[best.value], rest[0])
    ensures Continues(std, expected, actual,
                      failures + (if best.None? then [NeverFired(rest[0].name)]
                                  else if error.Some? then [Mismatch(error.value)] else []),
                      rest[1..], if best.None? then rem else Without(rem, best.value))
  {
    hide Accepts, Without, CallMatches, FirstNamed;
    var found := if best.None? then [NeverFired(rest[0].name)] else if error.Some? then [Mismatch(error.value)] else [];
    var left := if best.None? then rem else Without(rem, best.value);
    forall more | Grades(std, rest[1..], left, more) ensures Grades(std, expected, actual, (failures + found) + more) {
      assert found != [] ==> (found + more)[1..] == more && (found + more)[0] == found[0];
      assert found == [] ==> found + more == more;
      assert Grades(std, rest, rem, found + more);
      Regroup(failures, found, more);
    }
  }

  lemma GreedyStuck(std: Value -> string, expected: seq<Expected>, rem: seq<Call>)
    requires expected != [] && forall j :: 0 <= j < |rem| ==> !Accepts(std, expected[0], rem[j])
    ensures !GreedyPasses(std, expected, rem)
  {
    hide Accepts;
  }

  // ---- exactly when the greedy pass is complete ----

  /** Whatever calls come, greedy matching finds an assignment if there is one. */
  ghost predicate AlwaysComplete(std: Value -> string, expected: seq<Expected>) {
    forall rem: seq<Call> :: Assignable(std, expected, multiset(rem)) ==> GreedyPasses(std, expected, rem)
  }

  /** Whatever calls come, their order does not matter for the verdict. */
  ghost predicate AlwaysOrderFree(std: Value -> string, expected: seq<Expected>) {
    forall rem: seq<Call>, shuffled: seq<Call> ::
      |rem| == |expected| && multiset(rem) == multiset(shuffled) && GreedyPasses(std, expected, rem) ==>
        GreedyPasses(std, expected, shuffled)
  }

  ghost predicate Within(std: Value -> string, d: Expected, e: Expected) {
    forall c :: Accepts(std, d, c) ==> Accepts(std, e, c)
  }

  ghost predicate Apart(std: Value -> string, d: Expected, e: Expected) {
    forall c :: !(Accepts(std, d, c) && Accepts(std, e, c))
  }

  ghost predicate Possible(std: Value -> string, e: Expected) {
    exists c :: Accepts(std, e, c)
  }

  /** No earlier expectation accepts part, but only part, of what a later one accepts
      along with something else. */
  ghost predicate WidensOrApart(std: Value -> string, expected: seq<Expected>) {
    forall j, k :: 0 <= j < k < |expected| ==>
      Within(std, expected[j], expected[k]) || Apart(std, expected[j], expected[k])
  }

  ghost predicate AllPossible(std: Value -> string, expected: seq<Expected>) {
    forall k :: 0 <= k < |expected| ==> Possible(std, expected[k])
  }

  lemma WidensIsNested(std: Value -> string, expected: seq<Expected>, calls: multiset<Call>)
    requires WidensOrApart(std, expected)
    ensures NestedOrDisjoint(std, expected, calls)
  {
    hide Accepts;
    forall j, k | 0 <= j < k < |expected|
      ensures NestedPair(std, expected[j], expected[k], calls) || DisjointPair(std, expected[j], expected[k], calls)
    {
      assert Within(std, expected[j], expected[k]) || Apart(std, expected[j], expected[k]);
    }
  }

  /** Calls listed in the order of their assignment always pass. */
  lemma {:induction false} InOrderPasses(std: Value -> string, expected: seq<Expected>, order: seq<Call>)
    requires Fulfils(std, expected, order)
    ensures GreedyPasses(std, expected, order)
    decreases |expected|
  {
    hide Accepts;
    if expected != [] {
      assert Without(order, 0) == order[1..];
      forall k | 0 <= k < |expected| - 1 ensures Accepts(std, expected[1..][k], order[1..][k]) {
        assert Accepts(std, expected[k + 1], order[k + 1]);
      }
      InOrderPasses(std, expected[1..], order[1..]);
      assert FirstAccepted(std, expected[0], order, 0);
    }
  }

  /** How many of the calls the expectation accepts. */
  ghost function AcceptedIn(std: Value -> string, e: Expected, calls: seq<Call>): nat {
    if calls == [] then 0 else (if Accepts(std, e, calls[0]) then 1 else 0) + AcceptedIn(std, e, calls[1..])
  }

  lemma {:induction false} AcceptedWithout(std: Value -> string, e: Expected, calls: seq<Call>, i: nat)
    requires i < |calls|
    ensures AcceptedIn(std, e, Without(calls, i)) == AcceptedIn(std, e, calls) - if Accepts(std, e, calls[i]) then 1 else 0
  {
    hide Accepts;
    if i == 0 {
      assert Without(calls, 0) == calls[1..];
    } else {
      AcceptedWithout(std, e, calls[1..], i - 1);
      assert Without(calls, i)[1..] == Without(calls[1..], i - 1);
    }
  }

  lemma {:induction false} AcceptedSnoc(std: Value -> string, e: Expected, calls: seq<Call>, c: Call)
    ensures AcceptedIn(std, e, calls + [c]) == AcceptedIn(std, e, calls) + if Accepts(std, e, c) then 1 else 0
  {
    hide Accepts;
    if calls == [] {
      assert calls + [c] == [c] && [c][1..] == [];
    } else {
      AcceptedSnoc(std, e, calls[1..], c);
      assert (calls + [c])[1..] == calls[1..] + [c];
    }
  }

  /** How many expectations can only take calls that `e` accepts. */
  ghost function Confined(std: Value -> string, e: Expected, expected: seq<Expected>): nat {
    if expected == [] then 0 else (if Within(std, expected[0], e) then 1 else 0) + Confined(std, e, expected[1..])
  }

  /** How many of those accept the call `a`. */
  ghost function ConfinedTo(std: Value -> string, e: Expected, a: Call, expected: seq<Expected>): nat {
    if expected == [] then 0 else
      (if Within(std, expected[0], e) && Accepts(std, expected[0], a) then 1 else 0) + ConfinedTo(std, e, a, expected[1..])
  }

  /** With fewer calls for `e` than expectations confined to them, the pass fails. */
  lemma {:induction false} TooFewFail(std: Value -> string, e: Expected, expected: seq<Expected>, rem: seq<Call>)
    requires AcceptedIn(std, e, rem) < Confined(std, e, expected)
    ensures !GreedyPasses(std, expected, rem)
    decreases |expected|
  {
    hide Accepts, Without;
    if expected != [] {
      forall i: nat | FirstAccepted(std, expected[0], rem, i)
        ensures !GreedyPasses(std, expected[1..], Without(rem, i))
      {
        AcceptedWithout(std, e, rem, i);
        TooFewFail(std, e, expected[1..], Without(rem, i));
      }
    }
  }

  /** The calls that `e` accepts come first. */
  ghost predicate InFront(std: Value -> string, e: Expected, calls: seq<Call>) {
    forall i, j :: 0 <= i < j < |calls| && Accepts(std, e, calls[j]) ==> Accepts(std, e, calls[i])
  }

  lemma InFrontWithout(std: Value -> string, e: Expected, calls: seq<Call>, i: nat)
    requires InFront(std, e, calls) && i < |calls|
    ensures InFront(std, e, Without(calls, i))
  {
    hide Accepts;
    var rest := Without(calls, i);
    assert forall x :: 0 <= x < |rest| ==> rest[x] == calls[if x < i then x else x + 1];
  }

  /** An expectation at `p` that is not confined to `e` but accepts `a` takes one of the
      calls `e` accepts, when these come first, are no more than the confined expectations
      need, and leave a copy of `a` for it: so the pass fails. */
  lemma {:induction false} IntruderFails(std: Value -> string, e: Expected, a: Call, expected: seq<Expected>, p: nat,
                                         rem: seq<Call>)
    requires p < |expected| && Accepts(std, e, a) && Accepts(std, expected[p], a) && !Within(std, expected[p], e)
    requires InFront(std, e, rem) && AcceptedIn(std, e, rem) <= Confined(std, e, expected)
    requires multiset(rem)[a] > ConfinedTo(std, e, a, expected[..p])
    ensures !GreedyPasses(std, expected, rem)
    decreases |expected|
  {
    hide Accepts, Without, InFront, Within;
    forall i: nat | FirstAccepted(std, expected[0], rem, i)
      ensures !GreedyPasses(std, expected[1..], Without(rem, i))
    {
      AcceptedWithout(std, e, rem, i);
      if Accepts(std, e, rem[i]) && !Within(std, expected[0], e) {
        TooFewFail(std, e, expected[1..], Without(rem, i));
      } else {
        StepLeavesCopy(std, e, a, expected, p, rem, i);
        InFrontWithout(std, e, rem, i);
        IntruderFails(std, e, a, expected[1..], p - 1, Without(rem, i));
      }
    }
  }

  /** A step that takes no call out of turn: it is not the intruder's, and what it leaves
      still holds a copy of `a` beyond what the confined ones before the intruder need. */
  lemma StepLeavesCopy(std: Value -> string, e: Expected, a: Call, expected: seq<Expected>, p: nat, rem: seq<Call>, i: nat)
    requires p < |expected| && Accepts(std, e, a) && Accepts(std, expected[p], a) && !Within(std, expected[p], e)
    requires InFront(std, e, rem) && multiset(rem)[a] > ConfinedTo(std, e, a, expected[..p])
    requires FirstAccepted(std, expected[0], rem, i) && (Accepts(std, e, rem[i]) ==> Within(std, expected[0], e))
    ensures p > 0 && expected[p] == expected[1..][p - 1]
    ensures multiset(Without(rem, i))[a] > ConfinedTo(std, e, a, expected[1..][..p - 1])
    ensures Within(std, expected[0], e) ==> Accepts(std, e, rem[i])
  {
    hide Accepts, Without;
    assert a in rem;
    var n :| 0 <= n < |rem| && rem[n] == a;
    assert Accepts(std, expected[0], a) ==> i <= n;
    assert i <= n ==> Accepts(std, e, rem[i]);
    WithoutMultiset(rem, i);
    assert expected[..p][1..] == expected[1..][..p - 1];
  }

  /** A call for `d`: outside `e` if there is one, else `a` if it will do. */
  ghost function Pick(std: Value -> string, e: Expected, a: Call, d: Expected): (c: Call)
    requires Possible(std, d)
    ensures Accepts(std, d, c)
    ensures Accepts(std, e, c) ==> Within(std, d, e)
    ensures Within(std, d, e) && Accepts(std, d, a) ==> c == a
  {
    if !Within(std, d, e) then
      var c :| Accepts(std, d, c) && !Accepts(std, e, c); c
    else if Accepts(std, d, a) then a
    else
      var c :| Accepts(std, d, c); c
  }

  ghost function Picks(std: Value -> string, e: Expected, a: Call, expected: seq<Expected>): seq<Call>
    requires AllPossible(std, expected)
  {
    if expected == [] then [] else
      assert Possible(std, expected[0]);
      assert forall k :: 0 <= k < |expected| - 1 ==> expected[1..][k] == expected[k + 1];
      [Pick(std, e, a, expected[0])] + Picks(std, e, a, expected[1..])
  }

  /** One call for each expectation, as many for `e` as are confined to it, and as many
      copies of `a` as confined expectations accept it. */
  lemma {:induction false} PicksFulfil(std: Value -> string, e: Expected, a: Call, expected: seq<Expected>)
    requires AllPossible(std, expected) && Accepts(std, e, a)
    ensures Fulfils(std, expected, Picks(std, e, a, expected))
    ensures AcceptedIn(std, e, Picks(std, e, a, expected)) == Confined(std, e, expected)
    ensures multiset(Picks(std, e, a, expected))[a] >= ConfinedTo(std, e, a, expected)
  {
    hide Accepts;
    if expected != [] {
      var rest := Picks(std, e, a, expected[1..]);
      assert Possible(std, expected[0]);
      assert forall k :: 0 <= k < |expected| - 1 ==> expected[1..][k] == expected[k + 1];
      PicksFulfil(std, e, a, expected[1..]);
      FulfilsCons(std, expected, Pick(std, e, a, expected[0]), rest);
      assert Picks(std, e, a, expected)[1..] == rest;
    }
  }

  /** The same calls, with those that `e` accepts moved to the front. */
  ghost function Fronted(std: Value -> string, e: Expected, calls: seq<Call>): seq<Call> {
    if calls == [] then []
    else if Accepts(std, e, calls[0]) then [calls[0]] + Fronted(std, e, calls[1..])
    else Fronted(std, e, calls[1..]) + [calls[0]]
  }

  lemma {:induction false} FrontedIsSame(std: Value -> string, e: Expected, calls: seq<Call>)
    ensures multiset(Fronted(std, e, calls)) == multiset(calls)
    ensures InFront(std, e, Fronted(std, e, calls))
    ensures AcceptedIn(std, e, Fronted(std, e, calls)) == AcceptedIn(std, e, calls)
  {
    hide Accepts;
    if calls != [] {
      var rest := Fronted(std, e, calls[1..]);
      FrontedIsSame(std, e, calls[1..]);
      assert calls == [calls[0]] + calls[1..];
      AcceptedSnoc(std, e, rest, calls[0]);
      assert ([calls[0]] + rest)[1..] == rest;
    }
  }

  lemma {:induction false} ConfinedPrefix(std: Value -> string, e: Expected, a: Call, expected: seq<Expected>, p: nat, k: nat)
    requires p <= k < |expected| && Within(std, expected[k], e) && Accepts(std, expected[k], a)
    ensures ConfinedTo(std, e, a, expected[..p]) < ConfinedTo(std, e, a, expected)
  {
    hide Accepts, Within;
    if p == 0 {
      if k > 0 {
        ConfinedPrefix(std, e, a, expected[1..], 0, k - 1);
      }
    } else {
      ConfinedPrefix(std, e, a, expected[1..], p - 1, k - 1);
      assert expected[..p][1..] == expected[1..][..p - 1];
    }
  }

  /** An earlier expectation that accepts part of what a later one does, and something
      else, is enough for calls that can be assigned but do not pass. */
  lemma CrossingDefeatsGreedy(std: Value -> string, expected: seq<Expected>, j: nat, k: nat)
    returns (rem: seq<Call>)
    requires AllPossible(std, expected) && j < k < |expected|
    requires !Within(std, expected[j], expected[k]) && !Apart(std, expected[j], expected[k])
    ensures |rem| == |expected| && Assignable(std, expected, multiset(rem)) && !GreedyPasses(std, expected, rem)
  {
    hide Accepts, Fulfils, InFront, AllPossible;
    var e := expected[k];
    var a :| Accepts(std, expected[j], a) && Accepts(std, e, a);
    var order := Picks(std, e, a, expected);
    PicksFulfil(std, e, a, expected);
    rem := Fronted(std, e, order);
    FrontedIsSame(std, e, order);
    ConfinedPrefix(std, e, a, expected, j, k);
    IntruderFails(std, e, a, expected, j, rem);
    SameLength(std, expected, order, rem);
  }

  lemma SameLength(std: Value -> string, expected: seq<Expected>, order: seq<Call>, rem: seq<Call>)
    requires Fulfils(std, expected, order) && multiset(order) == multiset(rem)
    ensures |rem| == |expected|
  {
    assert |rem| == |multiset(rem)| == |multiset(order)| == |order|;
  }

  lemma AssignableIsPossible(std: Value -> string, expected: seq<Expected>, calls: multiset<Call>)
    requires Assignable(std, expected, calls)
    ensures AllPossible(std, expected)
  {
    hide Accepts;
    var order :| multiset(order) == calls && Fulfils(std, expected, order);
    forall k | 0 <= k < |expected| ensures Possible(std, expected[k]) {
      assert Accepts(std, expected[k], order[k]);
    }
  }

  /** Greedy matching finds every assignment there is exactly when some expectation can
      never be met, or each earlier expectation is contained in, or has nothing in common
      with, each later one. */
  lemma GreedyCompleteExactly(std: Value -> string, expected: seq<Expected>)
    ensures AlwaysComplete(std, expected) <==> !AllPossible(std, expected) || WidensOrApart(std, expected)
  {
    hide Accepts, GreedyPasses, AllPossible, Assignable;
    forall rem: seq<Call> | Assignable(std, expected, multiset(rem)) ensures AllPossible(std, expected) {
      AssignableIsPossible(std, expected, multiset(rem));
    }
    if WidensOrApart(std, expected) {
      forall rem: seq<Call> | Assignable(std, expected, multiset(rem)) ensures GreedyPasses(std, expected, rem) {
        WidensIsNested(std, expected, multiset(rem));
        GreedyIsComplete(std, expected, rem);
      }
    } else if AllPossible(std, expected) {
      var j, k :| 0 <= j < k < |expected| && !Within(std, expected[j], expected[k]) && !Apart(std, expected[j], expected[k]);
      var rem := CrossingDefeatsGreedy(std, expected, j, k);
    }
  }

  /** And exactly then the verdict never depends on the order of the calls. */
  lemma OrderFreeExactly(std: Value -> string, expected: seq<Expected>)
    ensures AlwaysOrderFree(std, expected) <==> !AllPossible(std, expected) || WidensOrApart(std, expected)
  {
    hide Accepts, GreedyPasses, AllPossible, WidensOrApart, Fulfils;
    GreedyCompleteExactly(std, expected);
    if AlwaysComplete(std, expected) {
      forall rem: seq<Call>, shuffled: seq<Call> |
        |rem| == |expected| && multiset(rem) == multiset(shuffled) && GreedyPasses(std, expected, rem)
        ensures GreedyPasses(std, expected, shuffled)
      {
        GreedyIsSound(std, expected, rem);
      }
    } else {
      var rem: seq<Call> :| Assignable(std, expected, multiset(rem)) && !GreedyPasses(std, expected, rem);
      var order :| multiset(order) == multiset(rem) && Fulfils(std, expected, order);
      InOrderPasses(std, expected, order);
      SameLength(std, expected, order, order);
    }
  }

  // ---- an example ----

  const WIDE := Expected("f", [("a", List([Int(1), Int(2)]))])
  const NARROW := Expected("f", [("a", Int(1))])
  const ONE := Call("f", [("a", Int(1))])
  const TWO := Call("f", [("a", Int(2))])

  lemma WideAcceptsBoth(std: Value -> string)
    ensures Accepts(std, WIDE, ONE) && Accepts(std, WIDE, TWO)
    ensures Accepts(std, NARROW, ONE) && !Accepts(std, NARROW, TWO)
  {
    assert KeyIndex([("a", Int(1))], "a") == 0 && KeyIndex([("a", Int(2))], "a") == 0;
    assert KeyIndex(WIDE.params, "a") == 0;
    var wide := WIDE.params[0].1;
    assert ValueMatches(std, Int(1), wide.items[0]) && ValueMatches(std, Int(2), wide.items[1]);
    assert OneOf(std, Int(1), wide) && OneOf(std, Int(2), wide);
    assert OptionsOf(Int(1))[0] != OPTIONAL;
    assert !OneOf(std, Int(2), Int(1));
    assert !ParamOk(std, TWO.args, NARROW.params[0]);
  }

  /** With overlapping expectations greedy matching can miss an assignment, and then
      the order of the calls decides the verdict. */
  lemma OverlapDefeatsGreedy(std: Value -> string)
    ensures Assignable(std, [WIDE, NARROW], multiset([ONE, TWO]))
    ensures !GreedyPasses(std, [WIDE, NARROW], [ONE, TWO])
    ensures GreedyPasses(std, [WIDE, NARROW], [TWO, ONE])
  {
    hide Accepts, ParamOk, OneOf, Fulfils, Without, KeyIndex;
    WideAcceptsBoth(std);
    OverlapAssignable(std);
    PairWithout(ONE, TWO);
    PairWithout(TWO, ONE);
    assert [WIDE, NARROW][1..] == [NARROW] && [NARROW][1..] == [];
    GreedyStep(std, [WIDE, NARROW], [ONE, TWO], 0);
    GreedyStuck(std, [NARROW], [TWO]);
    GreedyStep(std, [WIDE, NARROW], [TWO, ONE], 0);
    GreedyStep(std, [NARROW], [ONE], 0);
  }

  lemma PairWithout<T>(a: T, b: T)
    ensures Without([a, b], 0) == [b]
  {
  }

  lemma OverlapAssignable(std: Value -> string)
    ensures Assignable(std, [WIDE, NARROW], multiset([ONE, TWO]))
  {
    hide Accepts;
    WideAcceptsBoth(std);
    assert Fulfils(std, [WIDE, NARROW], [TWO, ONE]);
    assert multiset([TWO, ONE]) == multiset([ONE, TWO]);
  }
}

/** Sliding windows of recent tool calls: what is recorded, what counts as a repeat,
    and how far apart three related records must lie. */
module RepeatWindow {
  import opened Text

  /** How many recorded entries the duplicate gates keep. */
  const WINDOW := 20

  /** An exact call: its signature and the mutation generation it ran in. */
  datatype Key = Key(sig: string, gen: nat)

  /** A query call: tool, generation, argument tokens and boolean flags. */
  datatype Query = Query(tool: string, gen: nat, tokens: set<string>, flags: set<string>)

  predicate SameKey(a: Key, b: Key) { a == b }

  /** `part / whole` for a part that is no larger than the whole. */
  function Share(part: nat, whole: nat): (r: real)
    requires part <= whole && whole > 0
    ensures 0.0 <= r <= 1.0 && r * whole as real == part as real
  {
    ShareBounds(part as real, whole as real);
    part as real / whole as real
  }

  lemma ShareBounds(part: real, whole: real)
    requires 0.0 <= part <= whole && whole > 0.0
    ensures 0.0 <= part / whole <= 1.0 && (part / whole) * whole == part
  {
  }

  function Jaccard(a: set<string>, b: set<string>): (r: real)
    ensures 0.0 <= r <= 1.0
    ensures r * |a + b| as real == |a * b| as real
  {
    if a == {} || b == {} then
      assert a * b == {};
      0.0
    else
      SubsetSize(a * b, a + b);
      assert a <= a + b && a + b != {};
      Share(|a * b|, |a + b|)
  }

  lemma RatioEnds(r: real, part: nat, whole: nat)
    requires whole > 0 && r * whole as real == part as real
    ensures (r == 0.0 <==> part == 0) && (r == 1.0 <==> part == whole)
  {
    Cancels(r, 0.0, whole as real);
    Cancels(r, 1.0, whole as real);
  }

  lemma Cancels(r: real, s: real, whole: real)
    requires whole > 0.0
    ensures r * whole == s * whole <==> r == s
  {
    assert (r - s) * whole == r * whole - s * whole;
  }

  lemma SameBothAny(a: set<string>, b: set<string>)
    ensures a * b == a + b <==> a == b
  {
    if a == b {
      assert a * b == a && a + b == a;
    }
    if a * b == a + b {
      assert a <= a + b && b <= a + b;
      assert a <= b && b <= a;
    }
  }

  lemma ApartMeans(a: set<string>, b: set<string>)
    ensures |a * b| == 0 <==> a !! b
  {
    if a !! b {
      assert forall x :: x !in a * b;
      assert a * b == {};
    } else {
      var x :| x in a && x in b;
      assert x in a * b;
    }
  }

  lemma Overlap(a: set<string>, b: set<string>)
    ensures |a * b| == 0 <==> a !! b
    ensures a != {} ==> |a + b| > 0 && |a * b| <= |a + b| && (|a * b| == |a + b| <==> a == b)
  {
    var both, any := a * b, a + b;
    SubsetSize(both, any);
    ApartMeans(a, b);
    SameBothAny(a, b);
    if a != {} {
      assert a <= any && any != {};
      if both != any {
        assert both < any;
        SmallerSet(both, any);
      }
    }
  }

  /** What the similarity tells apart: nothing in common, and the same tokens. */
  lemma JaccardEnds(a: set<string>, b: set<string>)
    ensures Jaccard(a, b) == 0.0 <==> a !! b
    ensures Jaccard(a, b) == 1.0 <==> a == b && a != {}
    ensures Jaccard(a, b) == Jaccard(b, a)
  {
    assert b * a == a * b && b + a == a + b;
    Overlap(a, b);
    if a != {} && b != {} {
      RatioEnds(Jaccard(a, b), |a * b|, |a + b|);
    }
  }

  predicate SimilarQuery(a: Query, b: Query, threshold: real) {
    a.tool == b.tool && a.gen == b.gen && a.flags == b.flags && Jaccard(a.tokens, b.tokens) >= threshold
  }

  function Alike(threshold: real): (Query, Query) -> bool {
    (a, b) => SimilarQuery(a, b, threshold)
  }

  /** How many entries of `s` are related to `x`. */
  function Count<T>(s: seq<T>, related: (T, T) -> bool, x: T): nat {
    if s == [] then 0 else
      Count(s[..|s| - 1], related, x) + if related(s[|s| - 1], x) then 1 else 0
  }

  /** Two different entries of `s` are related to `x`. */
  ghost predicate Twice<T>(s: seq<T>, related: (T, T) -> bool, x: T) {
    exists i, j :: 0 <= i < j < |s| && related(s[i], x) && related(s[j], x)
  }

  lemma {:induction false} CountOne<T>(s: seq<T>, related: (T, T) -> bool, x: T)
    ensures Count(s, related, x) >= 1 <==> exists i :: 0 <= i < |s| && related(s[i], x)
  {
    if s != [] {
      var init := s[..|s| - 1];
      CountOne(init, related, x);
      if i :| 0 <= i < |s| && related(s[i], x) {
        assert i < |init| ==> related(init[i], x);
      }
      if i :| 0 <= i < |init| && related(init[i], x) {
        assert related(s[i], x);
      }
    }
  }

  lemma {:induction false} CountTwo<T>(s: seq<T>, related: (T, T) -> bool, x: T)
    ensures Count(s, related, x) >= 2 <==> Twice(s, related, x)
  {
    if s != [] {
      var init := s[..|s| - 1];
      CountTwo(init, related, x);
      CountOne(init, related, x);
      if i, j :| 0 <= i < j < |s| && related(s[i], x) && related(s[j], x) {
        assert related(init[i], x);
        assert j < |init| ==> related(init[j], x) && Twice(init, related, x);
      }
      if Twice(init, related, x) {
        var i, j :| 0 <= i < j < |init| && related(init[i], x) && related(init[j], x);
        assert related(s[i], x) && related(s[j], x);
      } else if i :| 0 <= i < |init| && related(init[i], x) {
        assert related(s[i], x);
      }
    }
  }

  /** No entry is related to two of the twenty entries recorded before it. */
  ghost predicate Spaced<T>(log: seq<T>, related: (T, T) -> bool) {
    forall i, j, k :: 0 <= i < j < k < |log| && related(log[i], log[k]) && related(log[j], log[k]) ==> k - i > WINDOW
  }

  lemma SpacedAt<T>(log: seq<T>, related: (T, T) -> bool, i: nat, j: nat, k: nat)
    requires Spaced(log, related) && i < j < k < |log|
    ensures related(log[i], log[k]) && related(log[j], log[k]) ==> k - i > WINDOW
  {
  }

  /** A position inside the window, seen from the whole log. */
  lemma InLast<T>(s: seq<T>, n: nat, i: nat)
    requires |s| - n <= i < |s|
    ensures var w := Last(s, n); 0 <= i - (|s| - |w|) < |w| && w[i - (|s| - |w|)] == s[i]
  {
  }

  lemma RelativesAreOld<T>(log: seq<T>, related: (T, T) -> bool, x: T, i: nat, j: nat)
    requires !Twice(Last(log, WINDOW), related, x)
    requires i < j < |log| && related(log[i], x) && related(log[j], x)
    ensures |log| - i > WINDOW
  {
    if |log| - i <= WINDOW {
      InLast(log, WINDOW, i);
      InLast(log, WINDOW, j);
    }
  }

  /** Recording only what has at most one relative in the window keeps the log spaced. */
  lemma RecordKeepsSpaced<T>(log: seq<T>, related: (T, T) -> bool, x: T)
    requires Spaced(log, related) && !Twice(Last(log, WINDOW), related, x)
    ensures Spaced(log + [x], related)
  {
    hide Twice, Last;
    var next := log + [x];
    forall i, j, k | 0 <= i < j < k < |next| && related(next[i], next[k]) && related(next[j], next[k])
      ensures k - i > WINDOW
    {
      if k < |log| {
        SpacedAt(log, related, i, j, k);
      } else {
        RelativesAreOld(log, related, x, i, j);
      }
    }
  }

  /** `window.count(key)`: how often this very call, in this very generation, is recorded. */
  lemma {:induction false} CountIsExact(window: seq<Key>, key: Key)
    ensures Count(window, SameKey, key) == multiset(window)[key]
  {
    if window != [] {
      var init, last := window[..|window| - 1], window[|window| - 1];
      CountIsExact(init, key);
      assert window == init + [last];
    }
  }

  /** A query and an earlier one of the same tool, generation and flags, whose tokens overlap
      by at least the threshold. */
  ghost predicate Rewords(earlier: Query, q: Query, threshold: real) {
    && earlier.tool == q.tool && earlier.gen == q.gen && earlier.flags == q.flags
    && Jaccard(earlier.tokens, q.tokens) >= threshold
  }

  /** Two entries of the window are such earlier queries. */
  ghost predicate TwoReworded(window: seq<Query>, q: Query, threshold: real) {
    exists i, j :: 0 <= i < j < |window| && Rewords(window[i], q, threshold) && Rewords(window[j], q, threshold)
  }

  lemma TwiceIsReworded(window: seq<Query>, q: Query, threshold: real)
    ensures Twice(window, Alike(threshold), q) <==> TwoReworded(window, q, threshold)
  {
    hide Jaccard;
    if i, j :| 0 <= i < j < |window| && Rewords(window[i], q, threshold) && Rewords(window[j], q, threshold) {
      assert Alike(threshold)(window[i], q) && Alike(threshold)(window[j], q);
    }
  }

  /** What the spacing means for exact calls: in any 21 consecutive recorded calls no
      signature and generation occurs three times. */
  lemma NoTriple(log: seq<Key>, from: nat, key: Key)
    requires Spaced(log, SameKey) && from + 21 <= |log|
    ensures Count(log[from..from + 21], SameKey, key) <= 2
  {
    hide Spaced, Count;
    var w := log[from..from + 21];
    forall i, j, k | 0 <= i < j < k < |w|
      ensures !(SameKey(w[i], key) && SameKey(w[j], key) && SameKey(w[k], key))
    {
      SpacedAt(log, SameKey, from + i, from + j, from + k);
    }
    CountThree(w, SameKey, key);
  }

  ghost predicate Thrice<T>(s: seq<T>, related: (T, T) -> bool, x: T) {
    exists i, j, k :: 0 <= i < j < k < |s| && related(s[i], x) && related(s[j], x) && related(s[k], x)
  }

  lemma OneMore<T>(init: seq<T>, last: T, related: (T, T) -> bool, x: T)
    ensures Thrice(init, related, x) ==> Thrice(init + [last], related, x)
    ensures Twice(init, related, x) && related(last, x) ==> Thrice(init + [last], related, x)
  {
    var s := init + [last];
    if i, j, k :| 0 <= i < j < k < |init| && related(init[i], x) && related(init[j], x) && related(init[k], x) {
      assert related(s[i], x) && related(s[j], x) && related(s[k], x);
    }
    if related(last, x) {
      if i, j :| 0 <= i < j < |init| && related(init[i], x) && related(init[j], x) {
        assert related(s[i], x) && related(s[j], x) && related(s[|init|], x);
      }
    }
  }

  lemma {:induction false} CountThree<T>(s: seq<T>, related: (T, T) -> bool, x: T)
    ensures Count(s, related, x) >= 3 ==> Thrice(s, related, x)
  {
    hide Thrice, Twice;
    if s != [] {
      var init := s[..|s| - 1];
      CountThree(init, related, x);
      CountTwo(init, related, x);
      OneMore(init, s[|s| - 1], related, x);
      assert init + [s[|s| - 1]] == s;
    }
  }
}

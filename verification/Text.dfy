/** String operations shared by the models: the parts of Python's `str` that the
    runtime relies on, each with the property its users need. */
module Text {

  datatype Option<+T> = None | Some(value: T)

  /** True when `t` occurs in `s` starting at position `i`. */
  predicate At(s: string, i: nat, t: string) {
    i + |t| <= |s| && s[i..i + |t|] == t
  }

  lemma AtChar(s: string, i: nat, t: string, k: nat)
    requires At(s, i, t) && k < |t|
    ensures s[i + k] == t[k]
  {
    assert s[i..i + |t|][k] == s[i + k];
  }

  lemma AtByChar(s: string, i: nat, t: string)
    requires i + |t| <= |s| && forall k :: 0 <= k < |t| ==> s[i + k] == t[k]
    ensures At(s, i, t)
  {
  }

  lemma NotAt(s: string, i: nat, t: string, k: nat)
    requires k < |t| && i + k < |s| && s[i + k] != t[k]
    ensures !At(s, i, t)
  {
    if i + |t| <= |s| {
      assert s[i..i + |t|][k] != t[k];
    }
  }

  /** Of two overlapping occurrences, the one inside the other occurs in it. */
  lemma AtInside(s: string, i: nat, outer: string, j: nat, inner: string)
    requires At(s, i, outer) && At(s, j, inner)
    requires i <= j && j + |inner| <= i + |outer|
    ensures At(outer, j - i, inner)
  {
    forall k | 0 <= k < |inner| ensures outer[j - i + k] == inner[k] {
      AtChar(s, j, inner, k);
      AtChar(s, i, outer, j - i + k);
    }
    AtByChar(outer, j - i, inner);
  }

  lemma AtPrefix(s: string, rest: string, i: nat, t: string)
    requires i + |t| <= |s|
    ensures At(s + rest, i, t) == At(s, i, t)
  {
    assert (s + rest)[i..i + |t|] == s[i..i + |t|];
  }

  lemma AtShift(s: string, d: nat, i: nat, t: string)
    requires d <= |s|
    ensures At(s[d..], i, t) == At(s, d + i, t)
  {
    if d + i + |t| <= |s| {
      assert s[d..][i..i + |t|] == s[d + i..d + i + |t|];
    }
  }

  lemma Regroup<T>(a: seq<T>, b: seq<T>, c: seq<T>)
    ensures (a + b) + c == a + (b + c)
  {
  }

  lemma CutInFirst<T>(a: seq<T>, b: seq<T>, n: nat)
    requires n <= |a|
    ensures (a + b)[..n] == a[..n] && (a + b)[n..] == a[n..] + b
  {
  }

  lemma {:induction false} SubsetSize<T>(a: set<T>, b: set<T>)
    requires a <= b
    ensures |a| <= |b|
  {
    if a != {} {
      var x :| x in a;
      SubsetSize(a - {x}, b - {x});
    }
  }

  lemma SmallerSet<T>(a: set<T>, b: set<T>)
    requires a < b
    ensures |a| < |b|
  {
    assert !(b <= a);
    var x :| x in b && x !in a;
    SubsetSize(a, b - {x});
  }

  /** `s.find(t)`: the leftmost occurrence, or -1. */
  function Find(s: string, t: string): (r: int)
    ensures -1 <= r <= |s|
    ensures r >= 0 ==> At(s, r, t)
    ensures forall i: nat :: i < r ==> !At(s, i, t)
    ensures r == -1 ==> forall i: nat :: !At(s, i, t)
  {
    LeftmostExists(s, t);
    var r: int :| -1 <= r <= |s| && Leftmost(s, t, r);
    r
  }

  predicate Leftmost(s: string, t: string, r: int) {
    && (r >= 0 ==> At(s, r, t))
    && (forall i :: 0 <= i <= |s| && (i < r || r < 0) ==> !At(s, i, t))
  }

  lemma {:induction false} LeftmostBelow(s: string, t: string, n: nat)
    requires exists i: nat :: i < n && At(s, i, t)
    ensures exists r: nat :: r < n && Leftmost(s, t, r)
  {
    if exists i: nat :: i < n - 1 && At(s, i, t) {
      LeftmostBelow(s, t, n - 1);
    } else {
      assert Leftmost(s, t, n - 1);
    }
  }

  lemma LeftmostExists(s: string, t: string)
    ensures exists r: int :: -1 <= r <= |s| && Leftmost(s, t, r)
  {
    if exists i: nat :: i < |s| + 1 && At(s, i, t) {
      LeftmostBelow(s, t, |s| + 1);
    } else {
      assert Leftmost(s, t, -1);
    }
  }

  /** `t in s`. */
  predicate Contains(s: string, t: string) {
    Find(s, t) >= 0
  }

  /** `"".join(parts)`. */
  function Joined(parts: seq<string>): string {
    if parts == [] then "" else Joined(parts[..|parts| - 1]) + parts[|parts| - 1]
  }

  lemma JoinedSnoc(parts: seq<string>, s: string)
    ensures Joined(parts + [s]) == Joined(parts) + s
  {
    assert (parts + [s])[..|parts|] == parts;
  }

  /** The characters `str.strip()` removes. */
  predicate IsSpace(c: char) {
    || '\t' <= c <= '\r'
    || '\U{1c}' <= c <= ' '
    || c == '\U{85}' || c == '\U{a0}' || c == '\U{1680}'
    || '\U{2000}' <= c <= '\U{200a}'
    || c == '\U{2028}' || c == '\U{2029}' || c == '\U{202f}' || c == '\U{205f}' || c == '\U{3000}'
  }

  predicate Blank(s: string) {
    forall i :: 0 <= i < |s| ==> IsSpace(s[i])
  }

  lemma {:induction false} EndsExist(s: string)
    requires !Blank(s)
    ensures exists a :: 0 <= a < |s| && IsFirst(s, a)
    ensures exists b :: 0 <= b < |s| && IsLast(s, b)
  {
    var n := |s| - 1;
    if !IsSpace(s[n]) {
      assert IsLast(s, n);
    } else {
      assert !Blank(s[..n]);
      EndsExist(s[..n]);
      var b :| 0 <= b < n && IsLast(s[..n], b);
      assert IsLast(s, b);
    }
    if Blank(s[..n]) {
      assert forall i :: 0 <= i < n ==> s[..n][i] == s[i];
      assert IsFirst(s, n);
    } else {
      EndsExist(s[..n]);
      var a :| 0 <= a < n && IsFirst(s[..n], a);
      assert forall i :: 0 <= i < n ==> s[..n][i] == s[i];
      assert IsFirst(s, a);
    }
  }

  predicate IsFirst(s: string, a: int)
    requires 0 <= a < |s|
  {
    !IsSpace(s[a]) && forall i :: 0 <= i < a ==> IsSpace(s[i])
  }

  predicate IsLast(s: string, b: int)
    requires 0 <= b < |s|
  {
    !IsSpace(s[b]) && forall i :: b < i < |s| ==> IsSpace(s[i])
  }

  /** Positions of the first and the last character that is not white space. */
  function Ends(s: string): (r: (int, int))
    requires !Blank(s)
    ensures 0 <= r.0 <= r.1 < |s| && IsFirst(s, r.0) && IsLast(s, r.1)
  {
    EndsExist(s);
    var a :| 0 <= a < |s| && IsFirst(s, a);
    var b :| 0 <= b < |s| && IsLast(s, b);
    (a, b)
  }

  /** `s.strip()`. */
  function Strip(s: string): (r: string)
    ensures |r| <= |s|
    ensures r == "" <==> Blank(s)
    ensures Stripped(r)
  {
    if Blank(s) then "" else s[Ends(s).0..Ends(s).1 + 1]
  }

  /** Text with no outer white space. */
  predicate Stripped(s: string) {
    s == "" || (!IsSpace(s[0]) && !IsSpace(s[|s| - 1]))
  }

  lemma StripFixpoint(s: string)
    requires Stripped(s)
    ensures Strip(s) == s
  {
    if s != "" {
      assert s[0..|s|] == s;
    }
  }

  /** Stripping takes white space off both ends and nothing else. */
  lemma StripIs(s: string)
    ensures exists n, m :: 0 <= n <= m <= |s| && Strip(s) == s[n..m] && Blank(s[..n]) && Blank(s[m..])
  {
    if Blank(s) {
      assert Strip(s) == s[0..0] && s[0..] == s;
    } else {
      var (a, b) := Ends(s);
      assert Strip(s) == s[a..b + 1] && Blank(s[..a]) && Blank(s[b + 1..]);
    }
  }

  lemma StripIdempotent(s: string)
    ensures Strip(Strip(s)) == Strip(s)
  {
    StripFixpoint(Strip(s));
  }

  /** Appending changes the stripped text exactly when more than white space is appended. */
  lemma StripAppend(s: string, more: string)
    ensures Strip(s + more) == Strip(s) <==> Blank(more)
  {
    var all := s + more;
    assert forall i :: 0 <= i < |s| ==> all[i] == s[i];
    assert forall i :: 0 <= i < |more| ==> all[|s| + i] == more[i];
    if Blank(s) {
      assert Blank(all) <==> Blank(more);
    } else {
      assert !IsSpace(all[Ends(s).0]);
      assert Ends(all).0 == Ends(s).0;
      if Blank(more) {
        assert Ends(all).1 == Ends(s).1;
        assert Strip(all) == Strip(s);
      } else {
        assert !IsSpace(all[|s| + Ends(more).1]);
        assert Ends(all).1 >= |s|;
        assert |Strip(all)| > |Strip(s)|;
      }
    }
  }

  /** Stripping only takes a slice, so it cannot create an occurrence of `t`. */
  lemma StripKeepsAbsence(s: string, t: string)
    requires Find(s, t) == -1 && t != ""
    ensures Find(Strip(s), t) == -1
  {
    if !Blank(s) {
      SliceKeepsAbsence(s, t, Ends(s).0, Ends(s).1 + 1);
    }
  }

  lemma AtSlice(s: string, t: string, from: nat, to: nat, i: nat)
    requires from <= to <= |s| && At(s[from..to], i, t)
    ensures At(s, from + i, t)
  {
    forall k | 0 <= k < |t| ensures s[from + i + k] == t[k] {
      AtChar(s[from..to], i, t, k);
    }
    AtByChar(s, from + i, t);
  }

  lemma SliceKeepsAbsence(s: string, t: string, from: nat, to: nat)
    requires from <= to <= |s| && Find(s, t) == -1
    ensures Find(s[from..to], t) == -1
  {
    var i := Find(s[from..to], t);
    if i >= 0 {
      AtSlice(s, t, from, to, i);
      assert false;
    }
  }

  /** The last `n` elements of `s` (`s[-n:]` for a positive n). */
  function Last<T>(s: seq<T>, n: nat): (r: seq<T>)
    ensures |r| <= n
  {
    if |s| <= n then s else s[|s| - n..]
  }

  lemma LastOfLast<T>(a: seq<T>, b: seq<T>, n: nat)
    ensures Last(Last(a, n) + b, n) == Last(a + b, n)
  {
    var x := Last(a, n) + b;
    var y := a + b;
    assert |a| <= n ==> x == y;
    if |a| > n {
      assert x == y[|a| - n..];
    }
  }
}

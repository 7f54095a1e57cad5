/** Harness overlays: validated snapshots of prompt, skill, tool and config edits,
    and the merge that layers one on another. */
module Overlay {
  import opened Text

  const MAX_PROMPT := 30000
  const MAX_NAMED := 100
  const MAX_CONFIG := 50
  const MAX_NAME := 100
  const MAX_ITEM := 10000

  /** The whitelisted config keys. */
  datatype ConfigKey =
    | BudgetsMaxIterations | BudgetsMaxWallClock | BudgetsMaxCost | BudgetsMaxTotalTokens
    | LoopGuardMaxRejections | ArchitectThreshold
    | EvalMaxCost | EvalSuiteMaxCost | EvalAdaptiveMaxTurns

  /** A config name as it arrives: a whitelisted key, or anything else. */
  datatype ConfigName = Allowed(key: ConfigKey) | NotAllowed(name: string)

  /** An overlay in its canonical stored shape. Config values are finite numbers. */
  datatype Overlay = Overlay(
    prompt: string, skills: map<string, string>, tools: map<string, string>, config: map<ConfigKey, real>)

  /** An overlay as it arrives: objects are their key/value pairs in order. */
  datatype RawOverlay = RawOverlay(
    prompt: string, skills: seq<(string, string)>, tools: seq<(string, string)>, config: seq<(ConfigName, real)>)

  const EMPTY := Overlay("", map[], map[], map[])

  predicate NameOk(name: string) { !Blank(name) && |name| <= MAX_NAME }

  predicate ItemOk(item: string) { !Blank(item) && |item| <= MAX_ITEM }

  /** Keys are accepted as given and stored stripped; a later pair wins. */
  function CleanNamed(pairs: seq<(string, string)>): Option<map<string, string>> {
    if pairs == [] then Some(map[])
    else
      var (name, item) := pairs[|pairs| - 1];
      var front := CleanNamed(pairs[..|pairs| - 1]);
      if front.Some? && NameOk(name) && ItemOk(item)
      then Some(front.value[Strip(name) := item])
      else None
  }

  function CleanConfig(pairs: seq<(ConfigName, real)>): Option<map<ConfigKey, real>> {
    if pairs == [] then Some(map[])
    else
      var (name, value) := pairs[|pairs| - 1];
      var front := CleanConfig(pairs[..|pairs| - 1]);
      if front.Some? && name.Allowed?
      then Some(front.value[name.key := value])
      else None
  }

  /** Validation: None is the ValueError. */
  function Clean(raw: RawOverlay): Option<Overlay> {
    if |raw.prompt| > MAX_PROMPT || |raw.skills| > MAX_NAMED || |raw.tools| > MAX_NAMED || |raw.config| > MAX_CONFIG
    then None
    else
      var skills, tools, config := CleanNamed(raw.skills), CleanNamed(raw.tools), CleanConfig(raw.config);
      if skills.Some? && tools.Some? && config.Some?
      then Some(Overlay(Strip(raw.prompt), skills.value, tools.value, config.value))
      else None
  }

  // ---- the canonical shape ----

  predicate CanonicalNamed(m: map<string, string>) {
    forall k :: k in m ==> Stripped(k) && k != "" && |k| <= MAX_NAME && !Blank(m[k])
  }

  /** Everything about a stored snapshot except its size limits. */
  predicate Canonical(o: Overlay) {
    Stripped(o.prompt) && CanonicalNamed(o.skills) && CanonicalNamed(o.tools)
  }

  predicate ItemsFit(m: map<string, string>) {
    |m| <= MAX_NAMED && ShortItems(m)
  }

  /** The size limits. */
  predicate Fits(o: Overlay) {
    |o.prompt| <= MAX_PROMPT && ItemsFit(o.skills) && ItemsFit(o.tools)
  }

  predicate Valid(o: Overlay) { Canonical(o) && Fits(o) }

  /** `pairs` lists exactly the entries of `m`, each key once. */
  ghost predicate Lists<K, V>(pairs: seq<(K, V)>, m: map<K, V>) {
    && |pairs| == |m|
    && (forall i :: 0 <= i < |pairs| ==> pairs[i].0 in m && m[pairs[i].0] == pairs[i].1)
    && (forall i, j :: 0 <= i < j < |pairs| ==> pairs[i].0 != pairs[j].0)
  }

  ghost predicate ListsConfig(pairs: seq<(ConfigName, real)>, m: map<ConfigKey, real>) {
    && |pairs| == |m|
    && (forall i :: 0 <= i < |pairs| ==>
          pairs[i].0.Allowed? && pairs[i].0.key in m && m[pairs[i].0.key] == pairs[i].1)
    && (forall i, j :: 0 <= i < j < |pairs| ==> pairs[i].0 != pairs[j].0)
  }

  ghost predicate ListsOverlay(raw: RawOverlay, o: Overlay) {
    raw.prompt == o.prompt && Lists(raw.skills, o.skills) && Lists(raw.tools, o.tools) && ListsConfig(raw.config, o.config)
  }

  lemma {:induction false} CleanNamedCanonical(pairs: seq<(string, string)>)
    ensures CleanNamed(pairs).Some? ==>
      var m := CleanNamed(pairs).value;
      CanonicalNamed(m) && |m| <= |pairs| && forall k :: k in m ==> |m[k]| <= MAX_ITEM
  {
    if pairs != [] { CleanNamedCanonical(pairs[..|pairs| - 1]); }
  }

  /** Whatever passes validation is a canonical snapshot within the size limits. */
  lemma CleanIsValid(raw: RawOverlay)
    ensures Clean(raw).Some? ==> Valid(Clean(raw).value)
  {
    CleanNamedCanonical(raw.skills);
    CleanNamedCanonical(raw.tools);
  }

  /** A name and a text of the permitted length that are not blank. */
  ghost predicate NameAndText(pair: (string, string)) {
    Strip(pair.0) != "" && |pair.0| <= 100 && Strip(pair.1) != "" && |pair.1| <= 10000
  }

  /** The last pair whose stripped name is `k` is at `i`. */
  ghost predicate LastNamed(pairs: seq<(string, string)>, k: string, i: nat) {
    i < |pairs| && Strip(pairs[i].0) == k && forall j :: i < j < |pairs| ==> Strip(pairs[j].0) != k
  }

  /** `m` maps every name, stripped, to the text of the last pair with that name. */
  ghost predicate LastTexts(pairs: seq<(string, string)>, m: map<string, string>) {
    && (forall k :: k in m ==> exists i: nat :: LastNamed(pairs, k, i))
    && (forall k, i: nat :: i < |pairs| && LastNamed(pairs, k, i) ==> k in m && m[k] == pairs[i].1)
  }

  lemma {:induction false} CleanNamedIs(pairs: seq<(string, string)>)
    ensures CleanNamed(pairs).Some? <==> forall i :: 0 <= i < |pairs| ==> NameAndText(pairs[i])
    ensures CleanNamed(pairs).Some? ==> LastTexts(pairs, CleanNamed(pairs).value)
  {
    hide Strip, NameAndText, NameOk, ItemOk, LastTexts;
    if pairs == [] {
      NothingNamed();
    } else {
      var n := |pairs| - 1;
      CleanNamedIs(pairs[..n]);
      NameAndTextIs(pairs[n]);
      if CleanNamed(pairs).Some? {
        LastTextsNext(pairs, CleanNamed(pairs[..n]).value);
      }
    }
  }

  lemma NothingNamed()
    ensures LastTexts([], map[])
  {
  }

  lemma NameAndTextIs(pair: (string, string))
    ensures NameAndText(pair) <==> NameOk(pair.0) && ItemOk(pair.1)
  {
  }

  lemma LastNamedNext(pairs: seq<(string, string)>, k: string, i: nat)
    requires pairs != []
    ensures var n := |pairs| - 1;
      LastNamed(pairs, k, i) <==>
        if i == n then k == Strip(pairs[n].0) else k != Strip(pairs[n].0) && LastNamed(pairs[..n], k, i)
  {
    hide Strip;
  }

  lemma LastTextsNext(pairs: seq<(string, string)>, m: map<string, string>)
    requires pairs != [] && LastTexts(pairs[..|pairs| - 1], m)
    ensures LastTexts(pairs, m[Strip(pairs[|pairs| - 1].0) := pairs[|pairs| - 1].1])
  {
    hide Strip, LastNamed;
    var n := |pairs| - 1;
    var name := Strip(pairs[n].0);
    var next := m[name := pairs[n].1];
    forall k | k in next ensures exists i: nat :: LastNamed(pairs, k, i) {
      if k == name {
        LastNamedNext(pairs, k, n);
      } else {
        var i: nat :| LastNamed(pairs[..n], k, i);
        NamedInside(pairs[..n], k, i);
        LastNamedNext(pairs, k, i);
      }
    }
    forall k, i: nat | i < |pairs| && LastNamed(pairs, k, i) ensures k in next && next[k] == pairs[i].1 {
      LastNamedNext(pairs, k, i);
    }
  }

  lemma NamedInside(pairs: seq<(string, string)>, k: string, i: nat)
    requires LastNamed(pairs, k, i)
    ensures i < |pairs|
  {
  }

  lemma {:induction false} CleanConfigIs(pairs: seq<(ConfigName, real)>)
    ensures CleanConfig(pairs).Some? <==> forall i :: 0 <= i < |pairs| ==> pairs[i].0.Allowed?
    ensures CleanConfig(pairs).Some? ==>
      var m := CleanConfig(pairs).value;
      forall i :: 0 <= i < |pairs| && (forall j :: i < j < |pairs| ==> pairs[j].0 != pairs[i].0) ==>
        pairs[i].0.key in m && m[pairs[i].0.key] == pairs[i].1
  {
    if pairs != [] {
      CleanConfigIs(pairs[..|pairs| - 1]);
    }
  }

  /** What validation accepts and what it makes of it. */
  lemma CleanIs(raw: RawOverlay)
    ensures Clean(raw).Some? <==>
      && |raw.prompt| <= 30000 && |raw.skills| <= 100 && |raw.tools| <= 100 && |raw.config| <= 50
      && (forall i :: 0 <= i < |raw.skills| ==> NameAndText(raw.skills[i]))
      && (forall i :: 0 <= i < |raw.tools| ==> NameAndText(raw.tools[i]))
      && forall i :: 0 <= i < |raw.config| ==> raw.config[i].0.Allowed?
    ensures Clean(raw).Some? ==>
      var o := Clean(raw).value;
      && o.prompt == Strip(raw.prompt) && LastTexts(raw.skills, o.skills) && LastTexts(raw.tools, o.tools)
      && forall i :: 0 <= i < |raw.config| && (forall j :: i < j < |raw.config| ==> raw.config[j].0 != raw.config[i].0) ==>
           raw.config[i].0.key in o.config && o.config[raw.config[i].0.key] == raw.config[i].1
  {
    hide CleanNamed, CleanConfig, NameAndText, LastTexts, Strip;
    CleanNamedIs(raw.skills);
    CleanNamedIs(raw.tools);
    CleanConfigIs(raw.config);
  }

  /** The entries of a listing's front, which leaves out the last key. */
  lemma ListsFront<K, V>(pairs: seq<(K, V)>, m: map<K, V>)
    requires Lists(pairs, m) && pairs != []
    ensures var (k, v) := pairs[|pairs| - 1];
      k in m && m[k] == v && Lists(pairs[..|pairs| - 1], m - {k}) && (m - {k})[k := v] == m
  {
    var (k, v) := pairs[|pairs| - 1];
    assert (m - {k}).Keys == m.Keys - {k};
    assert |m - {k}| == |(m - {k}).Keys| == |m.Keys| - 1;
  }

  predicate ShortItems(m: map<string, string>) {
    forall k :: k in m ==> |m[k]| <= MAX_ITEM
  }

  lemma {:induction false} CleanNamedFixpoint(pairs: seq<(string, string)>, m: map<string, string>)
    requires Lists(pairs, m) && CanonicalNamed(m)
    ensures CleanNamed(pairs) == if ShortItems(m) then Some(m) else None
  {
    if pairs == [] {
      assert m.Keys == {};
    } else {
      ListsFront(pairs, m);
      var k := pairs[|pairs| - 1].0;
      CleanNamedFixpoint(pairs[..|pairs| - 1], m - {k});
      StripFixpoint(k);
      assert ShortItems(m) <==> ShortItems(m - {k}) && |m[k]| <= MAX_ITEM;
    }
  }

  lemma {:induction false} CleanConfigFixpoint(pairs: seq<(ConfigName, real)>, m: map<ConfigKey, real>)
    requires ListsConfig(pairs, m)
    ensures CleanConfig(pairs) == Some(m)
  {
    if pairs == [] {
      assert m.Keys == {};
    } else {
      var k := pairs[|pairs| - 1].0.key;
      assert (m - {k}).Keys == m.Keys - {k};
      assert |m - {k}| == |(m - {k}).Keys| == |m.Keys| - 1;
      assert (m - {k})[k := m[k]] == m;
      CleanConfigFixpoint(pairs[..|pairs| - 1], m - {k});
    }
  }

  lemma ConfigSmall(m: map<ConfigKey, real>)
    ensures |m| <= MAX_CONFIG
  {
    var all := {BudgetsMaxIterations, BudgetsMaxWallClock, BudgetsMaxCost, BudgetsMaxTotalTokens,
                LoopGuardMaxRejections, ArchitectThreshold, EvalMaxCost, EvalSuiteMaxCost, EvalAdaptiveMaxTurns};
    forall k | k in m.Keys ensures k in all {
      match k {
        case BudgetsMaxIterations => case BudgetsMaxWallClock => case BudgetsMaxCost =>
        case BudgetsMaxTotalTokens => case LoopGuardMaxRejections => case ArchitectThreshold =>
        case EvalMaxCost => case EvalSuiteMaxCost => case EvalAdaptiveMaxTurns =>
      }
    }
    SubsetSize(m.Keys, all);
    assert |m| == |m.Keys|;
  }

  /** Validating a canonical overlay only checks its sizes, in whatever order its
      entries are listed; what it returns is the overlay itself. */
  lemma CleanCanonical(raw: RawOverlay, o: Overlay)
    requires ListsOverlay(raw, o) && Canonical(o)
    ensures Clean(raw) == if Fits(o) then Some(o) else None
  {
    CleanNamedFixpoint(raw.skills, o.skills);
    CleanNamedFixpoint(raw.tools, o.tools);
    CleanConfigFixpoint(raw.config, o.config);
    ConfigSmall(o.config);
    StripFixpoint(o.prompt);
  }

  /** Reading a stored snapshot back validates it again and changes nothing: the
      valid snapshots are exactly the fixpoints of validation. */
  lemma CleanFixpoint(raw: RawOverlay, o: Overlay)
    requires ListsOverlay(raw, o)
    ensures Clean(raw) == Some(o) <==> Valid(o)
  {
    CleanIsValid(raw);
    if Valid(o) { CleanCanonical(raw, o); }
  }

  // ---- merging ----

  const SEPARATOR := "\n\n"

  /** `"\n\n".join(x for x in (a, b) if x)`. */
  function JoinParts(a: string, b: string): string {
    if a == "" then b else if b == "" then a else a + SEPARATOR + b
  }

  function Lookup(m: map<string, string>, k: string): string {
    if k in m then m[k] else ""
  }

  /** Lessons of the same skill are appended. */
  function AppendAll(base: map<string, string>, changes: map<string, string>): map<string, string> {
    map k | k in base.Keys + changes.Keys :: JoinParts(Lookup(base, k), Lookup(changes, k))
  }

  /** The merge before its result is validated. */
  function Layer(base: Overlay, changes: Overlay): Overlay {
    Overlay(JoinParts(base.prompt, changes.prompt), AppendAll(base.skills, changes.skills),
            base.tools + changes.tools, base.config + changes.config)
  }

  /** Merge of two clean overlays: None is the ValueError of a result over a limit. */
  function Merge(base: Overlay, changes: Overlay): Option<Overlay> {
    var out := Layer(base, changes);
    if Fits(out) then Some(out) else None
  }

  function MergeInto(base: Option<Overlay>, changes: Option<Overlay>): Option<Overlay> {
    if base.Some? && changes.Some? then Merge(base.value, changes.value) else None
  }

  /** `out` holds the newer value of every key that has one, and the older ones of the rest. */
  ghost predicate NewerWins<K, V>(older: map<K, V>, newer: map<K, V>, out: map<K, V>) {
    && out.Keys == older.Keys + newer.Keys
    && forall k :: k in out ==> out[k] == if k in newer then newer[k] else older[k]
  }

  /** The older text and, behind a blank line, the newer one; or the one there is. */
  ghost predicate Behind(older: string, newer: string, out: string) {
    out == if older != "" && newer != "" then older + "\n\n" + newer else older + newer
  }

  /** `out` holds, of every key of either, the older text with the newer one behind it. */
  ghost predicate Appended(older: map<string, string>, newer: map<string, string>, out: map<string, string>) {
    && out.Keys == older.Keys + newer.Keys
    && forall k :: k in out ==>
      Behind(if k in older then older[k] else "", if k in newer then newer[k] else "", out[k])
  }

  lemma ReplacedAre<K, V>(a: map<K, V>, b: map<K, V>)
    ensures NewerWins(a, b, a + b)
  {
  }

  lemma AppendedAre(a: map<string, string>, b: map<string, string>)
    ensures Appended(a, b, AppendAll(a, b))
  {
  }

  /** `out` is `base` with `changes` on top of it, part by part. */
  ghost predicate MergedFrom(base: Overlay, changes: Overlay, out: Overlay) {
    && NewerWins(base.tools, changes.tools, out.tools)
    && NewerWins(base.config, changes.config, out.config)
    && Appended(base.skills, changes.skills, out.skills)
    && Behind(base.prompt, changes.prompt, out.prompt)
  }

  /** What a merge holds. */
  lemma MergeTakes(base: Overlay, changes: Overlay)
    requires Merge(base, changes).Some?
    ensures MergedFrom(base, changes, Merge(base, changes).value)
  {
    hide NewerWins, Appended, AppendAll, Fits;
    ReplacedAre(base.tools, changes.tools);
    ReplacedAre(base.config, changes.config);
    AppendedAre(base.skills, changes.skills);
  }

  lemma AppendedLength(a: map<string, string>, b: map<string, string>, k: string)
    requires CanonicalNamed(a) && CanonicalNamed(b) && (k in a || k in b)
    ensures AppendAll(a, b).Keys == a.Keys + b.Keys
    ensures |AppendAll(a, b)[k]| ==
      if k in a && k in b then |a[k]| + 2 + |b[k]| else if k in b then |b[k]| else |a[k]|
  {
    AppendedAre(a, b);
    assert k in AppendAll(a, b);
  }

  lemma AppendedFits(a: map<string, string>, b: map<string, string>)
    requires CanonicalNamed(a) && CanonicalNamed(b) && ItemsFit(a) && ItemsFit(b)
    ensures ItemsFit(AppendAll(a, b)) <==>
      |a.Keys + b.Keys| <= 100 && forall k :: k in a && k in b ==> |a[k]| + 2 + |b[k]| <= 10000
  {
    hide AppendAll, CanonicalNamed;
    var out := AppendAll(a, b);
    forall k | k in a.Keys + b.Keys ensures k in out
      && |out[k]| == if k in a && k in b then |a[k]| + 2 + |b[k]| else if k in b then |b[k]| else |a[k]|
    {
      AppendedLength(a, b, k);
    }
    AppendedKeys(a, b);
    if ItemsFit(out) {
      forall k | k in a && k in b ensures |a[k]| + 2 + |b[k]| <= 10000 {
        assert k in a.Keys + b.Keys;
        assert |out[k]| <= MAX_ITEM;
      }
    }
  }

  lemma AppendedKeys(a: map<string, string>, b: map<string, string>)
    ensures AppendAll(a, b).Keys == a.Keys + b.Keys && |AppendAll(a, b)| == |a.Keys + b.Keys|
  {
    assert AppendAll(a, b).Keys == a.Keys + b.Keys;
    assert |AppendAll(a, b)| == |AppendAll(a, b).Keys|;
  }

  lemma ReplacedFits(a: map<string, string>, b: map<string, string>)
    requires ItemsFit(a) && ItemsFit(b)
    ensures ItemsFit(a + b) <==> |a.Keys + b.Keys| <= 100
  {
    assert |a + b| == |(a + b).Keys|;
  }

  /** When a merge goes through: exactly when the joined prompt has at most 30000 characters,
      skills and tools have at most 100 names each, and every joined skill has at most
      10000 characters. */
  lemma MergeFits(base: Overlay, changes: Overlay)
    requires Valid(base) && Valid(changes)
    ensures Merge(base, changes).Some? <==>
      && |base.prompt| + |changes.prompt| + (if base.prompt != "" && changes.prompt != "" then 2 else 0) <= 30000
      && |base.skills.Keys + changes.skills.Keys| <= 100
      && |base.tools.Keys + changes.tools.Keys| <= 100
      && forall k :: k in base.skills && k in changes.skills ==> |base.skills[k]| + 2 + |changes.skills[k]| <= 10000
  {
    hide AppendAll, CanonicalNamed, ItemsFit;
    AppendedFits(base.skills, changes.skills);
    ReplacedFits(base.tools, changes.tools);
  }

  lemma JoinPartsStripped(a: string, b: string)
    requires Stripped(a) && Stripped(b)
    ensures Stripped(JoinParts(a, b))
  {
  }

  lemma JoinPartsNonBlank(a: string, b: string)
    requires !Blank(a) || !Blank(b)
    ensures !Blank(JoinParts(a, b))
  {
    var j := JoinParts(a, b);
    if !Blank(a) {
      var i :| 0 <= i < |a| && !IsSpace(a[i]);
      assert j[i] == a[i];
    } else {
      var i :| 0 <= i < |b| && !IsSpace(b[i]);
      assert j[|j| - |b| + i] == b[i];
    }
  }

  /** Layering keeps the canonical shape, so re-validating a merge only checks sizes. */
  lemma LayerCanonical(base: Overlay, changes: Overlay)
    requires Canonical(base) && Canonical(changes)
    ensures Canonical(Layer(base, changes))
  {
    JoinPartsStripped(base.prompt, changes.prompt);
    var skills := AppendAll(base.skills, changes.skills);
    forall k | k in skills ensures !Blank(skills[k]) {
      JoinPartsNonBlank(Lookup(base.skills, k), Lookup(changes.skills, k));
    }
  }

  /** The merge is the layering followed by validation. */
  lemma MergeValidates(base: Overlay, changes: Overlay, raw: RawOverlay)
    requires Valid(base) && Valid(changes) && ListsOverlay(raw, Layer(base, changes))
    ensures Clean(raw) == Merge(base, changes)
  {
    LayerCanonical(base, changes);
    CleanCanonical(raw, Layer(base, changes));
  }

  // ---- the merge is a partial monoid ----

  lemma JoinPartsAssoc(a: string, b: string, c: string)
    ensures JoinParts(JoinParts(a, b), c) == JoinParts(a, JoinParts(b, c))
  {
    if a != "" && b != "" && c != "" {
      Regroup(a + SEPARATOR, b, SEPARATOR + c);
      Regroup(a + SEPARATOR + b, SEPARATOR, c);
      Regroup(b, SEPARATOR, c);
    }
  }

  lemma AppendAllAssoc(a: map<string, string>, b: map<string, string>, c: map<string, string>)
    ensures AppendAll(AppendAll(a, b), c) == AppendAll(a, AppendAll(b, c))
  {
    hide JoinParts;
    var l, r := AppendAll(AppendAll(a, b), c), AppendAll(a, AppendAll(b, c));
    assert l.Keys == r.Keys;
    forall k | k in l ensures l[k] == r[k] {
      LookupAppended(a, b, k);
      LookupAppended(b, c, k);
      JoinPartsAssoc(Lookup(a, k), Lookup(b, k), Lookup(c, k));
    }
  }

  lemma LookupAppended(a: map<string, string>, b: map<string, string>, k: string)
    ensures Lookup(AppendAll(a, b), k) == JoinParts(Lookup(a, k), Lookup(b, k))
  {
  }

  lemma LayerAssoc(a: Overlay, b: Overlay, c: Overlay)
    ensures Layer(Layer(a, b), c) == Layer(a, Layer(b, c))
  {
    JoinPartsAssoc(a.prompt, b.prompt, c.prompt);
    AppendAllAssoc(a.skills, b.skills, c.skills);
    ReplaceAssoc(a.tools, b.tools, c.tools);
    ReplaceAssoc(a.config, b.config, c.config);
  }

  lemma ReplaceAssoc<K, V>(a: map<K, V>, b: map<K, V>, c: map<K, V>)
    ensures (a + b) + c == a + (b + c)
  {
  }

  lemma AppendAllGrows(a: map<string, string>, b: map<string, string>)
    requires ItemsFit(AppendAll(a, b))
    ensures ItemsFit(a) && ItemsFit(b)
  {
    var m := AppendAll(a, b);
    SubsetSize(a.Keys, m.Keys);
    SubsetSize(b.Keys, m.Keys);
    assert |a| == |a.Keys| && |b| == |b.Keys| && |m| == |m.Keys|;
    forall k | k in a ensures |a[k]| <= MAX_ITEM {
      assert k in m && |m[k]| <= MAX_ITEM;
    }
    forall k | k in b ensures |b[k]| <= MAX_ITEM {
      assert k in m && |m[k]| <= MAX_ITEM;
    }
  }

  lemma ReplaceAllGrows(a: map<string, string>, b: map<string, string>)
    requires |a + b| <= MAX_NAMED
    ensures |a| <= MAX_NAMED && |b| <= MAX_NAMED
  {
    SubsetSize(a.Keys, (a + b).Keys);
    SubsetSize(b.Keys, (a + b).Keys);
    assert |a| == |a.Keys| && |b| == |b.Keys| && |a + b| == |(a + b).Keys|;
  }

  /** Layering never shrinks anything but a replaced item: if the whole fits, so does each part. */
  lemma PartsFit(a: Overlay, b: Overlay)
    requires Fits(Layer(a, b)) && ShortItems(a.tools) && ShortItems(b.tools)
    ensures Fits(a) && Fits(b)
  {
    AppendAllGrows(a.skills, b.skills);
    ReplaceAllGrows(a.tools, b.tools);
  }

  /** Either bracketing is within the limits exactly when the other is, and then the
      results are equal. Every valid overlay has short items. */
  lemma MergeAssoc(a: Overlay, b: Overlay, c: Overlay)
    requires ShortItems(a.tools) && ShortItems(b.tools) && ShortItems(c.tools)
    ensures MergeInto(Merge(a, b), Some(c)) == MergeInto(Some(a), Merge(b, c))
  {
    LayerAssoc(a, b, c);
    if Fits(Layer(Layer(a, b), c)) {
      PartsFit(Layer(a, b), c);
      PartsFit(a, Layer(b, c));
    }
  }

  lemma AppendAllUnit(m: map<string, string>)
    ensures AppendAll(map[], m) == m && AppendAll(m, map[]) == m
  {
  }

  lemma ReplaceUnit<K, V>(m: map<K, V>)
    ensures map[] + m == m && m + map[] == m
  {
  }

  lemma MergeUnit(o: Overlay)
    requires Valid(o)
    ensures Merge(EMPTY, o) == Some(o) && Merge(o, EMPTY) == Some(o)
  {
    AppendAllUnit(o.skills);
    ReplaceUnit(o.tools);
    ReplaceUnit(o.config);
  }

  lemma MergeValid(a: Overlay, b: Overlay)
    requires Valid(a) && Valid(b)
    ensures Merge(a, b).Some? ==> Valid(Merge(a, b).value)
  {
    LayerCanonical(a, b);
  }
}

/** JSON values as Python's json module builds them, and `json.dumps(..., ensure_ascii=False)`. */
module Json {
  import opened Text

  /** A float is carried as the text Python prints for it. */
  datatype Value =
    | Null
    | Bool(b: bool)
    | Int(n: int)
    | Float(repr: string)
    | Str(s: string)
    | Arr(items: seq<Value>)
    | Obj(fields: Fields)

  /** A dictionary in insertion order. */
  type Fields = seq<(string, Value)>

  function Get(fields: Fields, key: string): Option<Value> {
    if fields == [] then None
    else if fields[0].0 == key then Some(fields[0].1)
    else Get(fields[1..], key)
  }

  function GetOr(fields: Fields, key: string, default: Value): Value {
    if Get(fields, key).Some? then Get(fields, key).value else default
  }

  /** `d[key] = value`: in place when the key is there, at the end when it is not. */
  function Set(fields: Fields, key: string, value: Value): (r: Fields)
    ensures Get(r, key) == Some(value)
    ensures forall k :: k != key ==> Get(r, k) == Get(fields, k)
  {
    if fields == [] then [(key, value)]
    else if fields[0].0 == key then [(key, value)] + fields[1..]
    else
      [fields[0]] + Set(fields[1..], key, value)
  }

  predicate Truthy(v: Value) {
    match v
    case Null => false
    case Bool(b) => b
    case Int(n) => n != 0
    case Float(repr) => repr !in {"0.0", "-0.0"}
    case Str(s) => s != ""
    case Arr(items) => items != []
    case Obj(fields) => fields != []
  }

  // ---- printing ----

  const DIGITS := "0123456789"
  const HEX := "0123456789abcdef"

  function Decimal(n: nat): (r: string)
    ensures r != ""
  {
    if n < 10 then [DIGITS[n]] else Decimal(n / 10) + [DIGITS[n % 10]]
  }

  function DecimalInt(n: int): string {
    if n < 0 then "-" + Decimal(-n) else Decimal(n)
  }

  function EscapeChar(c: char): string {
    if c == '\"' then "\\\""
    else if c == '\\' then "\\\\"
    else if c == '\n' then "\\n"
    else if c == '\r' then "\\r"
    else if c == '\t' then "\\t"
    else if c as int == 8 then "\\b"
    else if c as int == 12 then "\\f"
    else if c as int < 32 then "\\u00" + [HEX[c as int / 16], HEX[c as int % 16]]
    else [c]
  }

  function Escape(s: string): string {
    if s == "" then "" else EscapeChar(s[0]) + Escape(s[1..])
  }

  function Quote(s: string): string { "\"" + Escape(s) + "\"" }

  /** The parts with `, ` between them. */
  function Commas(parts: seq<string>): string {
    if parts == [] then ""
    else if |parts| == 1 then parts[0]
    else parts[0] + ", " + Commas(parts[1..])
  }

  function Dumps(v: Value): string {
    match v
    case Null => "null"
    case Bool(b) => if b then "true" else "false"
    case Int(n) => DecimalInt(n)
    case Float(repr) => repr
    case Str(s) => Quote(s)
    case Arr(items) =>
      "[" + Commas(seq(|items|, i requires 0 <= i < |items| => Dumps(items[i]))) + "]"
    case Obj(fields) =>
      "{" + Commas(seq(|fields|, i requires 0 <= i < |fields| => Quote(fields[i].0) + ": " + Dumps(fields[i].1))) + "}"
  }

  // ---- what is found in a printed dictionary ----

  lemma ContainsInside(a: string, t: string, b: string)
    ensures Contains(a + t + b, t)
  {
    assert At(a + t + b, |a|, t);
  }

  lemma ContainsWithin(a: string, s: string, b: string, t: string)
    requires Contains(s, t)
    ensures Contains(a + s + b, t)
  {
    var i := Find(s, t);
    assert (a + s + b)[|a| + i..|a| + i + |t|] == s[i..i + |t|];
    assert At(a + s + b, |a| + i, t);
  }

  lemma {:induction false} CommasHold(parts: seq<string>, i: nat, t: string)
    requires i < |parts| && Contains(parts[i], t)
    ensures Contains(Commas(parts), t)
  {
    if |parts| > 1 {
      if i == 0 {
        ContainsWithin("", parts[0], ", " + Commas(parts[1..]), t);
        assert "" + parts[0] + (", " + Commas(parts[1..])) == Commas(parts);
      } else {
        CommasHold(parts[1..], i - 1, t);
        ContainsWithin(parts[0] + ", ", Commas(parts[1..]), "", t);
        assert parts[0] + ", " + Commas(parts[1..]) + "" == Commas(parts);
      }
    }
  }

  lemma {:induction false} KeyAt(fields: Fields, key: string) returns (i: nat)
    requires Get(fields, key).Some?
    ensures i < |fields| && fields[i].0 == key && Get(fields, key) == Some(fields[i].1)
    ensures forall j :: 0 <= j < i ==> fields[j].0 != key
  {
    i := 0;
    if fields[0].0 != key {
      i := KeyAt(fields[1..], key);
      i := i + 1;
    }
  }

  lemma {:induction false} GetNone(fields: Fields, key: string)
    ensures Get(fields, key).None? <==> forall i :: 0 <= i < |fields| ==> fields[i].0 != key
  {
    if fields != [] {
      GetNone(fields[1..], key);
      assert forall i :: 1 <= i < |fields| ==> fields[i] == fields[1..][i - 1];
    }
  }

  lemma {:induction false} GetAt(fields: Fields, i: nat)
    requires i < |fields| && forall j :: 0 <= j < i ==> fields[j].0 != fields[i].0
    ensures Get(fields, fields[i].0) == Some(fields[i].1)
  {
    if i > 0 {
      GetAt(fields[1..], i - 1);
    }
  }

  /** A printed dictionary shows every one of its keys in quotes, with its value behind it. */
  lemma DumpsShowsKey(fields: Fields, key: string)
    requires Get(fields, key).Some?
    ensures Contains(Dumps(Obj(fields)), Quote(key))
    ensures Contains(Dumps(Obj(fields)), Quote(key) + ": " + Dumps(Get(fields, key).value))
  {
    hide Contains, Quote, Commas;
    var i := KeyAt(fields, key);
    var parts := seq(|fields|, i requires 0 <= i < |fields| => Quote(fields[i].0) + ": " + Dumps(fields[i].1));
    var all := Commas(parts);
    assert Dumps(Obj(fields)) == "{" + all + "}";
    var field := Quote(key) + ": " + Dumps(fields[i].1);
    assert parts[i] == field;
    ContainsInside("", field, "");
    assert "" + field + "" == field;
    CommasHold(parts, i, field);
    ContainsWithin("{", all, "}", field);
    ContainsInside("", Quote(key), ": " + Dumps(fields[i].1));
    assert "" + Quote(key) + (": " + Dumps(fields[i].1)) == field;
    CommasHold(parts, i, Quote(key));
    ContainsWithin("{", all, "}", Quote(key));
  }

  // ---- what the printed forms are ----

  /** The number a string of digits stands for. */
  function Reads(digits: string): int {
    if digits == "" then 0 else
      10 * Reads(digits[..|digits| - 1]) + (digits[|digits| - 1] as int - '0' as int)
  }

  lemma {:induction false} DecimalReads(n: nat)
    ensures Reads(Decimal(n)) == n
    ensures forall i :: 0 <= i < |Decimal(n)| ==> '0' <= Decimal(n)[i] <= '9'
  {
    assert forall d :: 0 <= d < 10 ==> DIGITS[d] as int == '0' as int + d;
    if n < 10 {
      assert Decimal(n)[..0] == "";
    } else {
      DecimalReads(n / 10);
      assert Decimal(n)[..|Decimal(n)| - 1] == Decimal(n / 10);
    }
  }

  function HexValue(digit: char): int {
    if '0' <= digit <= '9' then digit as int - '0' as int else digit as int - 'a' as int + 10
  }

  /** The first character of an escaped text and how long its escape is (section 7 of RFC 8259). */
  function FirstOf(s: string): (char, nat)
    requires s != ""
  {
    if s[0] != '\\' || |s| < 2 then (s[0], 1)
    else match s[1]
      case 'n' => ('\n', 2)
      case 'r' => ('\r', 2)
      case 't' => ('\t', 2)
      case 'b' => ('\U{8}', 2)
      case 'f' => ('\U{c}', 2)
      case 'u' =>
        if |s| < 6 then (s[1], 2) else
          var code := 16 * HexValue(s[4]) + HexValue(s[5]);
          (if 0 <= code < 128 then code as char else ' ', 6)
      case c => (c, 2)
  }

  lemma FirstEscaped(c: char, rest: string)
    ensures FirstOf(EscapeChar(c) + rest) == (c, |EscapeChar(c)|)
  {
    var e := EscapeChar(c);
    assert (e + rest)[..|e|] == e;
    assert forall k :: 0 <= k < |e| ==> (e + rest)[k] == e[k];
    if c as int < 32 {
      var high, low := c as int / 16, c as int % 16;
      assert HexValue(HEX[high]) == high by { HexDigit(high); }
      assert HexValue(HEX[low]) == low by { HexDigit(low); }
    }
  }

  lemma HexDigit(d: nat)
    requires d < 16
    ensures HexValue(HEX[d]) == d
  {
  }

  /** Reads an escaped text back. */
  function Unescape(s: string): string {
    if s == "" then "" else
      var (c, n) := FirstOf(s);
      if n > |s| then "" else [c] + Unescape(s[n..])
  }

  /** A printed text reads back as the text. */
  lemma {:induction false} EscapeReadsBack(s: string)
    ensures Unescape(Escape(s)) == s
  {
    hide FirstOf, EscapeChar;
    if s != "" {
      EscapeReadsBack(s[1..]);
      EscapeCharSome(s[0]);
      FirstEscaped(s[0], Escape(s[1..]));
      var e := EscapeChar(s[0]);
      assert (e + Escape(s[1..]))[|e|..] == Escape(s[1..]);
    }
  }

  lemma EscapeCharSome(c: char)
    ensures EscapeChar(c) != ""
  {
  }

  lemma CommasTwo(a: string, b: string)
    ensures Commas([a, b]) == a + ", " + b
  {
    assert [a, b][1..] == [b];
  }

  /** Separators and literals of printed lists and dictionaries, for any two entries. */
  lemma PrintedList(v: Value, w: Value)
    ensures Dumps(Arr([v, w])) == "[" + (Dumps(v) + ", " + Dumps(w)) + "]"
    ensures Dumps(Null) == "null" && Dumps(Bool(true)) == "true" && Dumps(Bool(false)) == "false"
  {
    hide Commas;
    var items := [v, w];
    CommasTwo(Dumps(v), Dumps(w));
    assert seq(2, i requires 0 <= i < 2 => Dumps(items[i])) == [Dumps(v), Dumps(w)];
  }

  lemma PrintedDict(k: string, v: Value, l: string, w: Value)
    ensures Dumps(Obj([(k, v), (l, w)])) == "{" + (Quote(k) + ": " + Dumps(v) + ", " + (Quote(l) + ": " + Dumps(w))) + "}"
  {
    hide Commas, Quote;
    var fields := [(k, v), (l, w)];
    var a, b := Quote(k) + ": " + Dumps(v), Quote(l) + ": " + Dumps(w);
    CommasTwo(a, b);
    assert seq(2, i requires 0 <= i < 2 => Quote(fields[i].0) + ": " + Dumps(fields[i].1)) == [a, b];
  }
}

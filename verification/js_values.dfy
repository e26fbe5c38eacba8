/** An optional value, for JavaScript's `null` results. */
module Optional {
  datatype Option<T> = None | Some(value: T)
}

/** The slice of JavaScript value semantics that the client's logic relies on:
    values produced by JSON parsing, truthiness (`!x`, `x || y`, `x && y`),
    property reads (which throw on null and undefined), conversion to string
    (template literals and `new Error(x)`), `String.prototype.includes` and
    the UTF-16 `length` of a string. */
module JsValues {

  /** A value the client can hold after `response.json()` or a property read.
      JSON numbers are modelled as integers only. */
  datatype JsValue =
    | JUndefined
    | JNull
    | JBool(b: bool)
    | JNum(n: int)
    | JStr(s: string)
    | JArr(items: seq<JsValue>)
    | JObj(fields: map<string, JsValue>)

  /** A JavaScript exception raised by the language itself. */
  datatype Read<T> = Value(value: T) | ThrowsTypeError(message: string)

  /** JavaScript truthiness: the falsy values are undefined, null, false, 0 and "". */
  predicate Truthy(v: JsValue) {
    match v
    case JUndefined => false
    case JNull => false
    case JBool(b) => b
    case JNum(n) => n != 0
    case JStr(s) => s != ""
    case JArr(_) => true
    case JObj(_) => true
  }

  predicate IsNullish(v: JsValue) {
    v.JUndefined? || v.JNull?
  }

  /** `v.key` for a key that no built-in prototype defines: a missing key reads
      as undefined, a primitive has no own keys, null and undefined throw. */
  function Prop(v: JsValue, key: string): (r: Read<JsValue>)
    ensures r.ThrowsTypeError? <==> IsNullish(v)
    ensures v.JObj? && key in v.fields ==> r == Value(v.fields[key])
    ensures !IsNullish(v) && !(v.JObj? && key in v.fields) ==> r == Value(JUndefined)
  {
    match v
    case JUndefined =>
      ThrowsTypeError("Cannot read properties of undefined (reading '" + key + "')")
    case JNull =>
      ThrowsTypeError("Cannot read properties of null (reading '" + key + "')")
    case JObj(fields) => Value(if key in fields then fields[key] else JUndefined)
    case _ => Value(JUndefined)
  }

  /** `a || b`: the first operand when it is truthy, the second otherwise. */
  function Or(a: JsValue, b: JsValue): (r: JsValue)
    ensures Truthy(a) ==> r == a
    ensures !Truthy(a) ==> r == b
  {
    if Truthy(a) then a else b
  }

  function DigitChar(d: nat): (c: char)
    requires d < 10
    ensures '0' <= c <= '9' && c as int - '0' as int == d
  {
    ['0', '1', '2', '3', '4', '5', '6', '7', '8', '9'][d]
  }

  predicate IsDigit(c: char) {
    '0' <= c <= '9'
  }

  /** Decimal digits of a natural number, without leading zeros. */
  function NatToDecimal(n: nat): (s: string)
    decreases n
  {
    if n < 10 then [DigitChar(n)] else NatToDecimal(n / 10) + [DigitChar(n % 10)]
  }

  /** The value of a string of decimal digits. */
  function DecimalValue(s: string): (n: nat)
    requires forall i :: 0 <= i < |s| ==> IsDigit(s[i])
    decreases |s|
  {
    if s == [] then 0 else 10 * DecimalValue(s[..|s| - 1]) + DigitValue(s[|s| - 1])
  }

  function DigitValue(c: char): (d: nat)
    requires IsDigit(c)
    ensures d < 10 && DigitChar(d) == c
  {
    c as int - '0' as int
  }

  /** The decimal form of a natural number is a non-empty digit string with no
      leading zero, from which the number can be read back. */
  lemma {:induction false} NatToDecimalRoundTrip(n: nat)
    ensures var s := NatToDecimal(n);
      && |s| > 0
      && (forall i :: 0 <= i < |s| ==> IsDigit(s[i]))
      && (|s| > 1 ==> s[0] != '0')
      && DecimalValue(s) == n
  {
    var s := NatToDecimal(n);
    if n >= 10 {
      NatToDecimalRoundTrip(n / 10);
      var p := NatToDecimal(n / 10);
      assert s == p + [DigitChar(n % 10)];
      assert s[..|s| - 1] == p;
      assert s[0] == p[0];
    }
  }

  /** `String(n)` for an integer. */
  function IntToString(i: int): (s: string)
  {
    if i < 0 then "-" + NatToDecimal(-i) else NatToDecimal(i)
  }

  /** `String(n)` can be read back: the sign and the digits give back `n`. */
  lemma IntToStringRoundTrip(i: int)
    ensures var s := IntToString(i);
      && |s| > 0
      && (i >= 0 ==> (forall k :: 0 <= k < |s| ==> IsDigit(s[k])) && DecimalValue(s) == i)
      && (i < 0 ==> s[0] == '-' && (forall k :: 1 <= k < |s| ==> IsDigit(s[k]))
                    && DecimalValue(s[1..]) == -i)
  {
    if i < 0 {
      NatToDecimalRoundTrip(-i);
      assert IntToString(i)[1..] == NatToDecimal(-i);
    } else {
      NatToDecimalRoundTrip(i);
    }
  }

  /** `String(v)`: how a template literal or `new Error(v)` turns a value into
      text (arrays join their elements with commas, nullish elements as ""). */
  function ToString(v: JsValue): string
    decreases v
  {
    match v
    case JUndefined => "undefined"
    case JNull => "null"
    case JBool(b) => if b then "true" else "false"
    case JNum(n) => IntToString(n)
    case JStr(s) => s
    case JObj(_) => "[object Object]"
    case JArr(items) => JoinItems(v, items, 0)
  }

  /** The comma-joined strings of `items[k..]`, where `items` are the elements of `arr`. */
  function JoinItems(arr: JsValue, items: seq<JsValue>, k: nat): string
    requires arr == JArr(items) && k <= |items|
    decreases arr, |items| - k
  {
    if k == |items| then ""
    else
      var item := if IsNullish(items[k]) then "" else ToString(items[k]);
      (if k == 0 then "" else ",") + item + JoinItems(arr, items, k + 1)
  }

  /** `t` occurs in `s` starting at index `i`. */
  ghost predicate OccursAt(s: string, t: string, i: nat) {
    i + |t| <= |s| && s[i..i + |t|] == t
  }

  /** `s.includes(t)`. */
  function Includes(s: string, t: string): bool
    decreases |s|
  {
    (|t| <= |s| && s[..|t|] == t) || (s != [] && Includes(s[1..], t))
  }

  /** An occurrence of `t` in `s` makes `s.includes(t)` hold. */
  lemma {:induction false} IncludesFromOccurrence(s: string, t: string, i: nat)
    requires OccursAt(s, t, i)
    ensures Includes(s, t)
    decreases i
  {
    if i == 0 {
      assert s[..|t|] == t;
    } else {
      assert s[1..][i - 1..i - 1 + |t|] == s[i..i + |t|];
      IncludesFromOccurrence(s[1..], t, i - 1);
    }
  }

  /** When `s.includes(t)` holds, an index where `t` occurs. */
  lemma {:induction false} OccurrenceOf(s: string, t: string) returns (i: nat)
    requires Includes(s, t)
    ensures OccursAt(s, t, i)
    decreases |s|
  {
    if |t| <= |s| && s[..|t|] == t {
      i := 0;
    } else {
      var j := OccurrenceOf(s[1..], t);
      i := j + 1;
      assert s[i..i + |t|] == s[1..][j..j + |t|];
    }
  }

  /** `s.includes(t)` holds exactly when `t` occurs somewhere in `s`. */
  lemma IncludesIff(s: string, t: string)
    ensures Includes(s, t) <==> exists i: nat :: OccursAt(s, t, i)
  {
    if Includes(s, t) {
      var i := OccurrenceOf(s, t);
    } else if i: nat :| OccursAt(s, t, i) {
      IncludesFromOccurrence(s, t, i);
    }
  }

  /** A text that lacks one of the characters of `t` cannot include `t`. */
  lemma MissingCharExcludes(s: string, t: string, c: char)
    requires c in t && c !in s
    ensures !Includes(s, t)
  {
    IncludesIff(s, t);
  }

  /** Number of UTF-16 code units `c` takes: two for a code point above U+FFFF. */
  function CodeUnits(c: char): (n: nat)
    ensures n == 1 || n == 2
  {
    if c as int > 0xFFFF then 2 else 1
  }

  /** `s.length`: JavaScript counts UTF-16 code units, not code points. */
  function Utf16Length(s: string): (n: nat)
    decreases |s|
  {
    if s == [] then 0 else CodeUnits(s[0]) + Utf16Length(s[1..])
  }

  /** The UTF-16 length lies between the number of code points and twice it, and
      equals it exactly when no code point lies outside the Basic Multilingual Plane. */
  lemma {:induction false} Utf16LengthBounds(s: string)
    ensures |s| <= Utf16Length(s) <= 2 * |s|
    ensures Utf16Length(s) == |s| <==> forall i :: 0 <= i < |s| ==> s[i] as int <= 0xFFFF
    decreases |s|
  {
    if s != [] {
      Utf16LengthBounds(s[1..]);
      if forall i :: 0 <= i < |s| ==> s[i] as int <= 0xFFFF {
        assert forall i :: 0 <= i < |s[1..]| ==> s[1..][i] == s[i + 1];
      } else {
        var i :| 0 <= i < |s| && s[i] as int > 0xFFFF;
        if i > 0 {
          assert s[1..][i - 1] == s[i];
        }
      }
    }
  }
}

/**
 * The pieces of JavaScript semantics the job-finder helpers rely on: truthiness, the
 * decimal text of an integer, `Number()` on decimal-integer strings, and the string
 * methods `indexOf`, `split`, `join`, `pop`, `startsWith` and `includes`.
 */
module Js {
  import opened Wrappers

  /** A JavaScript number, restricted to the integers, plus NaN. */
  datatype JsNumber = Int(value: int) | NaN

  /** A value of static type `unknown`, as the validators and the error builder see it. */
  datatype JsValue =
    | Undefined
    | Null
    | Bool(b: bool)
    | Num(n: JsNumber)
    | Str(s: string)
    | Object(className: string, args: seq<JsValue>)

  /** ECMAScript ToBoolean: undefined, null, false, 0, NaN and "" are falsy. */
  predicate Truthy(v: JsValue)
    ensures v.Undefined? || v.Null? ==> !Truthy(v)
    ensures v.Object? ==> Truthy(v)
    ensures v.Str? ==> (Truthy(v) <==> |v.s| > 0)
  {
    match v
    case Undefined => false
    case Null => false
    case Bool(b) => b
    case Num(n) => n.Int? && n.value != 0
    case Str(s) => s != ""
    case Object(_, _) => true
  }

  /** Truthiness of an optional string: absent and "" are falsy. */
  predicate Given(s: Option<string>)
  {
    s.Some? && s.value != ""
  }

  lemma GivenIsTruthy(s: Option<string>)
    ensures Given(s) <==> Truthy(if s.Some? then Str(s.value) else Undefined)
  {
  }

  /** `b.toString()` for a boolean. */
  function BoolToString(b: bool): string
  {
    if b then "true" else "false"
  }

  // ---------------------------------------------------------------------------
  // Decimal text of integers (template literals, `Number()` on decimal strings)
  // ---------------------------------------------------------------------------

  predicate IsDigit(c: char)
  {
    '0' <= c <= '9'
  }

  predicate AllDigits(s: string)
  {
    forall k :: 0 <= k < |s| ==> IsDigit(s[k])
  }

  function DigitChar(d: nat): (c: char)
    requires d < 10
    ensures IsDigit(c) && c as int - '0' as int == d
  {
    ('0' as int + d) as char
  }

  /** Decimal digits of a natural number, without leading zeros. */
  function NatToDecimal(n: nat): (s: string)
    ensures |s| >= 1 && AllDigits(s)
    ensures |s| > 1 ==> s[0] != '0'
    decreases n
  {
    if n < 10 then [DigitChar(n)] else NatToDecimal(n / 10) + [DigitChar(n % 10)]
  }

  /** `${n}` for an integer n: an optional minus sign followed by the digits. */
  function IntToDecimal(n: int): (s: string)
    ensures n < 0 <==> (|s| > 0 && s[0] == '-')
  {
    if n < 0 then "-" + NatToDecimal(-n) else NatToDecimal(n)
  }

  /** The value of a string of decimal digits. */
  function DigitsValue(s: string): nat
    requires AllDigits(s)
  {
    if |s| == 0 then 0 else DigitsValue(s[..|s| - 1]) * 10 + (s[|s| - 1] as int - '0' as int)
  }

  /** An optional minus sign followed by at least one decimal digit. */
  predicate IsDecimalInteger(s: string)
  {
    if |s| > 0 && s[0] == '-' then |s| > 1 && AllDigits(s[1..]) else |s| > 0 && AllDigits(s)
  }

  /**
   * The number `Number(text)` denotes. It is computed exactly for decimal-integer text;
   * for any other text (floats, exponents, surrounding blanks, NaN) the conversion is
   * kept abstract and the text is remembered instead.
   */
  datatype Converted = Integer(value: int) | Unconverted(text: string)

  function ToNumber(s: string): (n: Converted)
    ensures n.Integer? <==> IsDecimalInteger(s)
    ensures n.Unconverted? ==> n.text == s
  {
    if !IsDecimalInteger(s) then Unconverted(s)
    else if s[0] == '-' then Integer(-(DigitsValue(s[1..]) as int))
    else Integer(DigitsValue(s))
  }

  lemma {:induction false} NatToDecimalValue(n: nat)
    ensures DigitsValue(NatToDecimal(n)) == n
    decreases n
  {
    var s := NatToDecimal(n);
    if n >= 10 {
      NatToDecimalValue(n / 10);
      assert s[..|s| - 1] == NatToDecimal(n / 10);
    }
  }

  /** `Number(`${n}`) === n` for every integer n. */
  lemma DecimalRoundTrip(n: int)
    ensures ToNumber(IntToDecimal(n)) == Integer(n)
  {
    if n < 0 {
      var s := IntToDecimal(n);
      assert s[1..] == NatToDecimal(-n);
      NatToDecimalValue(-n);
    } else {
      NatToDecimalValue(n);
    }
  }

  // ---------------------------------------------------------------------------
  // String methods
  // ---------------------------------------------------------------------------

  /** `s.startsWith(prefix)`. */
  predicate StartsWith(s: string, prefix: string)
  {
    prefix <= s
  }

  /** `s.includes(sub)`: sub occurs at some offset of s. */
  predicate Includes(s: string, sub: string)
    ensures Includes(s, sub) ==> |sub| <= |s|
    ensures sub <= s ==> Includes(s, sub)
  {
    assert sub <= s ==> OccursAt(s, sub, 0);
    exists i :: 0 <= i <= |s| - |sub| && OccursAt(s, sub, i)
  }

  predicate OccursAt(s: string, sub: string, i: int)
    requires 0 <= i <= |s| - |sub|
  {
    s[i..i + |sub|] == sub
  }

  /** `s.indexOf(c)` when c occurs in s: the first position holding c. */
  function IndexOf(s: string, c: char): (i: nat)
    requires c in s
    ensures i < |s| && s[i] == c
    ensures forall k :: 0 <= k < i ==> s[k] != c
  {
    if s[0] == c then 0 else IndexOf(s[1..], c) + 1
  }

  /** The first position holding c is the only one satisfying IndexOf's contract. */
  lemma IndexOfUnique(s: string, c: char, j: nat)
    requires j < |s| && s[j] == c
    requires forall k :: 0 <= k < j ==> s[k] != c
    ensures IndexOf(s, c) == j
  {
  }

  /** `parts.join(sep)`. */
  function Join(parts: seq<string>, sep: string): string
  {
    if |parts| == 0 then ""
    else if |parts| == 1 then parts[0]
    else parts[0] + sep + Join(parts[1..], sep)
  }

  /** Pushing one more part extends the joined string by the separator and that part. */
  lemma {:induction false} JoinPush(parts: seq<string>, p: string, sep: string)
    requires |parts| >= 1
    ensures Join(parts + [p], sep) == Join(parts, sep) + sep + p
  {
    if |parts| > 1 {
      assert (parts + [p])[1..] == parts[1..] + [p];
      JoinPush(parts[1..], p, sep);
    }
  }

  /** `s.split(sep)` for a one-character separator: the pieces between separators. */
  function Split(s: string, sep: char): (parts: seq<string>)
    ensures |parts| >= 1
    ensures sep !in s ==> parts == [s]
    ensures sep in s ==> |parts| >= 2 && parts[0] == s[..IndexOf(s, sep)]
    decreases |s|
  {
    if sep !in s then [s]
    else
      var i := IndexOf(s, sep);
      [s[..i]] + Split(s[i + 1..], sep)
  }

  /** No piece of a split contains the separator. */
  lemma {:induction false} SplitPieces(s: string, sep: char)
    ensures forall k :: 0 <= k < |Split(s, sep)| ==> sep !in Split(s, sep)[k]
    decreases |s|
  {
    if sep in s {
      var i := IndexOf(s, sep);
      SplitPieces(s[i + 1..], sep);
      assert Split(s, sep) == [s[..i]] + Split(s[i + 1..], sep);
    }
  }

  /** Joining pieces in front of a non-empty list puts the separator between them. */
  lemma JoinCons(first: string, rest: seq<string>, sep: string)
    requires |rest| >= 1
    ensures Join([first] + rest, sep) == first + sep + Join(rest, sep)
  {
    assert ([first] + rest)[1..] == rest;
  }

  /** Joining the pieces of a split with the separator gives the string back. */
  lemma {:induction false} SplitJoin(s: string, sep: char)
    ensures Join(Split(s, sep), [sep]) == s
    decreases |s|
  {
    if sep in s {
      var i := IndexOf(s, sep);
      var t := s[i + 1..];
      var rest := Split(t, sep);
      SplitJoin(t, sep);
      assert Split(s, sep) == [s[..i]] + rest;
      JoinCons(s[..i], rest, [sep]);
      assert s == s[..i] + [sep] + t;
    } else {
      assert Split(s, sep) == [s];
    }
  }

  /** The text after the last separator, or all of s if there is none. */
  function LastSegment(s: string, sep: char): (last: string)
    ensures sep !in last
    ensures |last| <= |s|
    ensures sep !in s ==> last == s
    ensures |s| > 0 && s[|s| - 1] == sep ==> last == ""
  {
    if s == "" || s[|s| - 1] == sep then ""
    else LastSegment(s[..|s| - 1], sep) + [s[|s| - 1]]
  }

  /** Without a separator the last segment is the whole string. */
  lemma {:induction false} LastSegmentWhole(s: string, sep: char)
    requires sep !in s
    ensures LastSegment(s, sep) == s
  {
    if s != "" {
      LastSegmentWhole(s[..|s| - 1], sep);
    }
  }

  /** Whatever precedes a separator does not matter to the last segment. */
  lemma {:induction false} LastSegmentAfter(a: string, b: string, sep: char)
    ensures LastSegment(a + [sep] + b, sep) == LastSegment(b, sep)
  {
    if b != "" {
      assert (a + [sep] + b)[..|a + [sep] + b| - 1] == a + [sep] + b[..|b| - 1];
      LastSegmentAfter(a, b[..|b| - 1], sep);
    }
  }

  /** The last segment is determined by any decomposition `a + [sep] + id` with no separator in id. */
  lemma LastSegmentOf(a: string, id: string, sep: char)
    requires sep !in id
    ensures LastSegment(a + [sep] + id, sep) == id
  {
    LastSegmentAfter(a, id, sep);
    LastSegmentWhole(id, sep);
  }

  /** A string ending in the separator has an empty last segment. */
  lemma LastSegmentOfTrailing(a: string, sep: char)
    ensures LastSegment(a + [sep], sep) == ""
  {
  }

  /** `s.split(sep).pop()` is the last segment: split never yields an empty array, and its last piece is it. */
  lemma {:induction false} LastSegmentIsPop(s: string, sep: char)
    ensures var parts := Split(s, sep); LastSegment(s, sep) == parts[|parts| - 1]
    decreases |s|
  {
    if sep in s {
      var i := IndexOf(s, sep);
      var t := s[i + 1..];
      var rest := Split(t, sep);
      LastSegmentIsPop(t, sep);
      assert Split(s, sep) == [s[..i]] + rest;
      assert s == s[..i] + [sep] + t;
      LastSegmentAfter(s[..i], t, sep);
    } else {
      assert Split(s, sep) == [s];
      LastSegmentWhole(s, sep);
    }
  }
}

/**
 * Input validators (packages/utils/src/validation.ts). Each check either returns its
 * input unchanged or throws an Error whose message names the field; a throw is an Err.
 */
module Validation {
  import opened Wrappers
  import Js

  /** A value of type `T | undefined | null`. */
  datatype Nullable<T> = Undefined | Null | Present(value: T)

  /** validateRequired: the value itself unless it is undefined or null. */
  function ValidateRequired<T>(value: Nullable<T>, fieldName: string): (r: Result<T>)
    ensures r.Ok? <==> value.Present?
    ensures r.Ok? ==> r.value == value.value
    ensures r.Err? ==> r.message == fieldName + " is required"
  {
    if value.Undefined? || value.Null? then Err(fieldName + " is required")
    else Ok(value.value)
  }

  // ---------------------------------------------------------------------------
  // String length and numeric bounds
  // ---------------------------------------------------------------------------

  /** Both optional bounds are inclusive; an absent bound does not constrain. */
  predicate WithinBounds(n: int, min: Option<int>, max: Option<int>)
  {
    (min.None? || min.value <= n) && (max.None? || n <= max.value)
  }

  /** validateString: a string whose length lies within the optional bounds. */
  function ValidateString(value: Js.JsValue, fieldName: string,
                          minLength: Option<int> := None, maxLength: Option<int> := None): (r: Result<string>)
    ensures r.Ok? <==> value.Str? && WithinBounds(|value.s|, minLength, maxLength)
    ensures r.Ok? ==> r.value == value.s
    ensures !value.Str? ==> r == Err(fieldName + " must be a string")
  {
    if !value.Str? then Err(fieldName + " must be a string")
    else if minLength.Some? && |value.s| < minLength.value then
      Err(fieldName + " must be at least " + Js.IntToDecimal(minLength.value) + " characters")
    else if maxLength.Some? && |value.s| > maxLength.value then
      Err(fieldName + " must be at most " + Js.IntToDecimal(maxLength.value) + " characters")
    else Ok(value.s)
  }

  /** A string below the minimum length gets the minimum error, whatever the maximum. */
  lemma ValidateStringMinimumFirst(s: string, fieldName: string, minLength: int, maxLength: Option<int>)
    requires |s| < minLength
    ensures ValidateString(Js.Str(s), fieldName, Some(minLength), maxLength)
         == Err(fieldName + " must be at least " + Js.IntToDecimal(minLength) + " characters")
  {
  }

  /** A string that meets the minimum but exceeds the maximum gets the maximum error. */
  lemma ValidateStringMaximum(s: string, fieldName: string, minLength: Option<int>, maxLength: int)
    requires minLength.None? || minLength.value <= |s|
    requires |s| > maxLength
    ensures ValidateString(Js.Str(s), fieldName, minLength, Some(maxLength))
         == Err(fieldName + " must be at most " + Js.IntToDecimal(maxLength) + " characters")
  {
  }

  /**
   * validateNumber on the already coerced number: NaN is refused, then the minimum
   * and then the maximum are checked.
   */
  function ValidateNumber(num: Js.JsNumber, fieldName: string,
                          min: Option<int> := None, max: Option<int> := None): (r: Result<int>)
    ensures r.Ok? <==> num.Int? && WithinBounds(num.value, min, max)
    ensures r.Ok? ==> r.value == num.value
    ensures num.NaN? ==> r == Err(fieldName + " must be a number")
  {
    if num.NaN? then Err(fieldName + " must be a number")
    else if min.Some? && num.value < min.value then
      Err(fieldName + " must be at least " + Js.IntToDecimal(min.value))
    else if max.Some? && num.value > max.value then
      Err(fieldName + " must be at most " + Js.IntToDecimal(max.value))
    else Ok(num.value)
  }

  /** A number below the minimum gets the minimum error, whatever the maximum. */
  lemma ValidateNumberMinimumFirst(n: int, fieldName: string, min: int, max: Option<int>)
    requires n < min
    ensures ValidateNumber(Js.Int(n), fieldName, Some(min), max)
         == Err(fieldName + " must be at least " + Js.IntToDecimal(min))
  {
  }

  /** A number that meets the minimum but exceeds the maximum gets the maximum error. */
  lemma ValidateNumberMaximum(n: int, fieldName: string, min: Option<int>, max: int)
    requires min.None? || min.value <= n
    requires n > max
    ensures ValidateNumber(Js.Int(n), fieldName, min, Some(max))
         == Err(fieldName + " must be at most " + Js.IntToDecimal(max))
  {
  }

  // ---------------------------------------------------------------------------
  // Email shape
  // ---------------------------------------------------------------------------

  /** The characters of the regular-expression class `\s` (ECMAScript white space and line terminators). */
  predicate IsSpace(c: char)
  {
    c == '\t' || c == '\n' || c == '\U{000B}' || c == '\U{000C}' || c == '\r' || c == ' '
    || c == '\U{00A0}' || c == '\U{1680}' || ('\U{2000}' <= c <= '\U{200A}')
    || c == '\U{2028}' || c == '\U{2029}' || c == '\U{202F}' || c == '\U{205F}'
    || c == '\U{3000}' || c == '\U{FEFF}'
  }

  /** The class `[^\s@]`. */
  predicate EmailChar(c: char)
  {
    !IsSpace(c) && c != '@'
  }

  /** `[^\s@]+`: a non-empty run of email characters. */
  predicate EmailRun(s: string)
  {
    |s| > 0 && forall k :: 0 <= k < |s| ==> EmailChar(s[k])
  }

  /** s splits as run '@' run '.' run, with the '@' at `at` and the '.' at `dot`. */
  predicate EmailSplit(s: string, at: int, dot: int)
    requires 0 <= at < dot < |s|
  {
    s[at] == '@' && s[dot] == '.'
    && EmailRun(s[..at]) && EmailRun(s[at + 1..dot]) && EmailRun(s[dot + 1..])
  }

  /** `/^[^\s@]+@[^\s@]+\.[^\s@]+$/.test(s)`: some choice of '@' and '.' splits s as the pattern says. */
  predicate MatchesEmailPattern(s: string)
  {
    exists at, dot | 0 <= at < dot < |s| :: EmailSplit(s, at, dot)
  }

  /** Number of occurrences of c in s. */
  function Occurrences(s: string, c: char): nat
  {
    if s == "" then 0 else (if s[0] == c then 1 else 0) + Occurrences(s[1..], c)
  }

  /** The part after the '@' has a '.' that is neither its first nor its last character. */
  predicate HasInnerDot(domain: string)
  {
    exists k :: 0 < k < |domain| - 1 && domain[k] == '.'
  }

  /**
   * The email shape stated character by character: no white space, exactly one '@',
   * something before it, and an inner '.' after it.
   */
  predicate IsEmailShape(s: string)
  {
    && (forall k :: 0 <= k < |s| ==> !IsSpace(s[k]))
    && '@' in s && Occurrences(s, '@') == 1
    && var at := Js.IndexOf(s, '@');
       at > 0 && HasInnerDot(s[at + 1..])
  }

  lemma {:induction false} OccurrencesAppend(a: string, b: string, c: char)
    ensures Occurrences(a + b, c) == Occurrences(a, c) + Occurrences(b, c)
  {
    if a == "" {
      assert a + b == b;
    } else {
      assert (a + b)[1..] == a[1..] + b;
      OccurrencesAppend(a[1..], b, c);
    }
  }

  lemma {:induction false} OccurrencesZero(s: string, c: char)
    ensures Occurrences(s, c) == 0 <==> c !in s
  {
    if s != "" {
      OccurrencesZero(s[1..], c);
      assert s == [s[0]] + s[1..];
    }
  }

  /** With c at position i, c occurs exactly once iff no other position holds c. */
  lemma OccurrencesOnce(s: string, c: char, i: nat)
    requires i < |s| && s[i] == c
    ensures Occurrences(s, c) == 1 <==> forall k :: 0 <= k < |s| && k != i ==> s[k] != c
  {
    assert s == s[..i] + [c] + s[i + 1..];
    OccurrencesAppend(s[..i] + [c], s[i + 1..], c);
    OccurrencesAppend(s[..i], [c], c);
    OccurrencesZero(s[..i], c);
    OccurrencesZero(s[i + 1..], c);
    if forall k :: 0 <= k < |s| && k != i ==> s[k] != c {
      assert c !in s[..i];
      assert c !in s[i + 1..];
    }
    if Occurrences(s, c) == 1 {
      forall k | 0 <= k < |s| && k != i
        ensures s[k] != c
      {
        if k < i {
          assert s[k] == s[..i][k];
        } else {
          assert s[k] == s[i + 1..][k - i - 1];
        }
      }
    }
  }

  /** A string of the character-level shape matches the regular expression. */
  lemma EmailShapeMatches(s: string)
    requires IsEmailShape(s)
    ensures MatchesEmailPattern(s)
  {
    var at := Js.IndexOf(s, '@');
    OccurrencesOnce(s, '@', at);
    var domain := s[at + 1..];
    var k :| 0 < k < |domain| - 1 && domain[k] == '.';
    var dot := at + 1 + k;
    assert s[dot] == '.';
    assert forall j :: 0 <= j < |s| && j != at ==> EmailChar(s[j]);
    assert EmailRun(s[..at]);
    assert EmailRun(s[at + 1..dot]);
    assert EmailRun(s[dot + 1..]);
    assert EmailSplit(s, at, dot);
  }

  /** A string the regular expression matches has the character-level shape. */
  lemma EmailPatternHasShape(s: string)
    requires MatchesEmailPattern(s)
    ensures IsEmailShape(s)
  {
    var at, dot :| 0 <= at < dot < |s| && EmailSplit(s, at, dot);
    forall j | 0 <= j < |s| && j != at
      ensures EmailChar(s[j])
    {
      if j < at {
        assert s[j] == s[..at][j];
      } else if j < dot {
        assert s[j] == s[at + 1..dot][j - at - 1];
      } else if j > dot {
        assert s[j] == s[dot + 1..][j - dot - 1];
      }
    }
    OccurrencesOnce(s, '@', at);
    Js.IndexOfUnique(s, '@', at);
    assert s[at + 1..][dot - at - 1] == '.';
  }

  /** The character-level shape and the regular expression accept the same strings. */
  lemma EmailShapeIffPattern(s: string)
    ensures IsEmailShape(s) <==> MatchesEmailPattern(s)
  {
    if IsEmailShape(s) {
      EmailShapeMatches(s);
    }
    if MatchesEmailPattern(s) {
      EmailPatternHasShape(s);
    }
  }

  /** validateEmail: a string (checked first) of email shape; the field name defaults to "email". */
  function ValidateEmail(value: Js.JsValue, fieldName: string := "email"): (r: Result<string>)
    ensures r.Ok? <==> value.Str? && IsEmailShape(value.s)
    ensures r.Ok? ==> r.value == value.s
    ensures !value.Str? ==> r == Err(fieldName + " must be a string")
    ensures value.Str? && !IsEmailShape(value.s) ==> r == Err(fieldName + " must be a valid email address")
  {
    match ValidateString(value, fieldName)
    case Err(message) => Err(message)
    case Ok(email) =>
      EmailShapeIffPattern(email);
      if MatchesEmailPattern(email) then Ok(email)
      else Err(fieldName + " must be a valid email address")
  }
}

/** The JavaScript built-ins the two pages rely on (`Number.parseInt`,
    number-to-string conversion, `trim`, `replace(/\s+/g, "-")`,
    `toLowerCase`, `includes`, `join`, `split`, `Math.round` and the
    remainder operator), stated on exact integers, exact reals and
    strings of characters. */
module Js {

  import opened Wrappers

  /** A JavaScript number known to be an integer, or NaN (what
      `Number.parseInt` yields when there is no digit to read). */
  datatype JsInt = NaN | Int(value: int)

  /** Truthiness of a nullable number (`number | null`): null, NaN and 0 are falsy. */
  predicate Truthy(x: Option<JsInt>)
  {
    x.Some? && x.value.Int? && x.value.value != 0
  }

  /** Truthiness of a string read from storage (`string | null`): null and "" are falsy. */
  predicate Present(s: Option<string>)
  {
    s.Some? && s.value != ""
  }

  // ---------------------------------------------------------------------
  // Decimal digits

  predicate IsDigit(c: char)
  {
    '0' <= c <= '9'
  }

  predicate AllDigits(s: string)
  {
    forall i :: 0 <= i < |s| ==> IsDigit(s[i])
  }

  function DigitChar(d: nat): char
    requires d < 10
  {
    ('0' as int + d) as char
  }

  function DigitValue(c: char): nat
    requires IsDigit(c)
  {
    c as int - '0' as int
  }

  /** The value of a string of decimal digits, most significant first. */
  function DigitsValue(s: string): nat
    requires AllDigits(s)
    decreases |s|
  {
    if s == [] then 0 else DigitsValue(s[..|s| - 1]) * 10 + DigitValue(s[|s| - 1])
  }

  /** `n.toString()` for a non-negative integer. */
  function NatToString(n: nat): (s: string)
    ensures |s| > 0 && AllDigits(s)
    ensures n < 10 <==> |s| == 1
  {
    if n < 10 then [DigitChar(n)] else NatToString(n / 10) + [DigitChar(n % 10)]
  }

  /** `i.toString()` for any integer. */
  function IntToString(i: int): string
  {
    if i < 0 then "-" + NatToString(-i) else NatToString(i)
  }

  /** The string a JavaScript integer-or-NaN converts to. */
  function JsToString(x: JsInt): string
  {
    match x
    case NaN => "NaN"
    case Int(v) => IntToString(v)
  }

  /** Reading back the digits of `n.toString()` gives `n`. */
  lemma {:induction false} DigitsOfNat(n: nat)
    ensures DigitsValue(NatToString(n)) == n
  {
    var s := NatToString(n);
    if n >= 10 {
      assert s[..|s| - 1] == NatToString(n / 10);
      DigitsOfNat(n / 10);
    }
  }

  // ---------------------------------------------------------------------
  // Whitespace: the WhiteSpace and LineTerminator code points of
  // ECMAScript, the class matched by `\s` and removed by `trim`.

  predicate IsWhitespace(c: char)
  {
    || c == ' ' || c == '\t' || c == '\n' || c == '\r'
    || c == '\U{000B}' || c == '\U{000C}' || c == '\U{00A0}' || c == '\U{1680}'
    || ('\U{2000}' <= c <= '\U{200A}')
    || c == '\U{2028}' || c == '\U{2029}' || c == '\U{202F}' || c == '\U{205F}'
    || c == '\U{3000}' || c == '\U{FEFF}'
  }

  /** `s.trimStart()`: the suffix left after the leading whitespace. */
  function TrimStart(s: string): string
  {
    if s != [] && IsWhitespace(s[0]) then TrimStart(s[1..]) else s
  }

  /** What `s.trimStart()` leaves. It is no longer than `s`, and shorter
      when `s` starts with whitespace. It is empty exactly when `s` is all
      whitespace. Otherwise it starts with a character that is not
      whitespace and ends where `s` ends. All its characters come from `s`. */
  lemma {:induction false} TrimStartSpec(s: string)
    ensures |TrimStart(s)| <= |s|
    ensures s != [] && IsWhitespace(s[0]) ==> |TrimStart(s)| < |s|
    ensures TrimStart(s) == [] || !IsWhitespace(TrimStart(s)[0])
    ensures TrimStart(s) == [] <==> forall i :: 0 <= i < |s| ==> IsWhitespace(s[i])
    ensures TrimStart(s) != [] ==> TrimStart(s)[|TrimStart(s)| - 1] == s[|s| - 1]
    ensures forall c :: c in TrimStart(s) ==> c in s
  {
    if s != [] && IsWhitespace(s[0]) {
      var t := s[1..];
      TrimStartSpec(t);
      if forall i :: 0 <= i < |t| ==> IsWhitespace(t[i]) {
        forall i | 0 <= i < |s| ensures IsWhitespace(s[i]) {
          if i > 0 {
            assert s[i] == t[i - 1];
          }
        }
      }
      forall c | c in TrimStart(t) ensures c in s {
        var j :| 0 <= j < |t| && t[j] == c;
        assert s[j + 1] == c;
      }
    }
  }

  /** `s.trimEnd()`: the prefix left before the trailing whitespace. */
  function TrimEnd(s: string): string
  {
    if s != [] && IsWhitespace(s[|s| - 1]) then TrimEnd(s[..|s| - 1]) else s
  }

  /** What `s.trimEnd()` leaves: no longer than `s`, and empty exactly when
      `s` is all whitespace. */
  lemma {:induction false} TrimEndSpec(s: string)
    ensures |TrimEnd(s)| <= |s|
    ensures TrimEnd(s) == [] <==> forall i :: 0 <= i < |s| ==> IsWhitespace(s[i])
  {
    if s != [] && IsWhitespace(s[|s| - 1]) {
      var t := s[..|s| - 1];
      TrimEndSpec(t);
      if forall i :: 0 <= i < |t| ==> IsWhitespace(t[i]) {
        forall i | 0 <= i < |s| ensures IsWhitespace(s[i]) {
          if i < |t| {
            assert s[i] == t[i];
          }
        }
      }
    }
  }

  /** `s.trim()`. */
  function Trim(s: string): string
  {
    TrimEnd(TrimStart(s))
  }

  /** A string trims to "" exactly when all its characters are whitespace. */
  lemma TrimEmptyIff(s: string)
    ensures Trim(s) == [] <==> forall i :: 0 <= i < |s| ==> IsWhitespace(s[i])
  {
    var t := TrimStart(s);
    TrimStartSpec(s);
    TrimEndSpec(t);
    if Trim(s) == [] {
      assert t == [];
    }
  }

  // ---------------------------------------------------------------------
  // Number.parseInt (radix omitted)

  /** The longest prefix of `s` made of decimal digits. */
  function DigitPrefix(s: string): (d: string)
    ensures |d| <= |s| && AllDigits(d) && forall i :: 0 <= i < |d| ==> d[i] == s[i]
    ensures |d| == |s| || !IsDigit(s[|d|])
  {
    if s != [] && IsDigit(s[0]) then [s[0]] + DigitPrefix(s[1..]) else []
  }

  /** The value of the leading digits of `u`, NaN when there are none. */
  function ParseDigits(u: string): JsInt
  {
    var digits := DigitPrefix(u);
    if digits == [] then NaN else Int(DigitsValue(digits))
  }

  function Negate(x: JsInt): JsInt
  {
    match x
    case NaN => NaN
    case Int(v) => Int(-v)
  }

  /** `Number.parseInt(s)`: skip leading whitespace, read an optional sign
      and the longest run of decimal digits; NaN when there is none. */
  function ParseInt(s: string): JsInt
  {
    var t := TrimStart(s);
    if t != [] && t[0] == '-' then Negate(ParseDigits(t[1..]))
    else if t != [] && t[0] == '+' then ParseDigits(t[1..])
    else ParseDigits(t)
  }

  lemma TrimStartOfNonWhitespace(s: string)
    requires s == [] || !IsWhitespace(s[0])
    ensures TrimStart(s) == s
  {
  }

  lemma DigitPrefixOfDigits(s: string)
    requires AllDigits(s)
    ensures DigitPrefix(s) == s
  {
    var d := DigitPrefix(s);
    assert |d| == |s|;
  }

  lemma ParseDigitsOfDigits(s: string)
    requires |s| > 0 && AllDigits(s)
    ensures ParseDigits(s) == Int(DigitsValue(s))
  {
    DigitPrefixOfDigits(s);
  }

  /** A non-empty run of digits parses to its value. */
  lemma ParseIntOfDigits(digits: string)
    requires |digits| > 0 && AllDigits(digits)
    ensures ParseInt(digits) == Int(DigitsValue(digits))
  {
    assert IsDigit(digits[0]);
    TrimStartOfNonWhitespace(digits);
    ParseDigitsOfDigits(digits);
  }

  lemma ParseIntOfNegatedDigits(digits: string)
    requires |digits| > 0 && AllDigits(digits)
    ensures ParseInt("-" + digits) == Int(-(DigitsValue(digits) as int))
  {
    var s := "-" + digits;
    TrimStartOfNonWhitespace(s);
    assert ParseInt(s) == Negate(ParseDigits(s[1..]));
    assert s[1..] == digits;
    NegatedParse(digits);
  }

  lemma NegatedParse(digits: string)
    requires |digits| > 0 && AllDigits(digits)
    ensures Negate(ParseDigits(digits)) == Int(-(DigitsValue(digits) as int))
  {
    ParseDigitsOfDigits(digits);
    NegateInt(ParseDigits(digits), DigitsValue(digits));
  }

  lemma NegateInt(x: JsInt, v: int)
    requires x == Int(v)
    ensures Negate(x) == Int(-v)
  {
  }

  /** Writing an integer out and parsing it back gives the integer. */
  lemma ParseIntOfIntToString(i: int)
    ensures ParseInt(IntToString(i)) == Int(i)
  {
    if i < 0 {
      var digits := NatToString(-i);
      assert IntToString(i) == "-" + digits;
      DigitsOfNat(-i);
      ParseIntOfNegatedDigits(digits);
    } else {
      var digits := NatToString(i);
      assert IntToString(i) == digits;
      DigitsOfNat(i);
      ParseIntOfDigits(digits);
    }
  }

  /** Storing `x.toString()` and parsing it back gives `x`, NaN included. */
  lemma ParseIntOfJsToString(x: JsInt)
    ensures ParseInt(JsToString(x)) == x
  {
    match x
    case NaN =>
      var s := "NaN";
      assert TrimStart(s) == s;
      assert DigitPrefix(s) == [];
    case Int(v) =>
      ParseIntOfIntToString(v);
  }

  // ---------------------------------------------------------------------
  // s.replace(/\s+/g, "-")

  /** Every maximal run of whitespace replaced by a single `-`. */
  function ReplaceWhitespaceRuns(s: string): string
    decreases |s|
  {
    if s == [] then []
    else if IsWhitespace(s[0]) then
      TrimStartSpec(s);
      "-" + ReplaceWhitespaceRuns(TrimStart(s))
    else [s[0]] + ReplaceWhitespaceRuns(s[1..])
  }

  predicate NoWhitespace(s: string)
  {
    forall i :: 0 <= i < |s| ==> !IsWhitespace(s[i])
  }

  /** The replacement leaves no whitespace behind. */
  lemma {:induction false} ReplaceLeavesNoWhitespace(s: string)
    ensures NoWhitespace(ReplaceWhitespaceRuns(s))
    decreases |s|
  {
    if s != [] {
      if IsWhitespace(s[0]) {
        TrimStartSpec(s);
        ReplaceLeavesNoWhitespace(TrimStart(s));
      } else {
        ReplaceLeavesNoWhitespace(s[1..]);
      }
    }
  }

  /** A string without whitespace is left as it is. */
  lemma {:induction false} ReplaceKeepsPlainText(s: string)
    requires NoWhitespace(s)
    ensures ReplaceWhitespaceRuns(s) == s
  {
    if s != [] {
      assert !IsWhitespace(s[0]);
      ReplaceKeepsPlainText(s[1..]);
    }
  }

  /** Replacing twice is replacing once. */
  lemma ReplaceIdempotent(s: string)
    ensures ReplaceWhitespaceRuns(ReplaceWhitespaceRuns(s)) == ReplaceWhitespaceRuns(s)
  {
    ReplaceLeavesNoWhitespace(s);
    ReplaceKeepsPlainText(ReplaceWhitespaceRuns(s));
  }

  /** One whole whitespace run `w`, with text on either side that does not
      continue it, becomes exactly one `-` between the two replaced sides. */
  lemma {:induction false} ReplaceOneRun(a: string, w: string, b: string)
    requires a == [] || !IsWhitespace(a[|a| - 1])
    requires |w| > 0 && forall i :: 0 <= i < |w| ==> IsWhitespace(w[i])
    requires b == [] || !IsWhitespace(b[0])
    ensures ReplaceWhitespaceRuns(a + (w + b))
         == ReplaceWhitespaceRuns(a) + ("-" + ReplaceWhitespaceRuns(b))
    decreases |a|
  {
    var t := w + b;
    if a == [] {
      ReplaceLeadingRun(w, b);
      assert a + t == t;
    } else if IsWhitespace(a[0]) {
      var ra := TrimStart(a);
      TrimStartSpec(a);
      assert |ra| < |a|;
      assert ra != [];
      assert ra[|ra| - 1] == a[|a| - 1];
      ReplaceOneRun(ra, w, b);
      OneRunAfterWhitespace(a, t, "-" + ReplaceWhitespaceRuns(b));
    } else {
      assert a[1..] == [] || !IsWhitespace(a[1..][|a[1..]| - 1]) by {
        if a[1..] != [] { assert a[1..][|a[1..]| - 1] == a[|a| - 1]; }
      }
      ReplaceOneRun(a[1..], w, b);
      OneRunAfterChar(a, t, "-" + ReplaceWhitespaceRuns(b));
    }
  }

  lemma OneRunAfterWhitespace(a: string, t: string, z: string)
    requires a != [] && IsWhitespace(a[0]) && TrimStart(a) != []
    requires ReplaceWhitespaceRuns(TrimStart(a) + t) == ReplaceWhitespaceRuns(TrimStart(a)) + z
    ensures ReplaceWhitespaceRuns(a + t) == ReplaceWhitespaceRuns(a) + z
  {
    ReplaceSkipsLeadingRun(a, t);
    AppendAssoc("-", ReplaceWhitespaceRuns(TrimStart(a)), z);
  }

  lemma OneRunAfterChar(a: string, t: string, z: string)
    requires a != [] && !IsWhitespace(a[0])
    requires ReplaceWhitespaceRuns(a[1..] + t) == ReplaceWhitespaceRuns(a[1..]) + z
    ensures ReplaceWhitespaceRuns(a + t) == ReplaceWhitespaceRuns(a) + z
  {
    ReplaceKeepsLeadingChar(a, t);
    AppendAssoc([a[0]], ReplaceWhitespaceRuns(a[1..]), z);
  }

  lemma AppendAssoc(x: string, y: string, z: string)
    ensures x + (y + z) == (x + y) + z
  {
  }

  /** A leading whitespace run becomes one `-`. */
  lemma ReplaceLeadingRun(w: string, b: string)
    requires |w| > 0 && forall i :: 0 <= i < |w| ==> IsWhitespace(w[i])
    requires b == [] || !IsWhitespace(b[0])
    ensures ReplaceWhitespaceRuns(w + b) == "-" + ReplaceWhitespaceRuns(b)
  {
    assert (w + b)[0] == w[0];
    TrimStartOfRun(w, b);
  }

  /** Replacement on `a + t` when `a` starts with whitespace that ends inside `a`. */
  lemma ReplaceSkipsLeadingRun(a: string, t: string)
    requires a != [] && IsWhitespace(a[0]) && TrimStart(a) != []
    ensures ReplaceWhitespaceRuns(a + t) == "-" + ReplaceWhitespaceRuns(TrimStart(a) + t)
    ensures ReplaceWhitespaceRuns(a) == "-" + ReplaceWhitespaceRuns(TrimStart(a))
  {
    assert (a + t)[0] == a[0];
    TrimStartOfPrefix(a, t);
  }

  /** Replacement on `a + t` when `a` starts with a character that is not whitespace. */
  lemma ReplaceKeepsLeadingChar(a: string, t: string)
    requires a != [] && !IsWhitespace(a[0])
    ensures ReplaceWhitespaceRuns(a + t) == [a[0]] + ReplaceWhitespaceRuns(a[1..] + t)
    ensures ReplaceWhitespaceRuns(a) == [a[0]] + ReplaceWhitespaceRuns(a[1..])
  {
    assert (a + t)[0] == a[0];
    assert (a + t)[1..] == a[1..] + t;
  }

  /** TrimStart drops a whole leading run of whitespace. */
  lemma {:induction false} TrimStartOfRun(w: string, b: string)
    requires forall i :: 0 <= i < |w| ==> IsWhitespace(w[i])
    requires b == [] || !IsWhitespace(b[0])
    ensures TrimStart(w + b) == b
  {
    if w != [] {
      assert IsWhitespace(w[0]);
      assert (w + b)[1..] == w[1..] + b;
      TrimStartOfRun(w[1..], b);
    } else {
      assert w + b == b;
    }
  }

  /** When a text has something left after its leading whitespace, what
      follows the text is untouched by TrimStart. */
  lemma {:induction false} TrimStartOfPrefix(a: string, t: string)
    requires TrimStart(a) != []
    ensures TrimStart(a + t) == TrimStart(a) + t
  {
    assert (a + t)[0] == a[0];
    if IsWhitespace(a[0]) {
      assert TrimStart(a) == TrimStart(a[1..]);
      assert (a + t)[1..] == a[1..] + t;
      TrimStartOfPrefix(a[1..], t);
      assert TrimStart(a + t) == TrimStart(a[1..] + t);
    } else {
      assert TrimStart(a) == a;
      assert TrimStart(a + t) == a + t;
    }
  }

  // ---------------------------------------------------------------------
  // toLowerCase (ASCII letters only) and includes

  function LowerChar(c: char): char
  {
    if 'A' <= c <= 'Z' then (c as int + 32) as char else c
  }

  function ToLower(s: string): (r: string)
    ensures |r| == |s|
  {
    if s == [] then [] else [LowerChar(s[0])] + ToLower(s[1..])
  }

  predicate OccursAt(s: string, sub: string, i: int)
  {
    0 <= i && i + |sub| <= |s| && s[i..i + |sub|] == sub
  }

  /** `s.includes(sub)`. */
  predicate Includes(s: string, sub: string)
  {
    exists i | 0 <= i <= |s| :: OccursAt(s, sub, i)
  }

  // ---------------------------------------------------------------------
  // Array.prototype.join and String.prototype.split with one separator

  /** `parts.join(sep)`. */
  function Join(parts: seq<string>, sep: char): string
  {
    if parts == [] then []
    else if |parts| == 1 then parts[0]
    else parts[0] + [sep] + Join(parts[1..], sep)
  }

  lemma JoinCons(x: string, rest: seq<string>, sep: char)
    requires rest != []
    ensures Join([x] + rest, sep) == x + [sep] + Join(rest, sep)
  {
    assert ([x] + rest)[1..] == rest;
  }

  /** A line avoiding `c` put in front of lines avoiding `c`. */
  lemma ConsAvoids(h: string, lines: seq<string>, c: char)
    requires c !in h
    requires forall j :: 0 <= j < |lines| ==> c !in lines[j]
    ensures forall j :: 0 <= j < |[h] + lines| ==> c !in ([h] + lines)[j]
  {
    forall j | 0 < j < |[h] + lines| ensures c !in ([h] + lines)[j] {
      assert ([h] + lines)[j] == lines[j - 1];
    }
  }

  /** A separator inside the first part splits it in two when the join is
      split again. */
  lemma SplitJoinSeparatorInFirst(first: string, last: string, rest: seq<string>, sep: char)
    requires sep !in first && sep !in last && rest != []
    requires forall i :: 0 <= i < |rest| ==> sep !in rest[i]
    ensures Split(Join([first + [sep] + last] + rest, sep), sep) == [first, last] + rest
  {
    var parts := [first, last] + rest;
    var tail := Join(rest, sep);
    assert Join(parts, sep) == first + [sep] + (last + [sep] + tail) by {
      JoinCons(last, rest, sep);
      assert parts == [first] + ([last] + rest);
      JoinCons(first, [last] + rest, sep);
    }
    JoinCons(first + [sep] + last, rest, sep);
    assert first + [sep] + (last + [sep] + tail) == (first + [sep] + last) + [sep] + tail;
    forall i | 0 <= i < |parts| ensures sep !in parts[i] {
      if i >= 2 {
        assert parts[i] == rest[i - 2];
      }
    }
    SplitJoin(parts, sep);
  }

  /** `s.split(sep)`: never empty; the empty string splits into [""]. */
  function Split(s: string, sep: char): (parts: seq<string>)
    ensures |parts| > 0
  {
    if s == [] then [[]]
    else if s[0] == sep then [[]] + Split(s[1..], sep)
    else
      var rest := Split(s[1..], sep);
      [[s[0]] + rest[0]] + rest[1..]
  }

  lemma {:induction false} SplitWithoutSeparator(p: string, sep: char)
    requires sep !in p
    ensures Split(p, sep) == [p]
  {
    if p != [] {
      assert p[0] in p;
      assert sep !in p[1..] by {
        forall i | 0 <= i < |p[1..]| ensures p[1..][i] != sep { assert p[1..][i] == p[i + 1]; }
      }
      SplitWithoutSeparator(p[1..], sep);
      assert [p[0]] + p[1..] == p;
    }
  }

  lemma {:induction false} SplitAtSeparator(p: string, sep: char, t: string)
    requires sep !in p
    ensures Split(p + [sep] + t, sep) == [p] + Split(t, sep)
  {
    var s := p + [sep] + t;
    if p == [] {
      assert s[0] == sep && s[1..] == t;
    } else {
      assert p[0] in p;
      assert sep !in p[1..] by {
        forall i | 0 <= i < |p[1..]| ensures p[1..][i] != sep { assert p[1..][i] == p[i + 1]; }
      }
      assert s[0] == p[0] && s[1..] == p[1..] + [sep] + t;
      SplitAtSeparator(p[1..], sep, t);
      assert [p[0]] + p[1..] == p;
    }
  }

  /** Splitting a join gives back the parts when no part holds the separator. */
  lemma {:induction false} SplitJoin(parts: seq<string>, sep: char)
    requires |parts| > 0
    requires forall i :: 0 <= i < |parts| ==> sep !in parts[i]
    ensures Split(Join(parts, sep), sep) == parts
  {
    if |parts| == 1 {
      SplitWithoutSeparator(parts[0], sep);
    } else {
      SplitJoin(parts[1..], sep);
      SplitAtSeparator(parts[0], sep, Join(parts[1..], sep));
      assert [parts[0]] + parts[1..] == parts;
    }
  }

  /** A character that is neither in any part nor the separator is not in the joined text. */
  lemma {:induction false} JoinAvoids(parts: seq<string>, sep: char, c: char)
    requires c != sep
    requires forall i :: 0 <= i < |parts| ==> c !in parts[i]
    ensures c !in Join(parts, sep)
  {
    if |parts| > 1 {
      JoinAvoids(parts[1..], sep, c);
    }
  }

  /** The text of a number holds only digits and a leading minus sign. */
  lemma IntToStringAvoids(i: int, c: char)
    requires !IsDigit(c) && c != '-'
    ensures c !in IntToString(i)
  {
    var s := if i < 0 then NatToString(-i) else NatToString(i);
    assert AllDigits(s);
  }

  // ---------------------------------------------------------------------
  // Math.round and the remainder operator

  /** `Math.round(x)`: the nearest integer, halves rounded up. */
  function Round(x: real): (n: int)
    ensures n as real - 0.5 <= x < n as real + 0.5
  {
    (x + 0.5).Floor
  }

  /** `Math.trunc(a / b)`: the quotient rounded toward zero. */
  function TruncDiv(a: int, b: int): int
    requires b > 0
  {
    if a >= 0 then a / b else -((-a) / b)
  }

  /** The remainder `a % b` of JavaScript for a positive divisor: what is
      left of `a` after the quotient rounded toward zero, so it takes the
      sign of the dividend, unlike Dafny's Euclidean `%`. */
  function JsRem(a: int, b: int): (r: int)
    requires b > 0
    ensures a == TruncDiv(a, b) * b + r
    ensures -b < r < b
    ensures a >= 0 ==> r >= 0
    ensures a <= 0 ==> r <= 0
  {
    if a >= 0 then a % b else -((-a) % b)
  }
}

/**
  The JavaScript built-ins the application leans on, stated over mathematical integers and
  character sequences: truthiness and `||`, `Number.prototype.toString`, `String.prototype.padStart`,
  `Number(string)`, `toLowerCase`, `includes` and `startsWith`.
*/
module Js {
  import opened Wrappers

  /** A JavaScript value as it appears in a JSON body or in a React state record.
      Numbers are integers (the ids, counts and timestamps of the application are). */
  datatype Value = Undefined | Null | Str(s: string) | Num(n: int) | NaN

  /** JavaScript truthiness: `undefined`, `null`, `NaN`, `''` and `0` are falsy. */
  predicate Truthy(v: Value) {
    match v
    case Str(s) => s != ""
    case Num(n) => n != 0
    case _ => false
  }

  /** `a || b` */
  function Or(a: Value, b: Value): Value {
    if Truthy(a) then a else b
  }

  lemma OrPicksTruthy(a: Value, b: Value)
    ensures Truthy(Or(a, b)) <==> Truthy(a) || Truthy(b)
    ensures Truthy(b) ==> Truthy(Or(a, b))
  {
  }

  // ---------------------------------------------------------------------------
  // Decimal digits

  predicate IsDigit(c: char) {
    '0' <= c <= '9'
  }

  predicate AllDigits(s: string) {
    forall i :: 0 <= i < |s| ==> IsDigit(s[i])
  }

  function DigitChar(d: nat): (c: char)
    requires d < 10
    ensures IsDigit(c)
  {
    (('0' as int) + d) as char
  }

  function DigitValue(c: char): (d: nat)
    requires IsDigit(c)
    ensures d < 10
  {
    (c as int) - ('0' as int)
  }

  function Pow10(k: nat): (p: nat)
    ensures p >= 1
  {
    if k == 0 then 1 else 10 * Pow10(k - 1)
  }

  /** `n.toString()` for a non-negative integer: its shortest decimal form, no leading zero. */
  function NatToString(n: nat): (r: string)
    ensures |r| >= 1 && AllDigits(r)
    ensures |r| > 1 ==> r[0] != '0'
  {
    if n < 10 then [DigitChar(n)] else NatToString(n / 10) + [DigitChar(n % 10)]
  }

  /** `i.toString()` for any integer. */
  function IntToString(i: int): (r: string)
    ensures |r| >= 1
  {
    if i < 0 then "-" + NatToString(-i) else NatToString(i)
  }

  /** The value of a string of decimal digits, read most significant first. */
  function DigitsValue(s: string): nat
    requires AllDigits(s)
  {
    if s == [] then 0 else DigitsValue(s[..|s| - 1]) * 10 + DigitValue(s[|s| - 1])
  }

  /** A string of k digits is worth less than 10^k. */
  lemma {:induction false} DigitsValueBound(s: string)
    requires AllDigits(s)
    ensures DigitsValue(s) < Pow10(|s|)
  {
    if s != [] {
      DigitsValueBound(s[..|s| - 1]);
    }
  }

  lemma {:induction false} NatToStringRoundTrip(n: nat)
    ensures DigitsValue(NatToString(n)) == n
  {
    var r := NatToString(n);
    if n >= 10 {
      assert r[..|r| - 1] == NatToString(n / 10);
      NatToStringRoundTrip(n / 10);
    }
  }

  lemma NatToStringInjective(m: nat, n: nat)
    ensures NatToString(m) == NatToString(n) ==> m == n
  {
    NatToStringRoundTrip(m);
    NatToStringRoundTrip(n);
  }

  lemma {:induction false} NatToStringLength(n: nat, k: nat)
    requires 1 <= k && n < Pow10(k)
    ensures |NatToString(n)| <= k
  {
    if n >= 10 {
      assert k >= 2;
      assert n / 10 < Pow10(k - 1);
      NatToStringLength(n / 10, k - 1);
    }
  }

  lemma {:induction false} NatToStringLengthAtLeast(n: nat, k: nat)
    requires Pow10(k) <= n
    ensures |NatToString(n)| > k
  {
    if k > 0 {
      assert Pow10(k - 1) <= n / 10;
      NatToStringLengthAtLeast(n / 10, k - 1);
    }
  }

  function Repeat(c: char, k: nat): (r: string)
    ensures |r| == k
    ensures forall i :: 0 <= i < k ==> r[i] == c
  {
    seq(k, _ => c)
  }

  /** `s.padStart(width, [fill])` */
  function PadStart(s: string, width: nat, fill: char): (r: string)
    ensures |r| == if |s| >= width then |s| else width
    ensures r[|r| - |s|..] == s
    ensures forall i :: 0 <= i < |r| - |s| ==> r[i] == fill
  {
    if |s| >= width then s else Repeat(fill, width - |s|) + s
  }

  lemma {:induction false} ZerosValue(k: nat)
    ensures AllDigits(Repeat('0', k)) && DigitsValue(Repeat('0', k)) == 0
  {
    if k > 0 {
      assert Repeat('0', k)[..k - 1] == Repeat('0', k - 1);
      ZerosValue(k - 1);
    }
  }

  /** Leading zeros do not change the value of a digit string. */
  lemma {:induction false} LeadingZerosValue(k: nat, s: string)
    requires AllDigits(s)
    ensures AllDigits(Repeat('0', k) + s)
    ensures DigitsValue(Repeat('0', k) + s) == DigitsValue(s)
  {
    var z := Repeat('0', k) + s;
    if s == [] {
      assert z == Repeat('0', k);
      ZerosValue(k);
    } else {
      assert z[..|z| - 1] == Repeat('0', k) + s[..|s| - 1];
      LeadingZerosValue(k, s[..|s| - 1]);
    }
  }

  // ---------------------------------------------------------------------------
  // Reading numbers from text

  /** The characters `Number()` strips from both ends: ECMAScript's white space
      (tab, vertical tab, form feed, space, no-break space, the byte-order mark and the
      space separators) and its line terminators. */
  predicate IsJsSpace(c: char) {
    var k := c as int;
    k == 0x09 || k == 0x0B || k == 0x0C || k == 0x20 || k == 0xA0 || k == 0xFEFF
    || k == 0x0A || k == 0x0D || k == 0x2028 || k == 0x2029
    || k == 0x1680 || 0x2000 <= k <= 0x200A || k == 0x202F || k == 0x205F || k == 0x3000
  }

  /** `s` without the characters at its front that satisfy `space`. */
  function TrimStart(s: string, space: char -> bool): (r: string)
    ensures |r| <= |s| && r == s[|s| - |r|..]
    ensures r == [] || !space(r[0])
    decreases |s|
  {
    if s != [] && space(s[0]) then TrimStart(s[1..], space) else s
  }

  /** `s` without the characters at its end that satisfy `space`. */
  function TrimEnd(s: string, space: char -> bool): (r: string)
    ensures |r| <= |s| && r == s[..|r|]
    ensures r == [] || !space(r[|r| - 1])
    decreases |s|
  {
    if s != [] && space(s[|s| - 1]) then TrimEnd(s[..|s| - 1], space) else s
  }

  function Trim(s: string, space: char -> bool): string {
    TrimEnd(TrimStart(s, space), space)
  }

  predicate AllSpace(s: string, space: char -> bool) {
    forall i :: 0 <= i < |s| ==> space(s[i])
  }

  /** Trimming removes exactly the white space around a text that neither starts nor ends
      with white space. */
  lemma {:induction false} TrimPadded(front: string, core: string, back: string, space: char -> bool)
    requires AllSpace(front, space) && AllSpace(back, space)
    requires core != [] && !space(core[0]) && !space(core[|core| - 1])
    ensures Trim(front + core + back, space) == core
  {
    assert front + core + back == front + (core + back);
    TrimStartPadded(front, core + back, space);
    TrimEndPadded(core, back, space);
  }

  lemma {:induction false} TrimStartPadded(front: string, rest: string, space: char -> bool)
    requires AllSpace(front, space)
    requires rest != [] && !space(rest[0])
    ensures TrimStart(front + rest, space) == rest
    decreases |front|
  {
    if front != [] {
      var s := front + rest;
      assert s[0] == front[0] && space(s[0]);
      assert s[1..] == front[1..] + rest;
      var shorter := front[1..];
      assert AllSpace(shorter, space) by {
        forall i | 0 <= i < |shorter| ensures space(shorter[i]) {
          assert shorter[i] == front[i + 1];
        }
      }
      TrimStartPadded(shorter, rest, space);
    } else {
      assert front + rest == rest;
    }
  }

  lemma {:induction false} TrimEndPadded(rest: string, back: string, space: char -> bool)
    requires AllSpace(back, space)
    requires rest != [] && !space(rest[|rest| - 1])
    ensures TrimEnd(rest + back, space) == rest
    decreases |back|
  {
    if back != [] {
      var s := rest + back;
      assert s[|s| - 1] == back[|back| - 1] && space(s[|s| - 1]);
      var shorter := back[..|back| - 1];
      assert s[..|s| - 1] == rest + shorter;
      assert AllSpace(shorter, space) by {
        forall i | 0 <= i < |shorter| ensures space(shorter[i]) {
          assert shorter[i] == back[i];
        }
      }
      TrimEndPadded(rest, shorter, space);
    } else {
      assert rest + back == rest;
    }
  }

  /** A decimal integer: an optional `+` or `-` followed by at least one digit. */
  function SignedDigits(s: string): (r: Option<int>)
    ensures r.Some? ==> s != [] && (IsDigit(s[0]) || s[0] == '+' || s[0] == '-')
  {
    if s != [] && AllDigits(s) then Some(DigitsValue(s))
    else if |s| > 1 && s[0] == '+' && AllDigits(s[1..]) then Some(DigitsValue(s[1..]))
    else if |s| > 1 && s[0] == '-' && AllDigits(s[1..]) then Some(-(DigitsValue(s[1..]) as int))
    else None
  }

  /** An integer written by `toString`, with or without a `+` in front of a non-negative one,
      reads back as that integer. */
  lemma SignedDigitsIntToString(i: int)
    ensures SignedDigits(IntToString(i)) == Some(i)
    ensures i >= 0 ==> SignedDigits("+" + IntToString(i)) == Some(i)
  {
    var r := IntToString(i);
    if i < 0 {
      assert r[1..] == NatToString(-i);
      assert !IsDigit(r[0]);
      NatToStringRoundTrip(-i);
    } else {
      assert ("+" + r)[1..] == r;
      NatToStringRoundTrip(i);
    }
  }

  /** `toString` output starts with a digit or a minus sign and ends with a digit. */
  lemma IntToStringEnds(i: int)
    ensures var r := IntToString(i);
      && (IsDigit(r[0]) || r[0] == '-') && IsDigit(r[|r| - 1])
  {
    var r := IntToString(i);
    if i < 0 {
      assert r[|r| - 1] == NatToString(-i)[|NatToString(-i)| - 1];
    }
  }

  /** `Number(s)` for texts that, once the white space around them is stripped, are empty or
      an optionally signed run of decimal digits; every other text reads as NaN. */
  function NumberOf(s: string): (r: Value)
    ensures r.Num? || r == NaN
    ensures AllSpace(s, IsJsSpace) ==> r == Num(0)
  {
    var t := Trim(s, IsJsSpace);
    if t == "" then Num(0)
    else match SignedDigits(t)
      case Some(n) => Num(n)
      case None => NaN
  }

  /** `Number(i.toString())` is `i`. */
  lemma NumberOfIntToString(i: int)
    ensures NumberOf(IntToString(i)) == Num(i)
  {
    NumberOfPadded([], i, false, []);
    assert [] + SignedString(i, false) + [] == IntToString(i);
  }

  /** `Number` reads an integer's `toString` back also with a `+` in front of a non-negative
      one and with white space around it. */
  lemma NumberOfPadded(front: string, i: int, plus: bool, back: string)
    requires AllSpace(front, IsJsSpace) && AllSpace(back, IsJsSpace)
    requires plus ==> i >= 0
    ensures NumberOf(front + SignedString(i, plus) + back) == Num(i)
  {
    SignedDigitsPadded(front, i, plus, back, IsJsSpace);
  }

  /** An integer's `toString`, with a `+` in front of a non-negative one and white space around
      it, reads back as the integer once the white space is trimmed. */
  lemma SignedDigitsPadded(front: string, i: int, plus: bool, back: string, space: char -> bool)
    requires AllSpace(front, space) && AllSpace(back, space)
    requires plus ==> i >= 0
    requires !space('+') && !space('-') && forall c :: IsDigit(c) ==> !space(c)
    ensures SignedDigits(Trim(front + SignedString(i, plus) + back, space)) == Some(i)
  {
    SignedText(i, plus);
    TrimPadded(front, SignedString(i, plus), back, space);
  }

  /** `i.toString()`, with a `+` in front when `plus` holds. */
  function SignedString(i: int, plus: bool): string {
    (if plus then "+" else "") + IntToString(i)
  }

  /** The text of an integer, with an optional `+`, starts with a sign or a digit, ends with a
      digit, and reads back as the integer. */
  lemma SignedText(i: int, plus: bool)
    requires plus ==> i >= 0
    ensures var core := SignedString(i, plus);
      && core != [] && (IsDigit(core[0]) || core[0] == '+' || core[0] == '-') && IsDigit(core[|core| - 1])
      && SignedDigits(core) == Some(i)
  {
    var r := IntToString(i);
    var core := SignedString(i, plus);
    IntToStringEnds(i);
    SignedDigitsIntToString(i);
    if plus {
      assert core == "+" + r;
    } else {
      assert core == r;
    }
    assert core[|core| - 1] == r[|r| - 1];
  }




  /** `String(v)` */
  function ToString(v: Value): string {
    match v
    case Undefined => "undefined"
    case Null => "null"
    case Str(s) => s
    case Num(n) => IntToString(n)
    case NaN => "NaN"
  }

  /** `obj.key` on a parsed JSON object: `undefined` when the key is absent. */
  function Prop(obj: map<string, Value>, key: string): (v: Value)
    ensures key !in obj ==> v == Undefined
    ensures key in obj ==> v == obj[key]
  {
    if key in obj then obj[key] else Undefined
  }

  /** `new Date(v)`, as its millisecond value, with `NaN` for an invalid date. `parse` is the
      engine's date-string parser, which is not part of this model. */
  function NewDate(v: Value, parse: string -> Option<int>): (d: Value)
    ensures d.Num? || d == NaN
    ensures v == Null ==> d == Num(0)
    ensures v == Undefined ==> d == NaN
  {
    match v
    case Undefined => NaN
    case Null => Num(0)
    case Num(n) => Num(n)
    case NaN => NaN
    case Str(s) => if parse(s).Some? then Num(parse(s).value) else NaN
  }

  // ---------------------------------------------------------------------------
  // Strings

  /** `toLowerCase` on one character; only the ASCII letters are mapped. */
  function LowerChar(c: char): char {
    if 'A' <= c <= 'Z' then ((c as int) + 32) as char else c
  }

  function ToLower(s: string): (r: string)
    ensures |r| == |s|
    ensures forall i :: 0 <= i < |s| ==> r[i] == LowerChar(s[i])
  {
    seq(|s|, i requires 0 <= i < |s| => LowerChar(s[i]))
  }

  /** `s.startsWith(prefix)` */
  predicate StartsWith(s: string, prefix: string) {
    |prefix| <= |s| && s[..|prefix|] == prefix
  }

  /** `s.includes(part)` */
  predicate Includes(s: string, part: string)
    ensures Includes(s, part) ==> |part| <= |s|
    ensures StartsWith(s, part) ==> Includes(s, part)
    decreases |s|
  {
    StartsWith(s, part) || (s != [] && Includes(s[1..], part))
  }

  ghost predicate OccursAt(s: string, part: string, i: int) {
    0 <= i && i + |part| <= |s| && s[i..i + |part|] == part
  }

  /** `includes` finds exactly the substrings of `s`. */
  lemma {:induction false} IncludesIff(s: string, part: string)
    ensures Includes(s, part) <==> exists i :: OccursAt(s, part, i)
    decreases |s|
  {
    if StartsWith(s, part) {
      assert OccursAt(s, part, 0);
    } else if s != [] {
      IncludesIff(s[1..], part);
      if exists i :: OccursAt(s[1..], part, i) {
        var i :| OccursAt(s[1..], part, i);
        assert s[i + 1..i + 1 + |part|] == s[1..][i..i + |part|];
        assert OccursAt(s, part, i + 1);
      }
      if exists i :: OccursAt(s, part, i) {
        var i :| OccursAt(s, part, i);
        assert i != 0;
        assert s[1..][i - 1..i - 1 + |part|] == s[i..i + |part|];
        assert OccursAt(s[1..], part, i - 1);
      }
    }
  }
}

/**
 * Decimal identifiers: `parseNumericId` (src/helpers/number.ts), which follows
 * JavaScript's `parseInt(id, 10)`, and the `Number(...)` conversion the
 * controllers apply to ids, restricted to integer literals.
 */
module NumericId {
  import opened Wrappers

  const MsgNotProvided := "ID não fornecido"
  const MsgInvalid := "ID inválido"

  predicate IsDigit(c: char)
  {
    '0' <= c <= '9'
  }

  predicate AllDigits(s: string)
  {
    forall i :: 0 <= i < |s| ==> IsDigit(s[i])
  }

  function DigitValue(c: char): (d: nat)
    requires IsDigit(c)
    ensures d < 10
  {
    c as int - '0' as int
  }

  function DigitChar(d: nat): (c: char)
    requires d < 10
    ensures IsDigit(c) && DigitValue(c) == d
  {
    ('0' as int + d) as char
  }

  /** JavaScript's white space and line terminators, which `parseInt` and `Number` skip. */
  predicate IsJsWhitespace(c: char)
  {
    ('\t' <= c <= '\r') || c == ' ' || c == '\U{00A0}' || c == '\U{1680}' || ('\U{2000}' <= c <= '\U{200A}')
    || c == '\U{2028}' || c == '\U{2029}' || c == '\U{202F}' || c == '\U{205F}'
    || c == '\U{3000}' || c == '\U{FEFF}'
  }

  /** The string with its leading white space removed (see `TrimStartSpec`). */
  function TrimStart(s: string): (t: string)
    ensures |t| <= |s|
  {
    if s != [] && IsJsWhitespace(s[0]) then TrimStart(s[1..]) else s
  }

  /** The string with its trailing white space removed (see `TrimEndSpec`). */
  function TrimEnd(s: string): (t: string)
    ensures |t| <= |s|
  {
    if s != [] && IsJsWhitespace(s[|s| - 1]) then TrimEnd(s[..|s| - 1]) else s
  }

  /** `TrimStart` drops a run of white space from the front, and exactly that run. */
  lemma {:induction false} TrimStartSpec(s: string)
    ensures |TrimStart(s)| <= |s| && TrimStart(s) == s[|s| - |TrimStart(s)|..]
    ensures TrimStart(s) == [] || !IsJsWhitespace(TrimStart(s)[0])
    ensures forall i :: 0 <= i < |s| - |TrimStart(s)| ==> IsJsWhitespace(s[i])
  {
    if s != [] && IsJsWhitespace(s[0]) {
      var t := TrimStart(s[1..]);
      TrimStartSpec(s[1..]);
      assert TrimStart(s) == t;
      assert s[1..][|s| - 1 - |t|..] == s[|s| - |t|..];
      forall i | 0 <= i < |s| - |t|
        ensures IsJsWhitespace(s[i])
      {
        if i > 0 {
          assert s[i] == s[1..][i - 1];
        }
      }
    }
  }

  /** `TrimEnd` drops a run of white space from the back, and exactly that run. */
  lemma {:induction false} TrimEndSpec(s: string)
    ensures |TrimEnd(s)| <= |s| && TrimEnd(s) == s[..|TrimEnd(s)|]
    ensures TrimEnd(s) == [] || !IsJsWhitespace(TrimEnd(s)[|TrimEnd(s)| - 1])
    ensures forall i :: |TrimEnd(s)| <= i < |s| ==> IsJsWhitespace(s[i])
  {
    if s != [] && IsJsWhitespace(s[|s| - 1]) {
      var p := s[..|s| - 1];
      var t := TrimEnd(p);
      TrimEndSpec(p);
      assert TrimEnd(s) == t;
      assert p[..|t|] == s[..|t|];
      forall i | |t| <= i < |s|
        ensures IsJsWhitespace(s[i])
      {
        if i < |s| - 1 {
          assert s[i] == p[i];
        }
      }
    }
  }

  /** The longest prefix of `s` made of decimal digits. */
  function LeadingDigits(s: string): (d: string)
    ensures d <= s && AllDigits(d)
    ensures |d| == |s| || !IsDigit(s[|d|])
  {
    if s != [] && IsDigit(s[0]) then [s[0]] + LeadingDigits(s[1..]) else []
  }

  /** The value of a string of decimal digits, most significant first. */
  function DigitsValue(d: string): nat
    requires AllDigits(d)
  {
    if d == [] then 0 else 10 * DigitsValue(d[..|d| - 1]) + DigitValue(d[|d| - 1])
  }

  /** The decimal rendering of a natural number, without leading zeros. */
  function NatToDecimal(n: nat): (s: string)
    ensures s != [] && AllDigits(s)
    ensures DigitsValue(s) == n
    ensures s[0] != '0' || n == 0
  {
    if n < 10 then [DigitChar(n)]
    else
      var p := NatToDecimal(n / 10);
      var s := p + [DigitChar(n % 10)];
      assert s[..|s| - 1] == p;
      s
  }

  /**
   * The plain decimal rendering of `n`: what `String(n)` gives for an integer
   * JavaScript holds exactly (|n| < 2^53). Larger numbers are doubles, which
   * this model does not have.
   */
  function IntToDecimal(n: int): (s: string)
    ensures s != []
    ensures n < 0 <==> s[0] == '-'
  {
    if n < 0 then "-" + NatToDecimal(-n) else NatToDecimal(n)
  }

  /** What follows one optional sign at the start of `t`. */
  function Unsigned(t: string): string
  {
    if t != [] && (t[0] == '-' || t[0] == '+') then t[1..] else t
  }

  /** Whether `t` starts with a minus sign. */
  predicate IsMinus(t: string)
  {
    t != [] && t[0] == '-'
  }

  /** Applies the sign of `t` to a magnitude. */
  function Signed(t: string, magnitude: nat): int
  {
    var m: int := magnitude;
    if IsMinus(t) then -m else m
  }

  /**
   * `parseInt(s, 10)`: skip white space, take an optional sign, then the longest
   * run of decimal digits; no digit at all is NaN (`None`).
   */
  function ParseInt(s: string): (r: Option<int>)
    ensures r.None? <==> (Unsigned(TrimStart(s)) == [] || !IsDigit(Unsigned(TrimStart(s))[0]))
    ensures r.Some? ==> r.value == Signed(TrimStart(s), DigitsValue(LeadingDigits(Unsigned(TrimStart(s)))))
  {
    var t := TrimStart(s);
    var z := LeadingDigits(Unsigned(t));
    if z == [] then None else Some(Signed(t, DigitsValue(z)))
  }

  /**
   * `parseNumericId`: a missing id (`null`/`undefined`) throws "ID não fornecido",
   * an id `parseInt` reads as NaN throws "ID inválido", anything else yields an integer.
   */
  function ParseNumericId(id: Option<string>): (r: Result<int, string>)
    ensures id.None? ==> r == Failure(MsgNotProvided)
    ensures id.Some? ==> (r.Failure? <==> Unsigned(TrimStart(id.value)) == [] || !IsDigit(Unsigned(TrimStart(id.value))[0]))
    ensures id.Some? && r.Failure? ==> r.error == MsgInvalid
    ensures r.Success? ==> id.Some? && ParseInt(id.value) == Some(r.value)
  {
    match id
    case None => Failure(MsgNotProvided)
    case Some(s) =>
      var parsed := ParseInt(s);
      if parsed.None? then Failure(MsgInvalid) else Success(parsed.value)
  }

  /**
   * `Number(s)` on the strings this model admits: after trimming white space at
   * both ends, the empty string is 0, an optionally signed run of decimal digits
   * is its value, and everything else is NaN (`None`).
   */
  function ToNumber(s: string): (r: Option<int>)
    ensures TrimEnd(TrimStart(s)) == [] ==> r == Some(0)
    ensures r.Some? && r.value < 0 ==> IsMinus(TrimEnd(TrimStart(s)))
  {
    var t := TrimEnd(TrimStart(s));
    if t == [] then Some(0)
    else if Unsigned(t) != [] && AllDigits(Unsigned(t)) then Some(Signed(t, DigitsValue(Unsigned(t))))
    else None
  }


  /** A digit string followed by a non-digit stops at the non-digit. */
  lemma {:induction false} LeadingDigitsOf(d: string, rest: string)
    requires AllDigits(d)
    requires rest == [] || !IsDigit(rest[0])
    ensures LeadingDigits(d + rest) == d
  {
    if d != [] {
      assert (d + rest)[1..] == d[1..] + rest;
      LeadingDigitsOf(d[1..], rest);
    } else {
      assert d + rest == rest;
    }
  }

  /** `parseInt` reads the longest leading run of digits: `parseInt("12abc", 10)` is 12. */
  lemma DigitPrefixParses(d: string, rest: string)
    requires d != [] && AllDigits(d)
    requires rest == [] || !IsDigit(rest[0])
    ensures ParseInt(d + rest) == Some(DigitsValue(d))
    ensures ParseNumericId(Some(d + rest)) == Success(DigitsValue(d))
  {
    var s := d + rest;
    assert s[0] == d[0];
    assert TrimStart(s) == s;
    assert Unsigned(s) == s;
    LeadingDigitsOf(d, rest);
  }

  /** The example from the helper's behaviour: "12abc" yields 12. */
  lemma TwelveAbc()
    ensures ParseNumericId(Some("12abc")) == Success(12)
  {
    assert "12abc" == "12" + "abc";
    assert DigitsValue("12") == 12 by {
      assert "12"[..1] == "1";
    }
    DigitPrefixParses("12", "abc");
  }

  /** A digit or a sign is not white space. */
  lemma SignOrDigitNotBlank(c: char)
    requires IsDigit(c) || c == '-' || c == '+'
    ensures !IsJsWhitespace(c)
  {
  }

  /** Rendering a natural number: the digits are the whole string. */
  lemma NatDecimalParses(n: nat)
    ensures LeadingDigits(NatToDecimal(n)) == NatToDecimal(n)
  {
    var d := NatToDecimal(n);
    assert d + [] == d;
    LeadingDigitsOf(d, []);
  }

  /** Round trip: `parseInt(String(n), 10) === n`, on the plain decimal rendering of `n`. */
  lemma ParseIntRoundTrip(n: int)
    ensures ParseInt(IntToDecimal(n)) == Some(n)
    ensures ParseNumericId(Some(IntToDecimal(n))) == Success(n)
  {
    var s := IntToDecimal(n);
    var d := if n < 0 then NatToDecimal(-n) else NatToDecimal(n);
    SignOrDigitNotBlank(s[0]);
    assert TrimStart(s) == s;
    NatDecimalParses(if n < 0 then -n else n);
    if n < 0 {
      assert s[1..] == d;
      assert Unsigned(s) == d;
    } else {
      assert Unsigned(s) == d;
    }
  }

  /** Round trip for the controllers' conversion: `Number(String(n)) === n`, on the plain decimal rendering. */
  lemma ToNumberRoundTrip(n: int)
    ensures ToNumber(IntToDecimal(n)) == Some(n)
  {
    var s := IntToDecimal(n);
    var d := if n < 0 then NatToDecimal(-n) else NatToDecimal(n);
    SignOrDigitNotBlank(s[0]);
    assert TrimStart(s) == s;
    assert s[|s| - 1] == d[|d| - 1];
    SignOrDigitNotBlank(s[|s| - 1]);
    assert TrimEnd(s) == s;
    if n < 0 {
      assert s[1..] == d;
    }
  }

  lemma SplitAt(x: string, k: nat)
    requires k <= |x|
    ensures x == x[..k] + x[k..]
  {
  }

  /** Trailing white space never starts a run of digits. */
  lemma DigitsThenBlank(u: string, w: string)
    requires AllDigits(u)
    requires forall i :: 0 <= i < |w| ==> IsJsWhitespace(w[i])
    ensures LeadingDigits(u + w) == u
  {
    if w != [] {
      assert !IsDigit(w[0]);
    }
    LeadingDigitsOf(u, w);
  }

  /** Trimming the end of text that starts with a non-blank character leaves that character. */
  lemma TrimEndKeepsHead(t0: string)
    requires t0 != [] && !IsJsWhitespace(t0[0])
    ensures TrimEnd(t0) != [] && TrimEnd(t0)[0] == t0[0]
  {
    TrimEndSpec(t0);
  }

  /**
   * Where `Number` reads an integer from a non-blank string, `parseInt` reads the
   * same integer: the two conversions the code uses agree on well-formed ids.
   */
  lemma NumberAgreesWithParseInt(s: string)
    requires TrimStart(s) != []
    requires ToNumber(s).Some?
    ensures ParseInt(s) == ToNumber(s)
  {
    var t0 := TrimStart(s);
    var t := TrimEnd(t0);
    TrimStartSpec(s);
    TrimEndKeepsHead(t0);
    assert ToNumber(s) == Some(Signed(t, DigitsValue(Unsigned(t))));
    TrimmedLiteralAgrees(t0);
    var z := LeadingDigits(Unsigned(t0));
    assert z == Unsigned(t) && z != [];
    assert ParseInt(s) == Some(Signed(t0, DigitsValue(z)));
  }

  /** Text is its trimmed body followed by a tail of white space. */
  lemma TrimEndSplit(t0: string)
    ensures t0 == TrimEnd(t0) + t0[|TrimEnd(t0)|..]
    ensures forall i :: 0 <= i < |t0[|TrimEnd(t0)|..]| ==> IsJsWhitespace(t0[|TrimEnd(t0)|..][i])
  {
    var t := TrimEnd(t0);
    TrimEndSpec(t0);
    SplitAt(t0, |t|);
    var w := t0[|t|..];
    forall i | 0 <= i < |w|
      ensures IsJsWhitespace(w[i])
    {
      assert w[i] == t0[|t| + i];
    }
  }

  /** Appending text after a non-empty string does not change how its sign is read. */
  lemma UnsignedAppend(t: string, w: string)
    requires t != []
    ensures Unsigned(t + w) == Unsigned(t) + w
    ensures IsMinus(t + w) == IsMinus(t)
  {
    assert (t + w)[0] == t[0];
    if t[0] == '-' || t[0] == '+' {
      assert (t + w)[1..] == t[1..] + w;
    }
  }

  /** The core of the previous lemma, on text whose leading white space is gone. */
  lemma TrimmedLiteralAgrees(t0: string)
    requires t0 != [] && !IsJsWhitespace(t0[0])
    requires Unsigned(TrimEnd(t0)) != [] && AllDigits(Unsigned(TrimEnd(t0)))
    ensures IsMinus(t0) == IsMinus(TrimEnd(t0))
    ensures LeadingDigits(Unsigned(t0)) == Unsigned(TrimEnd(t0))
  {
    var t := TrimEnd(t0);
    var w := t0[|t|..];
    TrimEndSplit(t0);
    TrimEndKeepsHead(t0);
    UnsignedAppend(t, w);
    DigitsThenBlank(Unsigned(t), w);
  }
}

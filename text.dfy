/** The JavaScript string and number primitives the application relies on:
    `String(n)` for integers, `padStart(2, "0")`, `String.prototype.trim`,
    `split` on a one-character separator, `Number(s)` on integer text and
    `Math.round`. Strings are sequences of Unicode scalar values (`char`);
    JavaScript counts UTF-16 code units, which differ only for characters
    outside the Basic Multilingual Plane. */
module Text {

  predicate IsDigit(c: char) { '0' <= c <= '9' }

  predicate AllDigits(s: string) { forall i :: 0 <= i < |s| ==> IsDigit(s[i]) }

  function DigitValue(c: char): (d: nat)
    requires IsDigit(c)
    ensures d < 10
  {
    c as int - '0' as int
  }

  function DigitChar(d: nat): (c: char)
    requires d < 10
    ensures IsDigit(c) && DigitValue(c) == d
  {
    ('0' as int + d) as char
  }

  /** The value of a string of decimal digits (leading zeros allowed). */
  function DigitsValue(s: string): nat
    requires AllDigits(s)
    decreases |s|
  {
    if s == [] then 0 else DigitsValue(s[..|s| - 1]) * 10 + DigitValue(s[|s| - 1])
  }

  /** `String(n)` for a non-negative integer: decimal, no leading zeros. */
  function NatToString(n: nat): (r: string)
    ensures 1 <= |r| && AllDigits(r)
    ensures (n < 10) == (|r| == 1)
    ensures n < 100 ==> |r| <= 2
    ensures n < 1000 ==> |r| <= 3
    ensures 1000 <= n < 10000 ==> |r| == 4
  {
    if n < 10 then [DigitChar(n)] else NatToString(n / 10) + [DigitChar(n % 10)]
  }

  /** `String(n)` for any integer. */
  function IntToString(n: int): string
  {
    if n < 0 then "-" + NatToString(-n) else NatToString(n)
  }

  /** `s.padStart(2, "0")`. */
  function PadStart2(s: string): (r: string)
    ensures |s| >= 2 ==> r == s
    ensures |s| < 2 ==> |r| == 2 && r[2 - |s|..] == s && forall i :: 0 <= i < 2 - |s| ==> r[i] == '0'
  {
    if |s| == 0 then "00" else if |s| == 1 then "0" + s else s
  }

  /** `String(n).padStart(2, "0")` for a non-negative integer. */
  function Pad2(n: nat): string
  {
    PadStart2(NatToString(n))
  }

  /** `Math.round`: the nearest integer, halves rounded up. */
  function JsRound(x: real): (k: int)
    ensures x - 0.5 < k as real <= x + 0.5
  {
    (x + 0.5).Floor
  }

  /** The truncating remainder `a % b` of JavaScript, for a positive divisor. */
  function JsRem(a: int, b: int): (r: int)
    requires b > 0
    ensures a >= 0 ==> r == a % b
    ensures -b < r < b && (r == 0 || (r < 0) == (a < 0))
  {
    if a >= 0 then a % b else -((-a) % b)
  }

  lemma {:induction false} DigitsValueAppend(s: string, c: char)
    requires AllDigits(s) && IsDigit(c)
    ensures AllDigits(s + [c]) && DigitsValue(s + [c]) == DigitsValue(s) * 10 + DigitValue(c)
  {
    assert (s + [c])[..|s + [c]| - 1] == s;
  }

  lemma {:induction false} DigitsValueConcat(s: string, t: string)
    requires AllDigits(s) && AllDigits(t)
    ensures AllDigits(s + t) && DigitsValue(s + t) == DigitsValue(s) * Pow10(|t|) + DigitsValue(t)
    decreases |t|
  {
    assert AllDigits(s + t) by {
      forall i | 0 <= i < |s + t| ensures IsDigit((s + t)[i]) {
        if i < |s| { assert (s + t)[i] == s[i]; } else { assert (s + t)[i] == t[i - |s|]; }
      }
    }
    if t == [] {
      assert s + t == s;
    } else {
      var t', c := t[..|t| - 1], t[|t| - 1];
      assert AllDigits(t') by {
        forall i | 0 <= i < |t'| ensures IsDigit(t'[i]) { assert t'[i] == t[i]; }
      }
      DigitsValueConcat(s, t');
      assert (s + t)[..|s + t| - 1] == s + t' && (s + t)[|s + t| - 1] == c;
      assert DigitsValue(s + t) == DigitsValue(s + t') * 10 + DigitValue(c);
      assert DigitsValue(t) == DigitsValue(t') * 10 + DigitValue(c);
      ShiftDigit(DigitsValue(s), DigitsValue(t'), Pow10(|t'|), DigitValue(c));
    }
  }

  lemma ShiftDigit(a: int, b: int, p: int, c: int)
    ensures (a * p + b) * 10 + c == a * (p * 10) + (b * 10 + c)
  {
  }

  function Pow10(k: nat): (p: nat)
    ensures p >= 1
  {
    if k == 0 then 1 else 10 * Pow10(k - 1)
  }

  lemma {:induction false} DigitsValueBound(s: string)
    requires AllDigits(s)
    ensures DigitsValue(s) < Pow10(|s|)
    decreases |s|
  {
    if s != [] {
      DigitsValueBound(s[..|s| - 1]);
    }
  }

  /** Reading back what `String(n)` wrote gives `n`. */
  lemma {:induction false} NatToStringValue(n: nat)
    ensures DigitsValue(NatToString(n)) == n
  {
    if n >= 10 {
      NatToStringValue(n / 10);
      DigitsValueAppend(NatToString(n / 10), DigitChar(n % 10));
    }
  }

  /** Equal-length digit strings with equal values are equal. */
  lemma {:induction false} DigitsValueInjective(s: string, t: string)
    requires AllDigits(s) && AllDigits(t) && |s| == |t|
    requires DigitsValue(s) == DigitsValue(t)
    ensures s == t
    decreases |s|
  {
    if s != [] {
      var n := |s| - 1;
      assert DigitValue(s[n]) == DigitsValue(s) % 10 == DigitValue(t[n]);
      assert DigitsValue(s[..n]) == DigitsValue(s) / 10 == DigitsValue(t[..n]);
      DigitsValueInjective(s[..n], t[..n]);
      assert s == s[..n] + [s[n]] && t == t[..n] + [t[n]];
    }
  }

  /** A two-digit string is worth ten times its first digit plus its second. */
  lemma TwoDigitsValue(t: string)
    requires |t| == 2 && AllDigits(t)
    ensures DigitsValue(t) == DigitValue(t[0]) * 10 + DigitValue(t[1])
  {
    assert t[..|t| - 1] == t[..1];
    assert t[..1][..0] == [];
    assert DigitsValue(t[..1]) == DigitValue(t[0]);
  }

  lemma ZeroDigitsValue(s: string)
    requires forall i :: 0 <= i < |s| ==> s[i] == '0'
    ensures AllDigits(s) && DigitsValue(s) == 0
    decreases |s|
  {
    if s != [] {
      ZeroDigitsValue(s[..|s| - 1]);
    }
  }

  /** `Pad2(n)` is two digits spelling `n`, for `n < 100`. */
  lemma Pad2Value(n: nat)
    requires n < 100
    ensures |Pad2(n)| == 2 && AllDigits(Pad2(n)) && DigitsValue(Pad2(n)) == n
  {
    var s := NatToString(n);
    NatToStringValue(n);
    if |s| == 1 {
      assert Pad2(n) == "0" + s;
      DigitsValueConcat("0", s);
      assert Pow10(1) == 10;
    }
  }

  /** Padding the value of a two-digit string gives the string back. */
  lemma Pad2OfDigits(d: string)
    requires |d| == 2 && AllDigits(d)
    ensures DigitsValue(d) < 100 && Pad2(DigitsValue(d)) == d
  {
    DigitsValueBound(d);
    assert Pow10(2) == 100;
    Pad2Value(DigitsValue(d));
    DigitsValueInjective(Pad2(DigitsValue(d)), d);
  }

  /** `String(Number(y))` gives a four-digit year text back when it has no leading zero. */
  lemma NatToStringOfFourDigits(y: string)
    requires |y| == 4 && AllDigits(y) && DigitsValue(y) >= 1000
    ensures NatToString(DigitsValue(y)) == y
  {
    DigitsValueBound(y);
    assert Pow10(4) == 10000;
    NatToStringValue(DigitsValue(y));
    DigitsValueInjective(NatToString(DigitsValue(y)), y);
  }

  // ---------------------------------------------------------------------
  // String.prototype.trim

  /** ECMAScript WhiteSpace and LineTerminator characters. */
  predicate IsJsSpace(c: char)
  {
    c == '\t' || c == '\n' || c == '\U{000B}' || c == '\U{000C}' || c == '\r' || c == ' ' ||
    c == '\U{00A0}' || c == '\U{1680}' || ('\U{2000}' <= c <= '\U{200A}') ||
    c == '\U{2028}' || c == '\U{2029}' || c == '\U{202F}' || c == '\U{205F}' ||
    c == '\U{3000}' || c == '\U{FEFF}'
  }

  function TrimStart(s: string): (r: string)
    ensures |r| <= |s| && r == s[|s| - |r|..]
    ensures r == [] || !IsJsSpace(r[0])
    ensures s != [] && !IsJsSpace(s[0]) ==> r == s
  {
    if s != [] && IsJsSpace(s[0]) then TrimStart(s[1..]) else s
  }

  function TrimEnd(s: string): (r: string)
    ensures |r| <= |s| && r == s[..|r|]
    ensures r == [] || !IsJsSpace(r[|r| - 1])
    ensures s != [] && !IsJsSpace(s[|s| - 1]) ==> r == s
  {
    if s != [] && IsJsSpace(s[|s| - 1]) then TrimEnd(s[..|s| - 1]) else s
  }

  /** `s.trim()`: no leading or trailing white space, and a contiguous slice of `s`. */
  function Trim(s: string): (r: string)
    ensures |r| <= |s|
    ensures r == [] || (!IsJsSpace(r[0]) && !IsJsSpace(r[|r| - 1]))
  {
    TrimEnd(TrimStart(s))
  }

  /** Only white space (or nothing). */
  predicate Blank(s: string)
  {
    s == [] || (IsJsSpace(s[0]) && Blank(s[1..]))
  }

  lemma {:induction false} TrimStartBlank(s: string)
    ensures TrimStart(s) == [] <==> Blank(s)
  {
    if s != [] && IsJsSpace(s[0]) {
      TrimStartBlank(s[1..]);
    }
  }

  lemma {:induction false} TrimEndEmptyStartsWithSpace(x: string)
    requires x != [] && TrimEnd(x) == []
    ensures IsJsSpace(x[0])
  {
    if |x| > 1 {
      TrimEndEmptyStartsWithSpace(x[..|x| - 1]);
    }
  }

  /** `s.trim()` is empty exactly when `s` is only white space. */
  lemma BlankIffTrimEmpty(s: string)
    ensures Trim(s) == [] <==> Blank(s)
  {
    TrimStartBlank(s);
    var x := TrimStart(s);
    if x != [] && TrimEnd(x) == [] {
      TrimEndEmptyStartsWithSpace(x);
    }
  }

  /** A string without leading or trailing white space is its own trim. */
  lemma TrimNoSpace(s: string)
    requires s == [] || (!IsJsSpace(s[0]) && !IsJsSpace(s[|s| - 1]))
    ensures Trim(s) == s
  {
  }

  // ---------------------------------------------------------------------
  // String.prototype.split on a one-character separator

  /** `s.split(sep)`: the maximal separator-free pieces, in order; always at least one. */
  function Split(s: string, sep: char): (r: seq<string>)
    ensures |r| >= 1
    ensures forall k :: 0 <= k < |r| ==> sep !in r[k]
    decreases |s|
  {
    if s == [] then [""]
    else
      var rest := Split(s[1..], sep);
      if s[0] == sep then [""] + rest else [[s[0]] + rest[0]] + rest[1..]
  }

  lemma {:induction false} SplitNoSep(a: string, sep: char)
    requires sep !in a
    ensures Split(a, sep) == [a]
    decreases |a|
  {
    if a != [] {
      SplitNoSep(a[1..], sep);
      assert [a[0]] + a[1..] == a;
    }
  }

  lemma {:induction false} SplitCons(a: string, sep: char, b: string)
    requires sep !in a
    ensures Split(a + [sep] + b, sep) == [a] + Split(b, sep)
    decreases |a|
  {
    if a == [] {
      assert a + [sep] + b == [sep] + b;
      assert ([sep] + b)[1..] == b;
    } else {
      assert (a + [sep] + b)[1..] == a[1..] + [sep] + b;
      SplitCons(a[1..], sep, b);
      assert [a[0]] + a[1..] == a;
    }
  }

  /** A character absent from `s` is absent from every piece of its split. */
  lemma {:induction false} SplitPiecesAvoid(s: string, sep: char, c: char)
    requires c !in s
    ensures forall k :: 0 <= k < |Split(s, sep)| ==> c !in Split(s, sep)[k]
    decreases |s|
  {
    if s != [] {
      assert forall i :: 0 <= i < |s[1..]| ==> s[1..][i] == s[i + 1];
      SplitPiecesAvoid(s[1..], sep, c);
    }
  }

  /** Splitting five separator-free pieces joined by the separator gives them back. */
  lemma SplitFive(a: string, b: string, c: string, d: string, e: string, sep: char)
    requires sep !in a && sep !in b && sep !in c && sep !in d && sep !in e
    ensures Split(a + [sep] + (b + [sep] + (c + [sep] + (d + [sep] + e))), sep) == [a, b, c, d, e]
  {
    SplitNoSep(e, sep);
    SplitCons(d, sep, e);
    SplitCons(c, sep, d + [sep] + e);
    SplitCons(b, sep, c + [sep] + (d + [sep] + e));
    SplitCons(a, sep, b + [sep] + (c + [sep] + (d + [sep] + e)));
  }

  /** Splitting three separator-free pieces joined by the separator gives them back. */
  lemma SplitThree(x: string, y: string, z: string, sep: char)
    requires sep !in x && sep !in y && sep !in z
    ensures Split(x + [sep] + y + [sep] + z, sep) == [x, y, z]
  {
    assert x + [sep] + y + [sep] + z == x + [sep] + (y + [sep] + z);
    SplitCons(x, sep, y + [sep] + z);
    SplitCons(y, sep, z);
    SplitNoSep(z, sep);
  }

  // ---------------------------------------------------------------------
  // Number(s) on integer text

  /** A JavaScript number known to be an integer, or NaN. */
  datatype JsInt = Num(v: int) | NaN {
    /** JavaScript truthiness: 0 and NaN are falsy. */
    predicate Truthy() { Num? && v != 0 }
  }

  /** `Number(s)` where the trimmed text is empty (0), plain decimal digits
      (their value) or anything else (NaN). */
  function NumberOf(s: string): (r: JsInt)
    ensures r.Num? ==> r.v >= 0
  {
    var t := Trim(s);
    if t == [] then Num(0)
    else if AllDigits(t) then Num(DigitsValue(t))
    else NaN
  }

  /** A non-empty digit string reads as its value. */
  lemma NumberOfDigits(s: string)
    requires AllDigits(s) && s != []
    ensures NumberOf(s) == Num(DigitsValue(s))
  {
    assert IsDigit(s[0]) && IsDigit(s[|s| - 1]);
    TrimNoSpace(s);
  }

  /** `Number(parts[i])` where a missing part is `undefined`, which reads as NaN. */
  function NumberAt(parts: seq<string>, i: nat): JsInt
  {
    if i < |parts| then NumberOf(parts[i]) else NaN
  }
}

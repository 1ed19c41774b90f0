/** `numeric_text` (`mssql.rs`): a DECIMAL as its exact text. A value is `n / 10^scale`; the integer part
    truncates toward zero and the fraction keeps the sign of the value. */
module Numeric {
  function Pow10(n: nat): (p: nat)
    ensures p >= 1
  {
    if n == 0 then 1 else 10 * Pow10(n - 1)
  }

  function Abs(n: int): nat {
    if n < 0 then -n else n
  }

  function Quotient(a: nat, p: nat): nat
    requires p > 0
  {
    a / p
  }

  function Whole(n: int, scale: nat): nat {
    Quotient(Abs(n), Pow10(scale))
  }

  function Rest(n: int, scale: nat): nat {
    Abs(n) % Pow10(scale)
  }

  function IntPart(n: int, scale: nat): int {
    if n < 0 then 0 - Whole(n, scale) else Whole(n, scale)
  }

  function DecPart(n: int, scale: nat): int {
    if n < 0 then 0 - Rest(n, scale) else Rest(n, scale)
  }

  function Digit(d: nat): char
    requires d < 10
  {
    '0' + d as char
  }

  /** The decimal digits of a number, at least one. */
  function Digits(n: nat): (s: string)
    ensures s != ""
  {
    if n < 10 then [Digit(n)] else Digits(n / 10) + [Digit(n % 10)]
  }

  function Zeros(n: nat): string {
    seq(n, _ => '0')
  }

  /** Filled up on the left to a width, never cut. */
  function Padded(s: string, width: nat): string {
    if |s| < width then Zeros(width - |s|) + s else s
  }

  function Signed(n: int): string {
    (if n < 0 then "-" else "") + Digits(Abs(n))
  }

  function NumericText(n: int, scale: nat): string {
    var ip, frac := IntPart(n, scale), Abs(DecPart(n, scale));
    if scale == 0 then Signed(ip)
    else
      var neg := ip < 0 || (ip == 0 && DecPart(n, scale) < 0);
      (if neg then "-" else "") + Digits(Abs(ip)) + "." + Padded(Digits(frac), scale)
  }

  // ── reading it back ────────────────────────────────────────────────────────

  predicate IsDigit(c: char) {
    '0' <= c <= '9'
  }

  predicate AllDigits(s: string) {
    forall i :: 0 <= i < |s| ==> IsDigit(s[i])
  }

  /** The number a run of digits stands for. */
  function Number(s: string): nat
    requires AllDigits(s)
  {
    if s == "" then 0 else 10 * Number(s[..|s| - 1]) + (s[|s| - 1] - '0') as nat
  }

  /** Digits without a leading zero, or the one digit zero. */
  predicate Natural(s: string) {
    AllDigits(s) && s != "" && (s[0] == '0' ==> |s| == 1)
  }

  /** A decimal text as written: a minus if there is need for one, digits without a leading zero, and a point
      with as many fraction digits as the scale says, or none. It reads as `value / 10^scale`. */
  ghost predicate Reads(text: string, scale: nat, value: int) {
    exists sign: string, whole: string, frac: string ::
      && sign == (if value < 0 then "-" else "") && Natural(whole) && AllDigits(frac) && |frac| == scale
      && text == sign + whole + (if scale == 0 then "" else "." + frac)
      && Abs(value) == Number(whole) * Pow10(scale) + Number(frac)
  }

  lemma {:induction false} DigitsRead(n: nat)
    ensures Natural(Digits(n)) && Number(Digits(n)) == n && (n > 0 ==> Digits(n)[0] != '0')
  {
    if n >= 10 {
      DigitsRead(n / 10);
      var s := Digits(n);
      assert s[..|s| - 1] == Digits(n / 10) && s[|s| - 1] == Digit(n % 10);
    } else {
      assert Digits(n)[..0] == "";
    }
  }

  lemma {:induction false} DigitsFit(n: nat, width: nat)
    requires width > 0 && n < Pow10(width)
    ensures |Digits(n)| <= width
  {
    if n >= 10 {
      DigitsFit(n / 10, width - 1);
    }
  }

  lemma {:induction false} LeadingZeros(k: nat, s: string)
    requires AllDigits(s)
    ensures AllDigits(Zeros(k) + s) && Number(Zeros(k) + s) == Number(s)
    decreases |s| + k
  {
    var t := Zeros(k) + s;
    if s != "" {
      assert t[..|t| - 1] == Zeros(k) + s[..|s| - 1];
      LeadingZeros(k, s[..|s| - 1]);
    } else if k > 0 {
      assert t[..|t| - 1] == Zeros(k - 1) + "";
      LeadingZeros(k - 1, "");
    }
  }

  lemma ValueSplit(n: int, scale: nat)
    ensures Abs(n) == Whole(n, scale) * Pow10(scale) + Rest(n, scale) && Rest(n, scale) < Pow10(scale)
    ensures Whole(n, scale) == 0 && Rest(n, scale) == 0 ==> n == 0
    ensures scale == 0 ==> Whole(n, scale) == Abs(n)
  {
  }

  /** What the text is made of. */
  lemma TextParts(n: int, scale: nat)
    ensures
      NumericText(n, scale)
        == (if n < 0 then "-" else "") + Digits(Whole(n, scale))
           + (if scale == 0 then "" else "." + Padded(Digits(Rest(n, scale)), scale))
  {
    hide Digits, Padded, Whole, Rest, Pow10;
    ValueSplit(n, scale);
    var sign, whole := if n < 0 then "-" else "", Digits(Whole(n, scale));
    assert sign + whole + "" == sign + whole;
    var frac := Padded(Digits(Rest(n, scale)), scale);
    assert sign + whole + "." + frac == sign + whole + ("." + frac);
  }

  /** Reading the text back gives the value exactly, for every value and scale: every fraction digit is
      there, also the leading zeros, and the sign is right also when the integer part is zero. */
  lemma TextIsExact(n: int, scale: nat)
    ensures Reads(NumericText(n, scale), scale, n)
  {
    hide Digits, Padded, NumericText, Number, AllDigits, Natural, Pow10, Whole, Rest;
    ValueSplit(n, scale);
    TextParts(n, scale);
    DigitsRead(Whole(n, scale));
    FractionReads(Rest(n, scale), scale);
    Witnessed(NumericText(n, scale), scale, n, if n < 0 then "-" else "", Digits(Whole(n, scale)),
              if scale == 0 then "" else Padded(Digits(Rest(n, scale)), scale));
  }

  lemma FractionReads(rest: nat, scale: nat)
    requires rest < Pow10(scale)
    ensures
      var frac := if scale == 0 then "" else Padded(Digits(rest), scale);
      |frac| == scale && AllDigits(frac) && Number(frac) == rest
  {
    hide Digits, Number;
    if scale == 0 {
      NoDigits();
    } else {
      DigitsRead(rest);
      DigitsFit(rest, scale);
      LeadingZeros(scale - |Digits(rest)|, Digits(rest));
    }
  }

  lemma NoDigits()
    ensures AllDigits("") && Number("") == 0
  {
  }

  /** A text reads as one value only. */
  lemma ReadsOnce(text: string, scale: nat, m: int, n: int)
    ensures Reads(text, scale, m) && Reads(text, scale, n) ==> m == n
  {
    if !(Reads(text, scale, m) && Reads(text, scale, n)) {
      return;
    }
    hide Number, Pow10;
    var s: string, w: string, f: string :|
      && s == (if m < 0 then "-" else "") && Natural(w) && AllDigits(f) && |f| == scale
      && text == s + w + (if scale == 0 then "" else "." + f)
      && Abs(m) == Number(w) * Pow10(scale) + Number(f);
    var s': string, w': string, f': string :|
      && s' == (if n < 0 then "-" else "") && Natural(w') && AllDigits(f') && |f'| == scale
      && text == s' + w' + (if scale == 0 then "" else "." + f')
      && Abs(n) == Number(w') * Pow10(scale) + Number(f');
    SamePieces(text, scale, s, w, f, s', w', f');
  }

  lemma SamePieces(text: string, scale: nat, s: string, w: string, f: string, s': string, w': string, f': string)
    requires s in ["", "-"] && w != "" && AllDigits(w) && |f| == scale
             && text == s + w + (if scale == 0 then "" else "." + f)
    requires s' in ["", "-"] && w' != "" && AllDigits(w') && |f'| == scale
             && text == s' + w' + (if scale == 0 then "" else "." + f')
    ensures s == s' && w == w' && f == f'
  {
    var k := |text| - if scale == 0 then 0 else scale + 1;
    assert s + w == text[..k] == s' + w';
    assert f == text[|text| - scale..] == f';
    assert text[0] == '-' <==> s == "-" by {
      assert s == "" ==> text[0] == w[0];
    }
    assert text[0] == '-' <==> s' == "-" by {
      assert s' == "" ==> text[0] == w'[0];
    }
    assert w == text[..k][|s|..] == w';
  }

  lemma Witnessed(text: string, scale: nat, value: int, sign: string, whole: string, frac: string)
    requires sign == (if value < 0 then "-" else "") && Natural(whole) && AllDigits(frac) && |frac| == scale
    requires text == sign + whole + (if scale == 0 then "" else "." + frac)
    requires Abs(value) == Number(whole) * Pow10(scale) + Number(frac)
    ensures Reads(text, scale, value)
  {
  }

  // ── one text for each value ────────────────────────────────────────────────

  lemma {:induction false} NumberBounds(s: string)
    requires AllDigits(s)
    ensures Number(s) < Pow10(|s|) && (s != "" && s[0] != '0' ==> Pow10(|s| - 1) <= Number(s))
  {
    if s != "" {
      NumberBounds(s[..|s| - 1]);
    }
  }

  /** Digits of one length that stand for one number are the same. */
  lemma {:induction false} SameDigits(s: string, t: string)
    requires AllDigits(s) && AllDigits(t) && |s| == |t| && Number(s) == Number(t)
    ensures s == t
  {
    if s != "" {
      var n := |s| - 1;
      assert Number(s) == 10 * Number(s[..n]) + (s[n] - '0') as nat;
      assert Number(t) == 10 * Number(t[..n]) + (t[n] - '0') as nat;
      SameDigits(s[..n], t[..n]);
      assert s == s[..n] + [s[n]] && t == t[..n] + [t[n]];
    }
  }

  lemma {:induction false} PowersGrow(i: nat, j: nat)
    requires i <= j
    ensures Pow10(i) <= Pow10(j)
  {
    if i < j {
      PowersGrow(i, j - 1);
    }
  }

  lemma NoLonger(s: string, t: string)
    requires Natural(s) && Natural(t) && Number(s) == Number(t)
    ensures |s| <= |t|
  {
    hide Number, Pow10;
    if |t| < |s| {
      NumberBounds(s);
      NumberBounds(t);
      PowersGrow(|t|, |s| - 1);
    }
  }

  lemma SameNatural(s: string, t: string)
    requires Natural(s) && Natural(t) && Number(s) == Number(t)
    ensures s == t
  {
    NoLonger(s, t);
    NoLonger(t, s);
    SameDigits(s, t);
  }

  lemma Larger(p: nat, a: nat, c: nat)
    requires c < a
    ensures a * p >= c * p + p
  {
    var k := a - c - 1;
    assert a == c + 1 + k;
    assert (c + 1 + k) * p == c * p + p + k * p;
  }

  lemma SameSplit(p: nat, a: nat, b: nat, c: nat, d: nat)
    requires b < p && d < p && a * p + b == c * p + d
    ensures a == c && b == d
  {
    if c < a {
      Larger(p, a, c);
    } else if a < c {
      Larger(p, c, a);
    }
  }

  /** A value is read from one text only: the text is the one way to write it with its scale. */
  lemma WrittenOnce(text: string, text': string, scale: nat, n: int)
    ensures Reads(text, scale, n) && Reads(text', scale, n) ==> text == text'
  {
    if !(Reads(text, scale, n) && Reads(text', scale, n)) {
      return;
    }
    hide Number, Pow10;
    var s: string, w: string, f: string :|
      && s == (if n < 0 then "-" else "") && Natural(w) && AllDigits(f) && |f| == scale
      && text == s + w + (if scale == 0 then "" else "." + f)
      && Abs(n) == Number(w) * Pow10(scale) + Number(f);
    var s': string, w': string, f': string :|
      && s' == (if n < 0 then "-" else "") && Natural(w') && AllDigits(f') && |f'| == scale
      && text' == s' + w' + (if scale == 0 then "" else "." + f')
      && Abs(n) == Number(w') * Pow10(scale) + Number(f');
    NumberBounds(f);
    NumberBounds(f');
    SameSplit(Pow10(scale), Number(w), Number(f), Number(w'), Number(f'));
    SameNatural(w, w');
    SameDigits(f, f');
  }
}

// Decimal numbers as text: std::to_string, std::stoul and std::stol.
module Numbers {
  const TWO_16: nat := 0x1_0000
  const TWO_32: nat := 0x1_0000_0000
  const TWO_63: nat := 0x8000_0000_0000_0000
  const TWO_64: nat := 0x1_0000_0000_0000_0000

  // A parsed number, std::invalid_argument, or std::out_of_range.
  datatype Parse = Parsed(value: int) | Invalid | OutOfRange

  predicate IsSpace(c: char) { c == ' ' || '\t' <= c <= '\r' }

  predicate IsDigit(c: char) { '0' <= c <= '9' }

  function DigitValue(c: char): nat
    requires IsDigit(c)
  {
    c as nat - '0' as nat
  }

  function DigitChar(d: nat): (c: char)
    requires d < 10
    ensures IsDigit(c) && DigitValue(c) == d
  {
    ('0' as nat + d) as char
  }

  function SkipSpace(s: string): string {
    if s != [] && IsSpace(s[0]) then SkipSpace(s[1..]) else s
  }

  // The digits at the front.
  function Digits(s: string): (d: string)
    ensures d <= s && forall i :: 0 <= i < |d| ==> IsDigit(d[i])
  {
    if s != [] && IsDigit(s[0]) then [s[0]] + Digits(s[1..]) else []
  }

  function Value(d: string): nat
    requires forall i :: 0 <= i < |d| ==> IsDigit(d[i])
  {
    if d == [] then 0 else 10 * Value(d[..|d| - 1]) + DigitValue(d[|d| - 1])
  }

  predicate Negative(t: string) { t != [] && t[0] == '-' }

  // What follows white space and a sign.
  function Unsigned(s: string): string {
    var t := SkipSpace(s);
    if t != [] && (t[0] == '-' || t[0] == '+') then t[1..] else t
  }

  function Stoul(s: string): Parse {
    var d := Digits(Unsigned(s));
    if d == [] then Invalid
    else if Value(d) >= TWO_64 then OutOfRange
    else if Negative(SkipSpace(s)) then Parsed((TWO_64 - Value(d)) % TWO_64)
    else Parsed(Value(d))
  }

  function Stol(s: string): Parse {
    var d := Digits(Unsigned(s));
    if d == [] then Invalid
    else if Negative(SkipSpace(s)) then if Value(d) <= TWO_63 then Parsed(0 - Value(d)) else OutOfRange
    else if Value(d) < TWO_63 then Parsed(Value(d))
    else OutOfRange
  }

  function ToText(n: nat): (s: string)
    ensures s != [] && forall i :: 0 <= i < |s| ==> IsDigit(s[i])
  {
    if n < 10 then [DigitChar(n)] else ToText(n / 10) + [DigitChar(n % 10)]
  }

  lemma {:induction false} ValueOfText(n: nat)
    ensures Value(ToText(n)) == n
  {
    if n < 10 {
    } else {
      ValueOfText(n / 10);
      assert ToText(n)[..|ToText(n)| - 1] == ToText(n / 10);
    }
  }

  lemma {:induction false} AllDigits(d: string, rest: string)
    requires forall i :: 0 <= i < |d| ==> IsDigit(d[i])
    requires rest == [] || !IsDigit(rest[0])
    ensures Digits(d + rest) == d
  {
    if d == [] {
      assert d + rest == rest;
    } else {
      assert (d + rest)[1..] == d[1..] + rest;
      AllDigits(d[1..], rest);
    }
  }

  lemma TextUnsigned(n: nat)
    ensures SkipSpace(ToText(n)) == ToText(n) == Unsigned(ToText(n)) && !Negative(ToText(n))
    ensures Digits(ToText(n)) == ToText(n)
  {
    assert IsDigit(ToText(n)[0]);
    assert ToText(n) + [] == ToText(n);
    AllDigits(ToText(n), []);
  }

  // Printing and parsing are inverse for the numbers that fit.
  lemma PrintParse(n: nat)
    ensures Stoul(ToText(n)) == if n < TWO_64 then Parsed(n) else OutOfRange
    ensures Stol(ToText(n)) == if n < TWO_63 then Parsed(n) else OutOfRange
  {
    TextUnsigned(n);
    ValueOfText(n);
  }

  // The texts that to_string produces: digits without a leading zero.
  predicate Canonical(t: string) {
    && t != [] && (forall i :: 0 <= i < |t| ==> IsDigit(t[i]))
    && (t[0] == '0' ==> |t| == 1)
  }

  lemma {:induction false} ValuePositive(d: string)
    requires Canonical(d) && |d| > 1
    ensures Value(d) >= 10
  {
    var front := d[..|d| - 1];
    if |front| == 1 {
      assert front[..0] == [];
      assert Value(front) == DigitValue(front[0]);
      assert DigitValue(front[0]) >= 1;
    } else {
      ValuePositive(front);
    }
  }

  // Parsing and printing again gives the text back exactly when it is canonical.
  lemma {:induction false} ParsePrint(t: string)
    requires t != [] && forall i :: 0 <= i < |t| ==> IsDigit(t[i])
    ensures ToText(Value(t)) == t <==> Canonical(t)
  {
    if Canonical(t) {
      var front, last := t[..|t| - 1], t[|t| - 1];
      if |t| > 1 {
        ValuePositive(t);
        ParsePrint(front);
        assert Value(t) / 10 == Value(front) && Value(t) % 10 == DigitValue(last);
        assert DigitChar(DigitValue(last)) == last;
        assert t == front + [last];
      } else {
        assert front == [];
      }
    } else {
      TextCanonical(Value(t));
    }
  }

  lemma {:induction false} TextCanonical(n: nat)
    ensures Canonical(ToText(n))
  {
    if n < 10 {
    } else {
      TextCanonical(n / 10);
      ValueOfText(n / 10);
    }
  }

  lemma {:induction false} SkipGap(gap: string, t: string)
    requires (forall i :: 0 <= i < |gap| ==> IsSpace(gap[i])) && t != [] && !IsSpace(t[0])
    ensures SkipSpace(gap + t) == t
  {
    if gap == [] {
      assert gap + t == t;
    } else {
      assert (gap + t)[1..] == gap[1..] + t;
      SkipGap(gap[1..], t);
    }
  }

  // White space in front, a sign, and anything after the digits do not matter, except that a minus sign wraps the
  // number around: a text like "12abc" is the number 12.
  lemma ParsePrefix(gap: string, sign: string, n: nat, rest: string)
    requires forall i :: 0 <= i < |gap| ==> IsSpace(gap[i])
    requires sign == "" || sign == "+" || sign == "-"
    requires rest == [] || !IsDigit(rest[0])
    ensures Stoul(gap + (sign + (ToText(n) + rest)))
         == if n >= TWO_64 then OutOfRange else if sign == "-" && n > 0 then Parsed(TWO_64 - n) else Parsed(n)
    ensures Stol(gap + (sign + (ToText(n) + rest)))
         == if sign == "-" then (if n <= TWO_63 then Parsed(0 - n) else OutOfRange)
            else if n < TWO_63 then Parsed(n) else OutOfRange
  {
    hide ToText, Value;
    var t := sign + (ToText(n) + rest);
    assert IsDigit(ToText(n)[0]);
    SkipGap(gap, t);
    assert Unsigned(gap + t) == ToText(n) + rest;
    AllDigits(ToText(n), rest);
    ValueOfText(n);
  }

  // The base is ten.
  lemma Twelve()
    ensures ToText(120) == "120" && Stoul(" +12abc") == Parsed(12) && Stol("-12") == Parsed(-12) && Stoul("abc").Invalid?
  {
    hide Stoul, Stol;
    TextOfTwelve();
    ParsePrefix(" ", "+", 12, "abc");
    ParsePrefix("", "-", 12, "");
    NoNumber();
    hide ToText;
    assert "12" + "abc" == "12abc" && " " + ("+" + ("12" + "abc")) == " +12abc" && "" + ("-" + ("12" + "")) == "-12";
  }

  lemma TextOfTwelve()
    ensures ToText(12) == "12" && ToText(120) == "120"
  {
    assert ToText(1) == "1";
    assert ToText(12) == "12";
  }

  lemma NoNumber()
    ensures Stoul("abc").Invalid?
  {
  }
}

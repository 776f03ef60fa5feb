/** Text to numbers and back: `atof` and `strtok` as Algoritmos/dataModule.c uses them, and the
    six-decimal printing, joining and splitting of formatador_dados_atp_distancia.py. */
module DecimalText {

  predicate IsDigit(c: char) { '0' <= c <= '9' }

  predicate IsSpace(c: char) { c == ' ' || '\t' <= c <= '\r' }

  predicate IsComma(c: char) { c == ',' }

  ghost predicate AllDigits(s: string)
  {
    forall i :: 0 <= i < |s| ==> IsDigit(s[i])
  }

  // ----- reading -----

  /** Length of the longest prefix of digits. */
  function DigitRun(s: string): (n: nat)
    ensures n <= |s| && AllDigits(s[..n])
  {
    if s == [] || !IsDigit(s[0]) then 0 else 1 + DigitRun(s[1..])
  }

  function DigitsValue(s: string): nat
    requires AllDigits(s)
  {
    if s == [] then 0 else DigitsValue(s[..|s| - 1]) * 10 + (s[|s| - 1] - '0') as nat
  }

  function Pow10(n: nat): (r: nat)
    ensures r > 0
  {
    if n == 0 then 1 else 10 * Pow10(n - 1)
  }

  function SkipSpace(s: string): string
  {
    if s != [] && IsSpace(s[0]) then SkipSpace(s[1..]) else s
  }

  predicate IsSigned(s: string) { s != [] && (s[0] == '-' || s[0] == '+') }

  /** The factor of an exponent part, 1 when there is none. */
  function ExponentFactor(s: string): real
  {
    if s == [] || (s[0] != 'e' && s[0] != 'E') then 1.0
    else
      var t := if IsSigned(s[1..]) then s[2..] else s[1..];
      var p := Pow10(DigitsValue(t[..DigitRun(t)])) as real;
      if DigitRun(t) == 0 then 1.0 else if s[1] == '-' then 1.0 / p else p
  }

  /** Digits of which the last `places` stand behind the point, and an exponent. */
  function Decimal(digits: string, places: nat, tail: string): real
    requires AllDigits(digits)
  {
    DigitsValue(digits) as real / Pow10(places) as real * ExponentFactor(tail)
  }

  /** An unsigned decimal number: digits, a point and more digits, an exponent. */
  function Magnitude(s: string): real
  {
    var n := DigitRun(s);
    if n < |s| && s[n] == '.' then
      var t := s[n + 1..];
      var f := DigitRun(t);
      if n + f == 0 then 0.0
      else Decimal(s[..n] + t[..f], f, t[f..])
    else if n == 0 then 0.0
    else DigitsValue(s[..n]) as real * ExponentFactor(s[n..])
  }

  /** `atof`: leading space, a sign, a decimal number; whatever follows is ignored, and
      text that starts with no number is zero. */
  function Atof(s: string): real
  {
    var t := SkipSpace(s);
    if IsSigned(t) then
      if t[0] == '-' then -Magnitude(t[1..]) else Magnitude(t[1..])
    else Magnitude(t)
  }

  // ----- splitting and joining -----

  function TokenLength(s: string, delim: char -> bool): (n: nat)
    ensures n <= |s|
    ensures s != [] && !delim(s[0]) ==> n > 0
  {
    if s == [] || delim(s[0]) then 0 else 1 + TokenLength(s[1..], delim)
  }

  /** The maximal runs of characters that are not delimiters: what repeated `strtok` calls
      return, and what `str.split` returns for white space. */
  function Split(s: string, delim: char -> bool): seq<string>
    decreases |s|
  {
    if s == [] then []
    else if delim(s[0]) then Split(s[1..], delim)
    else
      var n := TokenLength(s, delim);
      [s[..n]] + Split(s[n..], delim)
  }

  function Join(tokens: seq<string>, separator: char): string
  {
    if tokens == [] then []
    else if |tokens| == 1 then tokens[0]
    else tokens[0] + [separator] + Join(tokens[1..], separator)
  }

  ghost predicate IsToken(t: string, delim: char -> bool)
  {
    t != [] && forall i :: 0 <= i < |t| ==> !delim(t[i])
  }

  lemma {:induction false} TokenLengthOf(t: string, rest: string, delim: char -> bool)
    requires forall i :: 0 <= i < |t| ==> !delim(t[i])
    requires rest == [] || delim(rest[0])
    ensures TokenLength(t + rest, delim) == |t|
  {
    if t == [] {
      assert t + rest == rest;
    } else {
      assert (t + rest)[1..] == t[1..] + rest;
      TokenLengthOf(t[1..], rest, delim);
    }
  }

  lemma FirstToken(t: string, rest: string, delim: char -> bool)
    requires IsToken(t, delim)
    requires rest == [] || delim(rest[0])
    ensures Split(t + rest, delim) == [t] + Split(rest, delim)
  {
    TokenLengthOf(t, rest, delim);
    assert (t + rest)[0] == t[0];
    assert (t + rest)[..|t|] == t && (t + rest)[|t|..] == rest;
  }

  /** Joining and splitting are inverse, for tokens free of delimiters. */
  lemma {:induction false} SplitOfJoin(tokens: seq<string>, separator: char, tail: string, delim: char -> bool)
    requires tokens != [] && forall i :: 0 <= i < |tokens| ==> IsToken(tokens[i], delim)
    requires delim(separator)
    requires tail == [] || (delim(tail[0]) && |tail| == 1)
    ensures Split(Join(tokens, separator) + tail, delim) == tokens
  {
    hide Split;
    var t := tokens[0];
    if |tokens| == 1 {
      FirstToken(t, tail, delim);
      NothingToSplit(tail, delim);
      assert tokens == [t];
    } else {
      var rest := Join(tokens[1..], separator) + tail;
      SplitOfJoin(tokens[1..], separator, tail, delim);
      assert Join(tokens, separator) + tail == t + ([separator] + rest);
      FirstToken(t, [separator] + rest, delim);
      SkipDelimiter(separator, rest, delim);
      assert tokens == [t] + tokens[1..];
    }
  }

  lemma NothingToSplit(tail: string, delim: char -> bool)
    requires tail == [] || (delim(tail[0]) && |tail| == 1)
    ensures Split(tail, delim) == []
  {
    if tail != [] { assert tail[1..] == []; }
  }

  lemma SkipDelimiter(c: char, rest: string, delim: char -> bool)
    requires delim(c)
    ensures Split([c] + rest, delim) == Split(rest, delim)
  {
    assert ([c] + rest)[1..] == rest;
  }

  // ----- printing with six decimals -----

  function DigitChar(d: nat): (c: char)
    requires d < 10
    ensures IsDigit(c) && (c - '0') as nat == d
  {
    '0' + d as char
  }

  function Digits(n: nat): (s: string)
    ensures s != [] && AllDigits(s)
  {
    if n < 10 then [DigitChar(n)] else Digits(n / 10) + [DigitChar(n % 10)]
  }

  function Padded(n: nat, width: nat): (s: string)
    ensures |s| == width && AllDigits(s)
  {
    if width == 0 then [] else Padded(n / 10, width - 1) + [DigitChar(n % 10)]
  }

  /** The nearest integer, the even one of two. */
  function RoundHalfEven(x: real): (n: int)
    ensures n as real - x <= 0.5 && x - n as real <= 0.5
  {
    var n := x.Floor;
    var r := x - n as real;
    if r < 0.5 || (r == 0.5 && n % 2 == 0) then n else n + 1
  }

  /** `f"{v:.6f}"`. */
  function PrintFixed6(v: real): string
  {
    var m := Micros(v);
    (if v < 0.0 then "-" else "") + Digits(m / 1000000) + "." + Padded(m % 1000000, 6)
  }

  /** The magnitude of `v` in millionths, rounded. */
  function Micros(v: real): (m: nat)
    ensures m as real / 1000000.0 - (if v < 0.0 then -v else v) <= 0.0000005
    ensures (if v < 0.0 then -v else v) - m as real / 1000000.0 <= 0.0000005
  {
    var a := if v < 0.0 then -v else v;
    RoundHalfEven(a * 1000000.0)
  }

  // ----- printing then reading -----

  lemma {:induction false} DigitRunOf(s: string, rest: string)
    requires AllDigits(s) && (rest == [] || !IsDigit(rest[0]))
    ensures DigitRun(s + rest) == |s|
  {
    if s == [] {
      assert s + rest == rest;
    } else {
      assert (s + rest)[1..] == s[1..] + rest;
      assert AllDigits(s[1..]);
      DigitRunOf(s[1..], rest);
    }
  }

  lemma {:induction false} DigitsValueOfConcat(a: string, b: string)
    requires AllDigits(a) && AllDigits(b)
    ensures AllDigits(a + b)
    ensures DigitsValue(a + b) == DigitsValue(a) * Pow10(|b|) + DigitsValue(b)
  {
    if b == [] {
      assert a + b == a;
    } else {
      var b' := b[..|b| - 1];
      assert AllDigits(b');
      DigitsValueOfConcat(a, b');
      assert (a + b)[..|a + b| - 1] == a + b';
      var d := (b[|b| - 1] - '0') as nat;
      ShiftedDigits(DigitsValue(a), Pow10(|b'|), DigitsValue(b'), d);
    }
  }

  lemma ShiftedDigits(a: nat, p: nat, b: nat, d: nat)
    ensures (a * p + b) * 10 + d == a * (10 * p) + (b * 10 + d)
  {}

  lemma {:induction false} DigitsValueOfDigits(n: nat)
    ensures DigitsValue(Digits(n)) == n
  {
    if n < 10 {
    } else {
      DigitsValueOfDigits(n / 10);
      var s := Digits(n / 10);
      assert Digits(n)[..|Digits(n)| - 1] == s;
    }
  }

  lemma {:induction false} DigitsValueOfPadded(n: nat, width: nat)
    requires n < Pow10(width)
    ensures DigitsValue(Padded(n, width)) == n
  {
    if width == 0 {
    } else {
      DigitsValueOfPadded(n / 10, width - 1);
      assert Padded(n, width)[..width - 1] == Padded(n / 10, width - 1);
    }
  }

  /** Reading back what was printed gives the printed millionths exactly, whether or not
      the line break that ends the file line is still attached. */
  lemma AtofOfPrinted(v: real, tail: string)
    requires tail == [] || tail == "\n"
    ensures Atof(PrintFixed6(v) + tail) == (if v < 0.0 then -1.0 else 1.0) * (Micros(v) as real / 1000000.0)
  {
    hide Micros, Magnitude, Digits, Padded;
    var m := Micros(v);
    var a, b := Digits(m / 1000000), Padded(m % 1000000, 6);
    var number := a + ("." + (b + tail));
    MagnitudeOfPrinted(m, tail);
    if v < 0.0 {
      AtofSigned(number);
      assert PrintFixed6(v) + tail == "-" + number;
    } else {
      AtofUnsigned(number);
      assert PrintFixed6(v) + tail == number;
    }
  }

  lemma AtofSigned(number: string)
    ensures Atof("-" + number) == -Magnitude(number)
  {
    hide Magnitude;
    assert ("-" + number)[1..] == number;
  }

  lemma AtofUnsigned(number: string)
    requires number != [] && IsDigit(number[0])
    ensures Atof(number) == Magnitude(number)
  {
    hide Magnitude;
  }

  lemma MagnitudeOfPrinted(m: nat, tail: string)
    requires tail == [] || tail == "\n"
    ensures var number := Digits(m / 1000000) + ("." + (Padded(m % 1000000, 6) + tail));
            && Magnitude(number) == m as real / 1000000.0
            && IsDigit(number[0])
  {
    hide Digits, Padded, Magnitude;
    MagnitudeOfParts(m / 1000000, m % 1000000, tail);
  }

  lemma MagnitudeOfParts(q: nat, r: nat, tail: string)
    requires r < 1000000 && (tail == [] || tail == "\n")
    ensures var number := Digits(q) + ("." + (Padded(r, 6) + tail));
            && Magnitude(number) == (q * 1000000 + r) as real / 1000000.0
            && IsDigit(number[0])
  {
    hide Digits, Padded, Pow10, DigitsValue, Magnitude, AllDigits;
    var a, b := Digits(q), Padded(r, 6);
    ValueOfPrinted(q, r);
    PowersOfTen();
    MagnitudeOfText(a, b, tail);
    SameQuotient((q * 1000000 + r) as real, Pow10(6));
    FirstDigit(a, "." + (b + tail));
  }

  lemma SameQuotient(v: real, p: nat)
    requires p == 1000000
    ensures v / p as real == v / 1000000.0
  {}

  lemma FirstDigit(a: string, rest: string)
    requires a != [] && AllDigits(a)
    ensures IsDigit((a + rest)[0])
  {}

  lemma ValueOfPrinted(q: nat, r: nat)
    requires r < 1000000
    ensures AllDigits(Digits(q) + Padded(r, 6))
    ensures DigitsValue(Digits(q) + Padded(r, 6)) == q * 1000000 + r
  {
    hide Digits, Padded, Pow10, DigitsValue;
    PowersOfTen();
    DigitsValueOfConcat(Digits(q), Padded(r, 6));
    DigitsValueOfDigits(q);
    DigitsValueOfPadded(r, 6);
  }

  lemma MagnitudeOfText(a: string, b: string, tail: string)
    requires a != [] && AllDigits(a) && AllDigits(b) && AllDigits(a + b)
    requires tail == [] || tail == "\n"
    ensures Magnitude(a + ("." + (b + tail))) == DigitsValue(a + b) as real / Pow10(|b|) as real
  {
    hide Pow10, DigitsValue, AllDigits, Magnitude;
    MagnitudeOfDecimal(a, b, tail);
  }

  lemma PowersOfTen()
    ensures Pow10(6) == 1000000
  {
    assert Pow10(3) == 1000;
    assert Pow10(6) == 10 * (10 * (10 * Pow10(3)));
  }

  /** Six-decimal text is off by at most half a millionth. */
  lemma PrintingError(v: real, tail: string)
    requires tail == [] || tail == "\n"
    ensures -0.0000005 <= Atof(PrintFixed6(v) + tail) - v <= 0.0000005
  {
    AtofOfPrinted(v, tail);
  }

  lemma PrintedIsToken(v: real, tail: string)
    requires tail == [] || tail == "\n"
    ensures IsToken(PrintFixed6(v), IsSpace)
    ensures IsToken(PrintFixed6(v) + tail, IsComma)
  {
    var s := PrintFixed6(v);
    forall i | 0 <= i < |s| ensures IsDigit(s[i]) || s[i] == '.' || s[i] == '-' {}
  }

  // ----- what is printed -----

  lemma {:induction false} NoLeadingZero(n: nat)
    ensures |Digits(n)| > 1 ==> Digits(n)[0] != '0'
    ensures n > 0 && |Digits(n)| == 1 ==> Digits(n)[0] != '0'
  {
    if n < 10 {
    } else {
      NoLeadingZero(n / 10);
    }
  }

  /** The text of a number: a minus if it is negative, digits without a leading zero but for
      a single one, a point and six digits; read as one numeral, with the point left out, they
      are the nearest number of millionths, the even one of two. */
  lemma PrintedText(v: real) returns (a: string, b: string)
    ensures PrintFixed6(v) == (if v < 0.0 then "-" else "") + a + "." + b
    ensures AllDigits(a) && AllDigits(b) && AllDigits(a + b)
    ensures a != [] && (|a| > 1 ==> a[0] != '0') && |b| == 6
    ensures var x, y := DigitsValue(a + b) as real, (if v < 0.0 then -v else v) * 1000000.0;
            -0.5 <= x - y <= 0.5 && (x - y == 0.5 || x - y == -0.5 ==> DigitsValue(a + b) % 2 == 0)
  {
    hide Digits, Padded, DigitsValue, AllDigits;
    var m := Micros(v);
    a, b := Digits(m / 1000000), Padded(m % 1000000, 6);
    NoLeadingZero(m / 1000000);
    ValueOfPrinted(m / 1000000, m % 1000000);
  }

  // ----- what is read -----

  /** The six blank characters: space, tab, line feed, vertical tab, form feed and return. */
  const BLANKS := " \t\n\U{000B}\U{000C}\r"

  lemma SpaceIsBlank(c: char)
    ensures IsSpace(c) <==> c in BLANKS
  {
    assert BLANKS[0] == ' ' && BLANKS[1] == '\t' && BLANKS[2] == '\n' && BLANKS[5] == '\r';
    assert BLANKS[3] == '\U{000B}' && BLANKS[4] == '\U{000C}';
    if IsSpace(c) {
      assert c == ' ' || c == '\t' || c == '\n' || c == '\U{000B}' || c == '\U{000C}' || c == '\r';
    }
  }

  ghost predicate AllSpace(s: string)
  {
    forall i :: 0 <= i < |s| ==> s[i] in BLANKS
  }

  lemma {:induction false} SkipSpaceOf(space: string, rest: string)
    requires AllSpace(space) && (rest == [] || !IsSpace(rest[0]))
    ensures SkipSpace(space + rest) == rest
  {
    if space == [] {
      assert space + rest == rest;
    } else {
      assert (space + rest)[1..] == space[1..] + rest;
      SpaceIsBlank(space[0]);
      SkipSpaceOf(space[1..], rest);
    }
  }

  lemma AtofOfParts(space: string, sign: string, number: string)
    requires AllSpace(space) && sign in {"", "+", "-"}
    requires number != [] && !IsSpace(number[0]) && !IsSigned(number)
    ensures Atof(space + (sign + number)) == if sign == "-" then -Magnitude(number) else Magnitude(number)
  {
    hide Magnitude, IsSpace;
    assert sign == "" ==> sign + number == number;
    assert sign != "" ==> (sign + number)[0] == sign[0] && (sign + number)[1..] == number;
    assert !IsSpace((sign + number)[0]) by { SignIsNoSpace(sign, number); }
    SkipSpaceOf(space, sign + number);
  }

  lemma SignIsNoSpace(sign: string, number: string)
    requires sign in {"", "+", "-"} && number != [] && !IsSpace(number[0])
    ensures !IsSpace((sign + number)[0])
  {}

  lemma MagnitudeOfDecimal(a: string, b: string, tail: string)
    requires AllDigits(a) && AllDigits(b) && AllDigits(a + b)
    requires a + b != [] && (tail == [] || !IsDigit(tail[0]))
    ensures Magnitude(a + ("." + (b + tail))) == Decimal(a + b, |b|, tail)
  {
    hide Decimal, DigitsValue, ExponentFactor, AllDigits;
    var number := a + ("." + (b + tail));
    DigitRunOf(a, "." + (b + tail));
    DigitRunOf(b, tail);
    assert number[..|a|] == a && number[|a|] == '.' && number[|a| + 1..] == b + tail;
    assert (b + tail)[..|b|] == b && (b + tail)[|b|..] == tail;
  }

  lemma FirstOfDecimal(a: string, rest: string)
    requires AllDigits(a) && rest != [] && (rest[0] == '.' || a != [])
    ensures var number := a + rest; number != [] && !IsSpace(number[0]) && !IsSigned(number)
  {}

  /** Reading a number with a point: leading space, a sign, digits before and after the point,
      not both absent, and what follows. */
  lemma AtofOfDecimal(space: string, sign: string, a: string, b: string, tail: string)
    requires AllSpace(space) && sign in {"", "+", "-"} && AllDigits(a) && AllDigits(b) && AllDigits(a + b)
    requires a + b != [] && (tail == [] || !IsDigit(tail[0]))
    ensures var magnitude := DigitsValue(a + b) as real / Pow10(|b|) as real * ExponentFactor(tail);
            Atof(space + (sign + (a + ("." + (b + tail))))) == if sign == "-" then -magnitude else magnitude
  {
    hide Pow10, DigitsValue, ExponentFactor, Atof, AllDigits, AllSpace, Magnitude, IsSpace;
    FirstOfDecimal(a, "." + (b + tail));
    AtofOfParts(space, sign, a + ("." + (b + tail)));
    MagnitudeOfDecimal(a, b, tail);
  }

  /** Reading a number without a point. */
  lemma AtofOfInteger(space: string, sign: string, a: string, tail: string)
    requires AllSpace(space) && sign in {"", "+", "-"} && a != [] && AllDigits(a)
    requires tail == [] || (!IsDigit(tail[0]) && tail[0] != '.')
    ensures var magnitude := DigitsValue(a) as real * ExponentFactor(tail);
            Atof(space + (sign + (a + tail))) == if sign == "-" then -magnitude else magnitude
  {
    hide Pow10, DigitsValue, ExponentFactor, Atof;
    AtofOfParts(space, sign, a + tail);
    DigitRunOf(a, tail);
    assert (a + tail)[..|a|] == a && (a + tail)[|a|..] == tail;
  }

  /** Text without a digit where a number should start is zero. */
  lemma AtofOfNothing(space: string, sign: string, rest: string)
    requires AllSpace(space) && sign in {"", "+", "-"}
    requires sign == "" ==> rest == [] || (rest[0] !in BLANKS && !IsSigned(rest))
    requires rest != [] ==> !IsDigit(rest[0]) && (rest[0] == '.' && |rest| > 1 ==> !IsDigit(rest[1]))
    ensures Atof(space + (sign + rest)) == 0.0
  {
    SignedRest(sign, rest);
    NoMagnitude(rest);
    if sign == "" && rest != [] { SpaceIsBlank(rest[0]); }
    SkipSpaceOf(space, sign + rest);
    hide Magnitude;
  }

  lemma NoMagnitude(rest: string)
    requires rest != [] ==> !IsDigit(rest[0]) && (rest[0] == '.' && |rest| > 1 ==> !IsDigit(rest[1]))
    ensures Magnitude(rest) == 0.0
  {
    hide ExponentFactor, DigitsValue, Pow10;
    if rest != [] && rest[0] == '.' { assert DigitRun(rest[1..]) == 0; }
  }

  /** What follows the digits: an exponent with digits moves the point, anything else is
      ignored. */
  lemma ExponentMeaning(mark: char, sign: string, digits: string, rest: string)
    requires sign in {"", "+", "-"} && AllDigits(digits) && (rest == [] || !IsDigit(rest[0]))
    requires digits == [] && sign == "" ==> !IsSigned(rest)
    ensures var p := Pow10(DigitsValue(digits)) as real;
            ExponentFactor([mark] + (sign + (digits + rest)))
              == if (mark != 'e' && mark != 'E') || digits == [] then 1.0 else if sign == "-" then 1.0 / p else p
    ensures ExponentFactor("") == 1.0
  {
    hide Pow10, DigitsValue, AllDigits;
    var s, t := [mark] + (sign + (digits + rest)), digits + rest;
    assert s[0] == mark && s[1..] == sign + t;
    DigitRunOf(digits, rest);
    assert t[..|digits|] == digits;
    SignedRest(sign, t);
    if sign != "" { assert s[2..] == t && s[1] == sign[0]; }
    if digits != [] { FirstDigit(digits, rest); }
  }

  lemma SignedRest(sign: string, t: string)
    requires sign in {"", "+", "-"}
    ensures sign == "" ==> sign + t == t
    ensures sign != "" ==> IsSigned(sign + t) && (sign + t)[1..] == t
  {}
}

/** Writing and reading numbers, with the rules of `strtoull` that the option parsers rely on. */
module Numerals {
  import opened Wrappers

  const TWO_20 := 0x10_0000
  const TWO_32 := 0x1_0000_0000
  const TWO_44 := 0x1000_0000_0000
  const TWO_64 := 0x1_0000_0000_0000_0000

  predicate IsDecimal(c: char) {
    '0' <= c <= '9'
  }

  /** The value of a character as a digit in base 36 or less; 36 for any other character. */
  function DigitValue(c: char): (d: nat)
    ensures d <= 36
    ensures IsDecimal(c) <==> d < 10
  {
    if '0' <= c <= '9' then c as int - '0' as int
    else if 'a' <= c <= 'z' then c as int - 'a' as int + 10
    else if 'A' <= c <= 'Z' then c as int - 'A' as int + 10
    else 36
  }

  /** The digits of the bases that occur, in both cases. */
  lemma DigitsAre(i: nat)
    requires i < 16
    ensures DigitValue("0123456789abcdef"[i]) == i && DigitValue("0123456789ABCDEF"[i]) == i
  {}

  function DigitChar(d: nat): (c: char)
    requires d < 16
    ensures DigitValue(c) == d
  {
    if d < 10 then '0' + d as char else 'a' + (d - 10) as char
  }

  predicate AreDigits(s: string, base: nat) {
    forall i | 0 <= i < |s| :: DigitValue(s[i]) < base
  }

  function Value(s: string, base: nat): nat {
    if s == [] then 0 else Value(s[..|s| - 1], base) * base + DigitValue(s[|s| - 1])
  }

  /** The bases that occur. */
  predicate IsBase(base: nat) {
    base == 8 || base == 10 || base == 16
  }

  lemma DivideBy(n: nat, base: nat)
    requires IsBase(base)
    ensures n / base * base + n % base == n
    ensures n % base < base
    ensures base <= n ==> 0 < n / base < n
  {}

  function Digits(n: nat, base: nat): (s: string)
    requires IsBase(base)
    ensures s != []
    decreases n
  {
    DivideBy(n, base);
    if n < base then [DigitChar(n)] else Digits(n / base, base) + [DigitChar(n % base)]
  }

  lemma ValueAppend(s: string, c: char, base: nat)
    ensures Value(s + [c], base) == Value(s, base) * base + DigitValue(c)
  {}

  lemma {:induction false} DigitsShape(n: nat, base: nat)
    requires IsBase(base)
    ensures AreDigits(Digits(n, base), base)
    ensures n > 0 ==> DigitValue(Digits(n, base)[0]) > 0
    ensures n == 0 ==> Digits(n, base) == "0"
    decreases n
  {
    DivideBy(n, base);
    if n >= base {
      DigitsShape(n / base, base);
    }
  }

  /** Reading the digits of a number gives the number. */
  lemma {:induction false} ValueOfDigits(n: nat, base: nat)
    requires IsBase(base)
    ensures Value(Digits(n, base), base) == n
    decreases n
  {
    DivideBy(n, base);
    if n < base {
      ValueAppend([], DigitChar(n), base);
      assert [] + [DigitChar(n)] == [DigitChar(n)];
    } else {
      var q, r := n / base, n % base;
      ValueOfDigits(q, base);
      ValueAppend(Digits(q, base), DigitChar(r), base);
      assert Digits(n, base) == Digits(q, base) + [DigitChar(r)];
    }
  }

  // ---------------------------------------------------------------- std::stoull(s, nullptr, 0)

  datatype NumberError = InvalidArgument | OutOfRange

  predicate IsSpace(c: char) {
    c == ' ' || '\t' <= c <= '\r'
  }

  function SkipSpace(s: string): string {
    if s != [] && IsSpace(s[0]) then SkipSpace(s[1..]) else s
  }

  /** How many leading characters are digits of the base. */
  function DigitRun(s: string, base: nat): (n: nat)
    ensures n <= |s|
    ensures AreDigits(s[..n], base)
    ensures n < |s| ==> DigitValue(s[n]) >= base
  {
    if s != [] && DigitValue(s[0]) < base then
      var n := 1 + DigitRun(s[1..], base);
      assert s[..n] == [s[0]] + s[1..][..n - 1];
      n
    else 0
  }

  /** Base 16 behind `0x` and a hexadecimal digit, base 8 behind a zero, else base 10; with the characters to skip. */
  function Base(s: string): (nat, nat) {
    if |s| > 2 && s[0] == '0' && (s[1] == 'x' || s[1] == 'X') && DigitValue(s[2]) < 16 then (16, 2)
    else if s != [] && s[0] == '0' then (8, 0)
    else (10, 0)
  }

  /** A prefix and digits; what follows them is ignored. */
  function Magnitude(u: string): Result<nat, NumberError> {
    var (base, skip) := Base(u);
    var n := if skip <= |u| then DigitRun(u[skip..], base) else 0;
    if n == 0 then Failure(InvalidArgument)
    else
      var v := Value(u[skip..][..n], base);
      if v >= TWO_64 then Failure(OutOfRange) else Success(v)
  }

  /** A minus sign wraps around. */
  function Negated(m: Result<nat, NumberError>): Result<nat, NumberError> {
    match m
    case Failure(e) => m
    case Success(v) => Success((TWO_64 - v) % TWO_64)
  }

  function Signed(t: string): Result<nat, NumberError> {
    if t != [] && t[0] == '-' then Negated(Magnitude(t[1..]))
    else if t != [] && t[0] == '+' then Magnitude(t[1..])
    else Magnitude(t)
  }

  /** White space, a sign and a magnitude. */
  function Stoull(s: string): Result<nat, NumberError> {
    Signed(SkipSpace(s))
  }

  /** Decimal or prefixed hexadecimal. */
  function Numeral(n: nat, hex: bool): string {
    if hex then "0x" + Digits(n, 16) else Digits(n, 10)
  }

  lemma {:induction false} AllDigits(s: string, base: nat)
    requires AreDigits(s, base)
    ensures DigitRun(s, base) == |s|
  {}

  /** A string that is a prefix and digits, and nothing else. */
  lemma StoullPlain(s: string, base: nat, skip: nat)
    requires s != [] && !IsSpace(s[0]) && s[0] != '-' && s[0] != '+'
    requires Base(s) == (base, skip) && skip < |s| && AreDigits(s[skip..], base)
    ensures var v := Value(s[skip..], base);
            Stoull(s) == if v < TWO_64 then Success(v) else Failure(OutOfRange)
  {
    var d := s[skip..];
    AllDigits(d, base);
    assert d[..|d|] == d;
  }

  /** A printed number reads back as itself when it fits 64 bits, and is out of range when it does not. */
  lemma StoullOfNumeral(n: nat, hex: bool)
    ensures Stoull(Numeral(n, hex)) == if n < TWO_64 then Success(n) else Failure(OutOfRange)
  {
    if hex {
      HexNumeral(n);
    } else {
      DecimalNumeral(n);
    }
  }

  lemma HexNumeral(n: nat)
    ensures Stoull(Numeral(n, true)) == if n < TWO_64 then Success(n) else Failure(OutOfRange)
  {
    var s, d := Numeral(n, true), Digits(n, 16);
    DigitsShape(n, 16);
    ValueOfDigits(n, 16);
    assert s[0] == '0' && s[1] == 'x' && s[2] == d[0] && s[2..] == d;
    StoullPlain(s, 16, 2);
  }

  lemma DecimalNumeral(n: nat)
    ensures Stoull(Numeral(n, false)) == if n < TWO_64 then Success(n) else Failure(OutOfRange)
  {
    var d := Digits(n, 10);
    DigitsShape(n, 10);
    ValueOfDigits(n, 10);
    assert IsDecimal(d[0]) && d[0..] == d;
    if n == 0 {
      ValueAppend([], '0', 8);
      assert [] + ['0'] == d;
      StoullPlain(d, 8, 0);
    } else {
      StoullPlain(d, 10, 0);
    }
  }

  // ---------------------------------------------------------------- what else it accepts

  /** A number as it can be written. */
  datatype Form = Hex(digits: string) | Octal(digits: string) | Decimal(digits: string)

  function BaseOf(f: Form): nat {
    match f
    case Hex(_) => 16
    case Octal(_) => 8
    case Decimal(_) => 10
  }

  function Body(f: Form): string {
    match f
    case Hex(d) => ['0', 'x'] + d
    case Octal(d) => ['0'] + d
    case Decimal(d) => d
  }

  /** What it is worth; the zero of an octal number is one of its digits. */
  function Worth(f: Form): nat {
    Value(if f.Octal? then Body(f) else f.digits, BaseOf(f))
  }

  /** The digits belong to the base, and what follows neither continues them nor makes them hexadecimal. */
  predicate Proper(f: Form, rest: string) {
    && AreDigits(f.digits, BaseOf(f)) && (rest != [] ==> DigitValue(rest[0]) >= BaseOf(f))
    && match f
       case Hex(d) => d != []
       case Octal(d) => d == [] && |rest| > 1 && (rest[0] == 'x' || rest[0] == 'X') ==> DigitValue(rest[1]) >= 16
       case Decimal(d) => d != [] && d[0] != '0'
  }

  lemma {:induction false} SkipsSpace(space: string, t: string)
    requires (forall i | 0 <= i < |space| :: IsSpace(space[i])) && (t != [] ==> !IsSpace(t[0]))
    ensures SkipSpace(space + t) == t
  {
    if space == [] {
      assert space + t == t;
    } else {
      assert (space + t)[1..] == space[1..] + t;
      SkipsSpace(space[1..], t);
    }
  }

  lemma {:induction false} RunsToRest(d: string, rest: string, base: nat)
    requires AreDigits(d, base) && (rest != [] ==> DigitValue(rest[0]) >= base)
    ensures DigitRun(d + rest, base) == |d|
  {
    var all, n := d + rest, DigitRun(d + rest, base);
    assert forall i | 0 <= i < |d| :: all[i] == d[i];
    assert rest != [] ==> all[|d|] == rest[0];
    assert forall i | 0 <= i < n :: all[..n][i] == all[i];
  }

  function Sign(sign: Option<char>): string {
    match sign
    case None => []
    case Some(c) => [c]
  }

  /** A number with whatever may stand around it: space and a sign before, and anything behind that does not continue it. */
  function Around(space: string, sign: Option<char>, f: Form, rest: string): string {
    space + Sign(sign) + (Body(f) + rest)
  }

  lemma MagnitudeMeans(f: Form, rest: string)
    requires Proper(f, rest)
    ensures Body(f) + rest != [] && IsDecimal((Body(f) + rest)[0])
    ensures Magnitude(Body(f) + rest) == if Worth(f) >= TWO_64 then Failure(OutOfRange) else Success(Worth(f))
  {
    var u := Body(f) + rest;
    var skip := if f.Hex? then 2 else 0;
    var d := Body(f)[skip..];
    FormStart(f, rest);
    assert u[skip..] == d + rest;
    RunsToRest(d, rest, BaseOf(f));
    assert (d + rest)[..|d|] == d;
    assert d == if f.Octal? then Body(f) else f.digits;
  }

  /** It is read as its value in its base; a minus sign takes it from 2^64. */
  lemma StoullMeans(space: string, sign: Option<char>, f: Form, rest: string)
    requires (forall i | 0 <= i < |space| :: IsSpace(space[i])) && (sign.Some? ==> sign.value == '-' || sign.value == '+')
    requires Proper(f, rest)
    ensures Stoull(Around(space, sign, f, rest)) ==
            if Worth(f) >= TWO_64 then Failure(OutOfRange)
            else Success(if sign == Some('-') then (TWO_64 - Worth(f)) % TWO_64 else Worth(f))
  {
    var u := Body(f) + rest;
    MagnitudeMeans(f, rest);
    SignMeans(space, sign, u);
    assert Stoull(Around(space, sign, f, rest)) == if sign == Some('-') then Negated(Magnitude(u)) else Magnitude(u);
  }

  lemma SignMeans(space: string, sign: Option<char>, u: string)
    requires (forall i | 0 <= i < |space| :: IsSpace(space[i])) && (sign.Some? ==> sign.value == '-' || sign.value == '+')
    requires u != [] && IsDecimal(u[0])
    ensures Stoull(space + Sign(sign) + u) == if sign == Some('-') then Negated(Magnitude(u)) else Magnitude(u)
  {
    var t := Sign(sign) + u;
    assert space + Sign(sign) + u == space + t;
    SkipsSpace(space, t);
    if sign.None? {
      assert t == u;
    } else {
      assert t[1..] == u;
    }
  }

  lemma FormStart(f: Form, rest: string)
    requires Proper(f, rest)
    ensures var u := Body(f) + rest;
            && Body(f) != [] && IsDecimal(Body(f)[0])
            && Base(u) == (BaseOf(f), if f.Hex? then 2 else 0) && AreDigits(Body(f)[if f.Hex? then 2 else 0..], BaseOf(f))
  {
    var u, d := Body(f) + rest, f.digits;
    match f
    case Hex(_) => assert u[2] == d[0] && Body(f)[2..] == d;
    case Octal(_) => assert d != [] ==> u[1] == d[0];
    case Decimal(_) => assert u[0] == d[0];
  }
}

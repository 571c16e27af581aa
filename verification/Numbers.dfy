/** Printing a number and reading it back: printnum and strtol. */
module Numbers {

  const DIGITS := "0123456789abcdef"

  function Digit(d: nat): char
    requires d < 16
  {
    DIGITS[d]
  }

  /** num in a base, most significant digit first. */
  function Digits(num: nat, base: nat): (s: string)
    requires 2 <= base <= 16
    ensures |s| >= 1
  {
    if num >= base then Digits(num / base, base) + [Digit(num % base)] else [Digit(num % base)]
  }

  function Repeat(c: char, n: int): (s: string)
    ensures |s| == if n < 0 then 0 else n
    ensures forall k :: 0 <= k < |s| ==> s[k] == c
    decreases n
  {
    if n <= 0 then [] else [c] + Repeat(c, n - 1)
  }

  /** A number right-aligned in a field of the given width. */
  function Printed(num: nat, base: nat, width: int, padc: char): string
    requires 2 <= base <= 16
  {
    Repeat(padc, width - |Digits(num, base)|) + Digits(num, base)
  }

  class Sink {
    var out: string

    method Putch(c: char)
      modifies this
      ensures out == old(out) + [c]
    {
      out := out + [c];
    }
  }

  /** while (--width > 0) putch(padc) */
  method PutPad(sink: Sink, width: int, padc: char)
    modifies sink
    ensures sink.out == old(sink.out) + Repeat(padc, width - 1)
  {
    var w := width - 1;
    while w > 0
      invariant w <= width - 1 && (w >= 0 || w == width - 1)
      invariant sink.out == old(sink.out) + Repeat(padc, if w <= 0 then width - 1 else width - 1 - w)
    {
      RepeatMore(padc, width - 1 - w);
      sink.Putch(padc);
      w := w - 1;
    }
  }

  /** printnum, for base <= 16: all the digits, padded in front to the width. */
  method Printnum(sink: Sink, num: nat, base: nat, width: int, padc: char)
    requires 2 <= base <= 16
    modifies sink
    ensures sink.out == old(sink.out) + Printed(num, base, width, padc)
    decreases num
  {
    if num >= base {
      Printnum(sink, num / base, base, width - 1, padc);
    } else {
      PutPad(sink, width, padc);
    }
    sink.Putch(Digit(num % base));
  }

  lemma RepeatMore(c: char, n: nat)
    ensures Repeat(c, n + 1) == Repeat(c, n) + [c]
  {
  }

  // ---------------------------------------------------------------------- strtol

  /** The character at s[i] of a C string. */
  function CharAt(s: string, i: nat): char {
    if i < |s| then s[i] else '\0'
  }

  datatype Option = None | Some(value: int)

  function DigitValue(c: char): Option {
    if '0' <= c <= '9' then Some(c as int - '0' as int)
    else if 'a' <= c <= 'z' then Some(c as int - 'a' as int + 10)
    else if 'A' <= c <= 'Z' then Some(c as int - 'A' as int + 10)
    else None
  }

  predicate DigitIn(c: char, base: int) {
    DigitValue(c).Some? && DigitValue(c).value < base
  }

  /** Arithmetic on a 32-bit long. */
  function Long(x: int): (r: int)
    ensures -0x8000_0000 <= x < 0x8000_0000 ==> r == x
  {
    (x + 0x8000_0000) % 0x1_0000_0000 - 0x8000_0000
  }

  function SkipBlanks(s: string, i: nat): (j: nat)
    requires i <= |s|
    ensures i <= j <= |s|
    decreases |s| - i
  {
    if CharAt(s, i) == ' ' || CharAt(s, i) == '\t' then SkipBlanks(s, i + 1) else i
  }

  /** The digits from s[i] on, after those that make val: the value and the index
      where they end. */
  function ReadDigits(s: string, i: nat, base: int, val: int): (r: (int, nat))
    requires i <= |s|
    ensures i <= r.1 <= |s| && !DigitIn(CharAt(s, r.1), base)
    decreases |s| - i
  {
    if DigitIn(CharAt(s, i), base)
    then ReadDigits(s, i + 1, base, Long(val * base + DigitValue(CharAt(s, i)).value))
    else (val, i)
  }

  predicate HexPrefix(s: string, j: nat, base: int) {
    (base == 0 || base == 16) && CharAt(s, j) == '0' && CharAt(s, j + 1) == 'x'
  }

  /** The base, and where the digits start, once the sign is read. */
  function Prefix(s: string, j: nat, base: int): (r: (int, nat))
    requires j <= |s|
    ensures r.1 <= |s|
  {
    if HexPrefix(s, j, base) then (16, j + 2)
    else if base == 0 && CharAt(s, j) == '0' then (8, j + 1)
    else (if base == 0 then 10 else base, j)
  }

  /** What strtol returns and where it stops. */
  function Parsed(s: string, base: int): (int, nat) {
    var i := SkipBlanks(s, 0);
    var neg := CharAt(s, i) == '-';
    var (b, j) := Prefix(s, if CharAt(s, i) == '+' || neg then i + 1 else i, base);
    var (val, k) := ReadDigits(s, j, b, 0);
    (if neg then Long(-val) else val, k)
  }

  method GobblePrefix(s: string, start: nat, base: int) returns (b: int, end: nat)
    requires start <= |s|
    ensures (b, end) == Prefix(s, start, base)
  {
    b, end := base, start;
    if (b == 0 || b == 16) && CharAt(s, end) == '0' && CharAt(s, end + 1) == 'x' {
      end := end + 2;
      b := 16;
    } else if b == 0 && CharAt(s, end) == '0' {
      end := end + 1;
      b := 8;
    } else if b == 0 {
      b := 10;
    }
  }

  method GobbleBlanks(s: string) returns (end: nat)
    ensures end == SkipBlanks(s, 0)
  {
    end := 0;
    while CharAt(s, end) == ' ' || CharAt(s, end) == '\t'
      invariant end <= |s| && SkipBlanks(s, end) == SkipBlanks(s, 0)
      decreases |s| - end
    {
      end := end + 1;
    }
  }

  method GobbleDigits(s: string, start: nat, base: int) returns (val: int, end: nat)
    requires start <= |s|
    ensures (val, end) == ReadDigits(s, start, base, 0)
  {
    val, end := 0, start;
    while DigitIn(CharAt(s, end), base)
      invariant end <= |s| && ReadDigits(s, end, base, val) == ReadDigits(s, start, base, 0)
      decreases |s| - end
    {
      val := Long(val * base + DigitValue(CharAt(s, end)).value);
      end := end + 1;
    }
  }

  method Strtol(s: string, base: int) returns (val: int, end: nat)
    ensures (val, end) == Parsed(s, base)
  {
    var neg := false;
    end := GobbleBlanks(s);
    if CharAt(s, end) == '+' {
      end := end + 1;
    } else if CharAt(s, end) == '-' {
      end := end + 1;
      neg := true;
    }
    var b;
    b, end := GobblePrefix(s, end, base);
    val, end := GobbleDigits(s, end, b);
    if neg {
      val := Long(-val);
    }
  }

  // ------------------------------------------------------------------ round trip

  lemma DigitBack(d: nat)
    requires d < 16
    ensures DigitValue(Digit(d)) == Some(d)
    ensures Digit(d) != ' ' && Digit(d) != '\t' && Digit(d) != '+' && Digit(d) != '-' && Digit(d) != 'x'
  {
  }

  /** s[i..] starts with ds. */
  predicate At(s: string, i: nat, ds: string) {
    i + |ds| <= |s| && s[i..i + |ds|] == ds
  }

  lemma AtFront(s: string, i: nat, ds: string, c: char)
    requires At(s, i, ds + [c])
    ensures At(s, i, ds) && s[i + |ds|] == c
  {
    assert s[i..i + |ds| + 1][..|ds|] == ds;
    assert s[i..i + |ds| + 1][|ds|] == c;
  }

  lemma AtRest(s: string, i: nat, c: char, ds: string)
    requires At(s, i, [c] + ds)
    ensures s[i] == c && At(s, i + 1, ds)
  {
    assert s[i..i + |ds| + 1][0] == c;
    assert s[i..i + |ds| + 1][1..] == ds;
  }

  lemma DigitsNext(num: nat, base: nat)
    requires base <= num && 2 <= base <= 16
    ensures num == num / base * base + num % base && num / base < num
  {
  }

  /** One more digit. */
  lemma ReadOne(s: string, i: nat, base: nat, val: nat, d: nat)
    requires 2 <= base <= 16 && d < base && i < |s| && s[i] == Digit(d)
    requires val * base + d < 0x8000_0000
    ensures ReadDigits(s, i, base, val) == ReadDigits(s, i + 1, base, val * base + d)
  {
    DigitBack(d);
    assert val * base >= 0;
  }

  lemma ReadLast(s: string, i: nat, base: nat, front: string, q: nat, d: nat)
    requires 2 <= base <= 16 && d < base && q * base + d < 0x8000_0000 && At(s, i, front + [Digit(d)])
    requires ReadDigits(s, i, base, 0) == ReadDigits(s, i + |front|, base, q)
    ensures ReadDigits(s, i, base, 0) == ReadDigits(s, i + |front| + 1, base, q * base + d)
  {
    AtFront(s, i, front, Digit(d));
    ReadOne(s, i + |front|, base, q, d);
  }

  /** s has the digits of num at i, and reading them is having read num. */
  predicate Reads(s: string, i: nat, base: nat, ds: string, num: nat) {
    At(s, i, ds) && ReadDigits(s, i, base, 0) == ReadDigits(s, i + |ds|, base, num)
  }

  lemma ReadsFirst(s: string, i: nat, base: nat, num: nat)
    requires num < base && 2 <= base <= 16 && At(s, i, [Digit(num)])
    ensures Reads(s, i, base, [Digit(num)], num)
  {
    AtFront(s, i, [], Digit(num));
    assert [] + [Digit(num)] == [Digit(num)];
    ReadOne(s, i, base, 0, num);
  }

  lemma ReadsNext(s: string, i: nat, base: nat, front: string, q: nat, d: nat, num: nat)
    requires 2 <= base <= 16 && d < base && num == q * base + d && num < 0x8000_0000
    requires At(s, i, front + [Digit(d)]) && Reads(s, i, base, front, q)
    ensures Reads(s, i, base, front + [Digit(d)], num)
  {
    ReadLast(s, i, base, front, q, d);
  }

  lemma DigitsSplit(num: nat, base: nat)
    requires 2 <= base <= 16
    ensures Digits(num, base) == if num < base then [Digit(num)] else Digits(num / base, base) + [Digit(num % base)]
  {
  }

  /** Reading the digits of num from their start is having read num. */
  lemma {:induction false} ReadBack(s: string, i: nat, base: nat, num: nat)
    requires 2 <= base <= 16 && num < 0x8000_0000 && At(s, i, Digits(num, base))
    ensures Reads(s, i, base, Digits(num, base), num)
    decreases num
  {
    DigitsSplit(num, base);
    if num < base {
      ReadsFirst(s, i, base, num);
    } else {
      DigitsNext(num, base);
      AtFront(s, i, Digits(num / base, base), Digit(num % base));
      ReadBack(s, i, base, num / base);
      ReadsNext(s, i, base, Digits(num / base, base), num / base, num % base, num);
    }
  }

  lemma {:induction false} BlanksSkipped(s: string, i: nat, n: nat)
    requires At(s, i, Repeat(' ', n)) && CharAt(s, i + n) != ' ' && CharAt(s, i + n) != '\t'
    ensures SkipBlanks(s, i) == i + n
    decreases n
  {
    if n > 0 {
      AtRest(s, i, ' ', Repeat(' ', n - 1));
      BlanksSkipped(s, i + 1, n - 1);
    }
  }

  lemma {:induction false} ZerosRead(s: string, i: nat, n: nat, base: nat)
    requires 2 <= base <= 16 && At(s, i, Repeat('0', n))
    ensures ReadDigits(s, i, base, 0) == ReadDigits(s, i + n, base, 0)
    decreases n
  {
    if n > 0 {
      AtRest(s, i, '0', Repeat('0', n - 1));
      ReadOne(s, i, base, 0, 0);
      ZerosRead(s, i + 1, n - 1, base);
    }
  }

  /** Neither a blank, a sign nor an x. */
  predicate Plain(c: char) {
    c != ' ' && c != '\t' && c != '+' && c != '-' && c != 'x'
  }

  lemma {:induction false} DigitsPlain(num: nat, base: nat)
    requires 2 <= base <= 16
    ensures forall k :: 0 <= k < |Digits(num, base)| ==> Plain(Digits(num, base)[k])
    decreases num
  {
    DigitBack(num % base);
    if num >= base {
      DigitsNext(num, base);
      DigitsPlain(num / base, base);
    }
  }

  lemma FieldStart(s: string, n: nat, num: nat, base: nat, padc: char)
    requires 2 <= base <= 16 && (padc == ' ' || padc == '0') && s == Repeat(padc, n) + Digits(num, base)
    ensures SkipBlanks(s, 0) == if padc == ' ' then n else 0
  {
    FieldPlain(s, n, num, base, padc);
    assert Plain(CharAt(s, n));
    if padc == ' ' {
      assert At(s, 0, Repeat(padc, n));
      BlanksSkipped(s, 0, n);
    } else {
      assert Plain(CharAt(s, 0));
    }
  }

  lemma FieldDigits(s: string, n: nat, ds: string, num: nat, base: nat, padc: char)
    requires 2 <= base <= 16 && (padc == ' ' || padc == '0')
    requires s == Repeat(padc, n) + ds && Reads(s, n, base, ds, num)
    ensures ReadDigits(s, if padc == ' ' then n else 0, base, 0) == (num, |s|)
  {
    assert At(s, 0, Repeat(padc, n));
    ReadAll(s, n, base, ds, num);
    if padc == '0' {
      ZerosRead(s, 0, n, base);
    }
  }

  lemma ReadAll(s: string, n: nat, base: nat, ds: string, num: nat)
    requires Reads(s, n, base, ds, num) && n + |ds| == |s|
    ensures ReadDigits(s, n, base, 0) == (num, |s|)
  {
  }

  lemma FieldPlain(s: string, n: nat, num: nat, base: nat, padc: char)
    requires 2 <= base <= 16 && (padc == ' ' || padc == '0') && s == Repeat(padc, n) + Digits(num, base)
    ensures forall k: nat :: (padc == '0' || n <= k) ==> Plain(CharAt(s, k))
  {
    DigitsPlain(num, base);
    forall k: nat | padc == '0' || n <= k ensures Plain(CharAt(s, k)) {
      if n <= k < |s| {
        assert s[k] == Digits(num, base)[k - n];
      }
    }
  }

  lemma FieldReads(s: string, n: nat, num: nat, base: nat, padc: char)
    requires 2 <= base <= 16 && num < 0x8000_0000 && (padc == ' ' || padc == '0')
    requires s == Repeat(padc, n) + Digits(num, base)
    ensures ReadDigits(s, if padc == ' ' then n else 0, base, 0) == (num, |s|)
  {
    assert At(s, n, Digits(num, base));
    ReadBack(s, n, base, num);
    FieldDigits(s, n, Digits(num, base), num, base, padc);
  }

  /** A field of n pad characters and the digits: no sign, no prefix, and all its
      digits read. */
  lemma FieldRead(s: string, n: nat, num: nat, base: nat, padc: char)
    requires 2 <= base <= 16 && num < 0x8000_0000 && (padc == ' ' || padc == '0')
    requires s == Repeat(padc, n) + Digits(num, base)
    ensures var i := SkipBlanks(s, 0);
            && Plain(CharAt(s, i)) && Plain(CharAt(s, i + 1))
            && ReadDigits(s, i, base, 0) == (num, |s|)
  {
    FieldPlain(s, n, num, base, padc);
    FieldStart(s, n, num, base, padc);
    FieldReads(s, n, num, base, padc);
  }

  /** Printing any number below 2^31 in any base the printer knows, padded with
      blanks or zeros to any width, fills the field, and strtol with that base
      returns the number and stops at the terminator. */
  lemma PrintThenParse(num: nat, base: nat, width: int, padc: char)
    requires 2 <= base <= 16 && num < 0x8000_0000 && (padc == ' ' || padc == '0')
    ensures var s := Printed(num, base, width, padc);
            && |s| == (if width > |Digits(num, base)| then width else |Digits(num, base)|)
            && Parsed(s, base) == (num, |s|)
  {
    var s := Printed(num, base, width, padc);
    var n := |s| - |Digits(num, base)|;
    assert Repeat(padc, width - |Digits(num, base)|) == Repeat(padc, n);
    FieldRead(s, n, num, base, padc);
  }

  // ---------------------------------------------------- what strtol accepts

  /** The digits are the ten figures, then the letters of either case. */
  lemma DigitTable(k: nat)
    ensures k < 10 ==> DigitValue('0' + k as char) == Some(k)
    ensures k < 26 ==> DigitValue('a' + k as char) == DigitValue('A' + k as char) == Some(10 + k)
  {
  }

  predicate Numeral(ds: string, base: nat)
    decreases |ds|
  {
    ds == [] || (DigitIn(ds[|ds| - 1], base) && Numeral(ds[..|ds| - 1], base))
  }

  /** The number that a string of digits denotes. */
  function ValueOf(ds: string, base: nat): (v: nat)
    requires Numeral(ds, base)
    decreases |ds|
  {
    if ds == [] then 0
    else
      DigitNat(ds[|ds| - 1]);
      ValueOf(ds[..|ds| - 1], base) * base + DigitValue(ds[|ds| - 1]).value
  }

  lemma DigitNat(c: char)
    ensures DigitValue(c).Some? ==> DigitValue(c).value >= 0
  {
  }

  lemma OneDigitMore(front: string, c: char, base: nat)
    requires Numeral(front, base) && DigitIn(c, base)
    ensures Numeral(front + [c], base) && DigitValue(c).value >= 0
    ensures ValueOf(front + [c], base) == ValueOf(front, base) * base + DigitValue(c).value
  {
    DigitNat(c);
    assert (front + [c])[..|front + [c]| - 1] == front;
  }

  lemma DenotesNext(front: string, q: nat, d: nat, base: nat, num: nat)
    requires 2 <= base <= 16 && d < base && num == q * base + d && Numeral(front, base) && ValueOf(front, base) == q
    ensures Numeral(front + [Digit(d)], base) && ValueOf(front + [Digit(d)], base) == num
  {
    DigitBack(d);
    OneDigitMore(front, Digit(d), base);
  }

  lemma DenotesFirst(d: nat, base: nat)
    requires 2 <= base <= 16 && d < base
    ensures Numeral([Digit(d)], base) && ValueOf([Digit(d)], base) == d
  {
    assert [] + [Digit(d)] == [Digit(d)];
    DenotesNext([], 0, d, base, d);
  }

  /** Digits(num) denotes num. */
  lemma {:induction false} DigitsDenote(num: nat, base: nat)
    requires 2 <= base <= 16
    ensures Numeral(Digits(num, base), base) && ValueOf(Digits(num, base), base) == num
    decreases num
  {
    DigitsSplit(num, base);
    if num < base {
      DenotesFirst(num, base);
    } else {
      DigitsNext(num, base);
      DigitsDenote(num / base, base);
      DenotesNext(Digits(num / base, base), num / base, num % base, base, num);
    }
  }

  lemma GrowsWithDigits(ds: string, base: nat)
    requires ds != [] && 2 <= base && Numeral(ds, base) && Numeral(ds[..|ds| - 1], base)
    ensures ValueOf(ds[..|ds| - 1], base) <= ValueOf(ds, base)
  {
    DigitNat(ds[|ds| - 1]);
    MulGrows(ValueOf(ds[..|ds| - 1], base), base);
  }

  lemma MulGrows(x: nat, y: nat)
    requires y >= 1
    ensures x <= x * y
  {
  }

  /** Reading a numeral from its start is having read its value. */
  lemma {:induction false} ReadNumeral(s: string, i: nat, base: nat, ds: string)
    requires 2 <= base && At(s, i, ds) && Numeral(ds, base) && ValueOf(ds, base) < 0x8000_0000
    ensures ReadDigits(s, i, base, 0) == ReadDigits(s, i + |ds|, base, ValueOf(ds, base))
    decreases |ds|
  {
    if ds != [] {
      var front, c := ds[..|ds| - 1], ds[|ds| - 1];
      assert front + [c] == ds;
      AtFront(s, i, front, c);
      GrowsWithDigits(ds, base);
      ReadNumeral(s, i, base, front);
      DigitNat(c);
    }
  }

  datatype Sign = NoSign | Plus | Minus

  function SignText(g: Sign): string {
    match g case NoSign => "" case Plus => "+" case Minus => "-"
  }

  function Signed(g: Sign, v: int): int {
    if g == Minus then -v else v
  }

  datatype Form = Bare | Zero | ZeroX

  function FormText(f: Form): string {
    match f case Bare => "" case Zero => "0" case ZeroX => "0x"
  }

  /** How the base is found, with the digits to start at s[t]: "0x" for 16, "0" for 8
      and neither for 10, if the base is left open; "0x" is also allowed in base 16. */
  predicate Introduces(f: Form, s: string, t: nat, base: int, b: nat) {
    match f
    case ZeroX => (base == 0 || base == 16) && b == 16
    case Zero => base == 0 && b == 8 && CharAt(s, t) != 'x'
    case Bare =>
      || (base == 0 && b == 10 && CharAt(s, t) != '0')
      || (base == b != 0 && !(b == 16 && CharAt(s, t) == '0' && CharAt(s, t + 1) == 'x'))
  }

  predicate Blanks(s: string, k: nat, i: nat) {
    k <= i <= |s| && forall n :: k <= n < i ==> s[n] == ' ' || s[n] == '\t'
  }

  lemma {:induction false} SkipsAll(s: string, k: nat, i: nat)
    requires Blanks(s, k, i) && CharAt(s, i) != ' ' && CharAt(s, i) != '\t'
    ensures SkipBlanks(s, k) == i
    decreases i - k
  {
    if k < i {
      SkipsAll(s, k + 1, i);
    }
  }

  lemma {:induction false} FirstDigit(ds: string, b: nat)
    requires Numeral(ds, b) && ds != []
    ensures DigitIn(ds[0], b)
    decreases |ds|
  {
    if |ds| > 1 {
      FirstDigit(ds[..|ds| - 1], b);
    }
  }

  /** The characters of s from i on are text. */
  predicate Spells(s: string, i: nat, text: string) {
    i + |text| <= |s| && forall k :: 0 <= k < |text| ==> s[i + k] == text[k]
  }

  lemma SpeltChar(s: string, i: nat, text: string, k: nat)
    requires Spells(s, i, text) && k < |text|
    ensures i + k < |s| && s[i + k] == text[k]
  {
  }

  lemma PrefixFound(s: string, j: nat, f: Form, base: int, b: nat)
    requires Spells(s, j, FormText(f)) && Introduces(f, s, j + |FormText(f)|, base, b)
    ensures Prefix(s, j, base) == (b, j + |FormText(f)|)
  {
    if f != Bare {
      SpeltChar(s, j, FormText(f), 0);
    }
    if f == ZeroX {
      SpeltChar(s, j, "0x", 1);
    }
  }

  /** Where the sign ends there is no blank and no other sign. */
  lemma NumberStart(s: string, j: nat, f: Form, ds: string, b: nat)
    requires Spells(s, j, FormText(f)) && Spells(s, j + |FormText(f)|, ds) && Numeral(ds, b) && (f == Bare ==> ds != "")
    ensures DigitValue(CharAt(s, j)).Some?
  {
    if f == Bare {
      FirstDigit(ds, b);
      SpeltChar(s, j, ds, 0);
    } else {
      SpeltChar(s, j, FormText(f), 0);
    }
  }

  /** The blanks end at i, and the sign there is g. */
  predicate SignRead(s: string, i: nat, g: Sign) {
    i == SkipBlanks(s, 0) && (CharAt(s, i) == '+' <==> g == Plus) && (CharAt(s, i) == '-' <==> g == Minus)
  }

  lemma SignFound(s: string, i: nat, g: Sign)
    requires Blanks(s, 0, i) && Spells(s, i, SignText(g)) && DigitValue(CharAt(s, i + |SignText(g)|)).Some?
    ensures SignRead(s, i, g)
  {
    if g != NoSign {
      SpeltChar(s, i, SignText(g), 0);
    }
    SkipsAll(s, 0, i);
  }

  /** The digits and their end. */
  lemma NumeralFound(s: string, t: nat, ds: string, b: nat)
    requires Spells(s, t, ds) && 2 <= b && Numeral(ds, b) && ValueOf(ds, b) < 0x8000_0000
    requires !DigitIn(CharAt(s, t + |ds|), b)
    ensures ReadDigits(s, t, b, 0) == (ValueOf(ds, b), t + |ds|)
  {
    assert At(s, t, ds) by {
      assert s[t..t + |ds|] == ds;
    }
    ReadNumeral(s, t, b, ds);
  }

  lemma ParsedParts(s: string, base: int, i: nat, g: Sign, t: nat, b: nat, v: nat, e: nat)
    requires SignRead(s, i, g) && i + |SignText(g)| <= |s| && t <= |s|
    requires Prefix(s, i + |SignText(g)|, base) == (b, t) && ReadDigits(s, t, b, 0) == (v, e) && v < 0x8000_0000
    ensures Parsed(s, base) == (Signed(g, v), e)
  {
  }

  /** A numeral ds after blanks, a sign and a prefix, up to a character that is no digit
      of its base: its value, negated by a minus sign, and the index where it ends. */
  lemma StrtolReads(s: string, i: nat, g: Sign, j: nat, f: Form, t: nat, ds: string, base: int, b: nat)
    requires Blanks(s, 0, i)
    requires Spells(s, i, SignText(g)) && j == i + |SignText(g)|
    requires Spells(s, j, FormText(f)) && t == j + |FormText(f)| && Introduces(f, s, t, base, b)
    requires Spells(s, t, ds) && 2 <= b && Numeral(ds, b) && ValueOf(ds, b) < 0x8000_0000 && (f == Bare ==> ds != "")
    requires !DigitIn(CharAt(s, t + |ds|), b)
    ensures Parsed(s, base) == (Signed(g, ValueOf(ds, b)), t + |ds|)
  {
    NumberStart(s, j, f, ds, b);
    SignFound(s, i, g);
    PrefixFound(s, j, f, base, b);
    NumeralFound(s, t, ds, b);
    ParsedParts(s, base, i, g, t, b, ValueOf(ds, b), t + |ds|);
  }

  /** All of s is read, as v. */
  predicate ReadsAs(s: string, base: int, v: int) {
    Parsed(s, base) == (v, |s|)
  }

  lemma ThreeParts(s: string, a: string, m: string, c: string)
    requires s == a + m + c
    ensures Spells(s, 0, a) && Spells(s, |a|, m) && Spells(s, |a| + |m|, c) && |s| == |a| + |m| + |c|
  {
  }

  /** A numeral that is the end of s. */
  lemma WholeReads(s: string, g: Sign, j: nat, f: Form, t: nat, ds: string, base: int, b: nat)
    requires Spells(s, 0, SignText(g)) && j == |SignText(g)|
    requires Spells(s, j, FormText(f)) && t == j + |FormText(f)| && Introduces(f, s, t, base, b)
    requires Spells(s, t, ds) && 2 <= b && Numeral(ds, b) && ValueOf(ds, b) < 0x8000_0000 && ds != ""
    requires |s| == t + |ds|
    ensures ReadsAs(s, base, Signed(g, ValueOf(ds, b)))
  {
    StrtolReads(s, 0, g, j, f, t, ds, base, b);
  }

  /** A number written in base b is read back. */
  lemma NumberReads(g: Sign, f: Form, num: nat, base: int, b: nat, s: string)
    requires num < 0x8000_0000 && 2 <= b <= 16 && s == SignText(g) + FormText(f) + Digits(num, b)
    requires Introduces(f, s, |SignText(g)| + |FormText(f)|, base, b)
    ensures ReadsAs(s, base, Signed(g, num))
  {
    var ds := Digits(num, b);
    DigitsDenote(num, b);
    ThreeParts(s, SignText(g), FormText(f), ds);
    WholeReads(s, g, |SignText(g)|, f, |SignText(g)| + |FormText(f)|, ds, base, b);
  }

  /** So a number written in hexadecimal, octal or decimal, with a sign or without, is
      read back when the base is left open, as the monitor leaves it. */
  lemma OpenBaseReadsBack(num: nat, g: Sign, hex: string, oct: string, dec: string)
    requires num < 0x8000_0000
    requires hex == SignText(g) + "0x" + Digits(num, 16) && oct == SignText(g) + "0" + Digits(num, 8)
    requires dec == SignText(g) + Digits(num, 10)
    ensures ReadsAs(hex, 0, Signed(g, num)) && ReadsAs(hex, 16, Signed(g, num))
    ensures ReadsAs(oct, 0, Signed(g, num)) && ReadsAs(dec, 0, Signed(g, num))
  {
    NumberReads(g, ZeroX, num, 0, 16, hex);
    NumberReads(g, ZeroX, num, 16, 16, hex);
    OctalReads(num, g, oct);
    DecimalReads(num, g, dec);
  }

  lemma OctalReads(num: nat, g: Sign, s: string)
    requires num < 0x8000_0000 && s == SignText(g) + "0" + Digits(num, 8)
    ensures ReadsAs(s, 0, Signed(g, num))
  {
    ThreeParts(s, SignText(g), "0", Digits(num, 8));
    DigitsPlain(num, 8);
    assert Plain(Digits(num, 8)[0]);
    SpeltChar(s, |SignText(g)| + 1, Digits(num, 8), 0);
    NumberReads(g, Zero, num, 0, 8, s);
  }

  /** The prefix of a decimal 0 is all of it. */
  lemma ZeroReads(g: Sign, s: string)
    requires Spells(s, 0, SignText(g)) && Spells(s, |SignText(g)|, "0") && |s| == |SignText(g)| + 1
    ensures ReadsAs(s, 0, 0)
  {
    StrtolReads(s, 0, g, |SignText(g)|, Zero, |s|, "", 0, 8);
  }

  lemma PlainReads(num: nat, g: Sign, s: string)
    requires 0 < num < 0x8000_0000 && s == SignText(g) + "" + Digits(num, 10)
    ensures ReadsAs(s, 0, Signed(g, num))
  {
    ThreeParts(s, SignText(g), "", Digits(num, 10));
    LeadingDigit(num, 10);
    SpeltChar(s, |SignText(g)|, Digits(num, 10), 0);
    NumberReads(g, Bare, num, 0, 10, s);
  }

  lemma DecimalReads(num: nat, g: Sign, s: string)
    requires num < 0x8000_0000 && s == SignText(g) + Digits(num, 10)
    ensures ReadsAs(s, 0, Signed(g, num))
  {
    assert s == SignText(g) + "" + Digits(num, 10);
    if num == 0 {
      ThreeParts(s, SignText(g), "", Digits(num, 10));
      assert Digits(0, 10) == "0";
      ZeroReads(g, s);
    } else {
      PlainReads(num, g, s);
    }
  }

  lemma {:induction false} LeadingDigit(num: nat, base: nat)
    requires 2 <= base <= 16 && num > 0
    ensures Digits(num, base)[0] != '0'
    decreases num
  {
    DigitsSplit(num, base);
    if num >= base {
      DigitsNext(num, base);
      LeadingDigit(num / base, base);
    }
  }
}

/** Numbers as digits: how they are printed, and how the digits read. */
module NumberTexts {

  const UINT64: nat := 0x1_0000_0000_0000_0000

  datatype Hex = No | Lower | Upper

  function Base(hex: Hex): nat {
    if hex.No? then 10 else 16
  }

  function Power(base: nat, n: nat): nat {
    if n == 0 then 1 else base * Power(base, n - 1)
  }

  /** The character of a digit. */
  function DigitChar(hex: Hex, digit: nat): char
    requires digit < Base(hex)
  {
    match hex
    case No => '0' + digit as char
    case Lower => "0123456789abcdef"[digit]
    case Upper => "0123456789ABCDEF"[digit]
  }

  /** What a character is worth as a digit, in either case. */
  function DigitValue(c: char): nat {
    if '0' <= c <= '9' then c as nat - '0' as nat
    else if 'a' <= c <= 'f' then c as nat - 'a' as nat + 10
    else if 'A' <= c <= 'F' then c as nat - 'A' as nat + 10
    else 0
  }

  lemma DigitReads(hex: Hex, digit: nat)
    requires digit < Base(hex)
    ensures DigitValue(DigitChar(hex, digit)) == digit
    ensures DigitChar(hex, digit) != ' ' && (DigitChar(hex, digit) == '0' <==> digit == 0)
  {
  }

  /** The digits of a number. */
  function Digits(v: nat, hex: Hex): (r: string)
    ensures |r| > 0
    decreases v
  {
    (if v < Base(hex) then [] else Digits(v / Base(hex), hex)) + [DigitChar(hex, v % Base(hex))]
  }

  /** What digits read as. */
  function Value(s: string, base: nat): nat {
    if s == [] then 0 else Value(s[..|s| - 1], base) * base + DigitValue(s[|s| - 1])
  }

  lemma ValueSnoc(s: string, c: char, base: nat)
    ensures Value(s + [c], base) == Value(s, base) * base + DigitValue(c)
  {
    assert (s + [c])[..|s|] == s;
  }

  /** The digits of a number read as that number. */
  lemma {:induction false} DigitsRead(v: nat, hex: Hex)
    ensures Value(Digits(v, hex), Base(hex)) == v
    decreases v
  {
    var b := Base(hex);
    DigitReads(hex, v % b);
    var front := if v < b then [] else Digits(v / b, hex);
    if v >= b {
      DigitsRead(v / b, hex);
    }
    ValueSnoc(front, DigitChar(hex, v % b), b);
    Recombined(v, b);
  }

  lemma Recombined(v: nat, b: nat)
    requires b > 0
    ensures v / b * b + v % b == v
    ensures v < b ==> v / b == 0
  {
  }

  /** There is no superfluous zero among them, and no blank. */
  lemma {:induction false} DigitsClean(v: nat, hex: Hex)
    ensures Digits(v, hex)[0] == '0' <==> v == 0
    ensures forall i | 0 <= i < |Digits(v, hex)| :: Digits(v, hex)[i] != ' '
    decreases v
  {
    DigitReads(hex, v % Base(hex));
    if v >= Base(hex) {
      DigitsClean(v / Base(hex), hex);
    }
  }

  /** A number has as many digits as its size asks for, and no more. */
  lemma {:induction false} DigitsLength(v: nat, hex: Hex, n: nat)
    requires n > 0
    ensures |Digits(v, hex)| <= n <==> v < Power(Base(hex), n)
    decreases n
  {
    var b := Base(hex);
    if n > 1 && v >= b {
      DigitsLength(v / b, hex, n - 1);
      DivBelow(v, b, Power(b, n - 1));
    } else if n == 1 {
      assert Power(b, 1) == b * Power(b, 0);
    } else {
      PowerPositive(b, n - 1);
      assert b * Power(b, n - 1) >= b;
    }
  }

  lemma DivBelow(v: nat, b: nat, p: nat)
    requires b > 0
    ensures v / b < p <==> v < b * p
  {
    if v / b < p {
      assert b * (v / b + 1) <= b * p;
    } else {
      assert b * (v / b) >= b * p;
    }
  }

  lemma {:induction false} PowerPositive(b: nat, n: nat)
    requires b > 0
    ensures Power(b, n) > 0
  {
    if n > 0 {
      PowerPositive(b, n - 1);
      assert b * Power(b, n - 1) >= 1;
    }
  }

  lemma {:induction false} PowerAdd(b: nat, m: nat, n: nat)
    ensures Power(b, m + n) == Power(b, m) * Power(b, n)
    decreases m
  {
    if m > 0 {
      PowerAdd(b, m - 1, n);
      Product(b, Power(b, m - 1), Power(b, n));
    }
  }

  lemma Product(a: nat, b: nat, c: nat)
    ensures a * (b * c) == a * b * c
  {
  }

  /** No 64-bit number has more digits than the scratch array holds. */
  lemma DigitsFit(v: nat, hex: Hex)
    requires v < UINT64
    ensures |Digits(v, hex)| <= if hex.No? then 20 else 16
  {
    PowerAdd(10, 5, 5);
    PowerAdd(10, 10, 10);
    PowerAdd(16, 4, 4);
    PowerAdd(16, 8, 8);
    DigitsLength(v, hex, if hex.No? then 20 else 16);
  }

  // ----- padding -----

  function Repeat(c: char, n: int): string {
    if n <= 0 then "" else seq(n, _ => c)
  }

  /** A number, with padding in front of it up to some width. */
  function Padded(v: nat, hex: Hex, padding: char, width: nat): string {
    Repeat(padding, width - |Digits(v, hex)|) + Digits(v, hex)
  }

  /** What is left without the padding in front. */
  function Stripped(s: string, padding: char): string {
    if s != [] && s[0] == padding then Stripped(s[1..], padding) else s
  }

  lemma {:induction false} StripRepeat(padding: char, n: int, s: string)
    ensures Stripped(Repeat(padding, n) + s, padding) == Stripped(s, padding)
    decreases if n <= 0 then 0 else n
  {
    if n > 0 {
      StripRepeat(padding, n - 1, s);
      assert (Repeat(padding, n) + s)[1..] == Repeat(padding, n - 1) + s;
    } else {
      assert Repeat(padding, n) + s == s;
    }
  }

  /** The digits, without the zeros or blanks in front of them, still read the same. */
  lemma StripDigits(v: nat, hex: Hex, padding: char)
    requires padding == ' ' || padding == '0'
    ensures Value(Stripped(Digits(v, hex), padding), Base(hex)) == v
  {
    DigitsRead(v, hex);
    DigitsClean(v, hex);
    if Digits(v, hex)[0] == padding {
      assert Digits(v, hex) == [DigitChar(hex, 0)];
    }
  }

  /** A padded number reads, without its padding, as the number; and it is as long as the
      width asks for, or as the number needs. */
  lemma PaddedReads(v: nat, hex: Hex, padding: char, width: nat)
    requires padding == ' ' || padding == '0'
    ensures Value(Stripped(Padded(v, hex, padding, width), padding), Base(hex)) == v
    ensures |Padded(v, hex, padding, width)| == if width <= |Digits(v, hex)| then |Digits(v, hex)| else width
  {
    StripDigits(v, hex, padding);
    StripRepeat(padding, width - |Digits(v, hex)|, Digits(v, hex));
  }

  // ----- fixed point -----

  function Abs(x: real): real {
    if x < 0.0 then -x else x
  }

  /** The integer part of x, and what is left in units of 1/p, rounded to the nearest. */
  function Split(x: real, p: nat): (int, int)
    requires x >= 0.0
  {
    var whole := x.Floor;
    var frac := ((x - whole as real) * p as real + 0.5).Floor;
    if frac == p then (whole + 1, 0) else (whole, frac)
  }

  /** The integer part of x and the w digits after the point. */
  function Fixed(x: real, w: nat): (int, int)
    requires x >= 0.0
  {
    Split(x, Power(10, w))
  }

  lemma SplitRounds(x: real, p: nat)
    requires x >= 0.0 && p > 0
    ensures var (whole, frac) := Split(x, p);
            && 0 <= frac < p && 0 <= whole <= x.Floor + 1
            && whole * p + frac == (x * p as real + 0.5).Floor
            && (x == x.Floor as real ==> whole == x.Floor)
  {
    var part := x - x.Floor as real;
    Scaled(part, p);
    Distribute(x, x.Floor, p);
    FloorShift(part * p as real + 0.5, x.Floor * p);
  }

  /** Both parts of a 64-bit number fit 64 bits, and so does what is rounded. */
  lemma SplitFits(x: real, p: nat)
    requires 0.0 <= x <= (UINT64 - 1) as real && 0 < p < UINT64
    ensures 0 <= Split(x, p).0 < UINT64 && 0 <= Split(x, p).1 < UINT64
    ensures 0 <= ((x - x.Floor as real) * p as real + 0.5).Floor
  {
    Scaled(x - x.Floor as real, p);
  }

  /** Together they are x, rounded to w digits after the point. */
  lemma FixedRounds(x: real, w: nat)
    requires x >= 0.0
    ensures var (whole, frac) := Fixed(x, w);
            && 0 <= frac < Power(10, w) && 0 <= whole <= x.Floor + 1
            && whole * Power(10, w) + frac == (x * Power(10, w) as real + 0.5).Floor
            && (x == x.Floor as real ==> whole == x.Floor)
  {
    hide Split, Power;
    PowerPositive(10, w);
    SplitRounds(x, Power(10, w));
  }

  lemma Scaled(part: real, p: nat)
    requires 0.0 <= part < 1.0 && p > 0
    ensures 0 <= (part * p as real + 0.5).Floor <= p
    ensures part == 0.0 ==> (part * p as real + 0.5).Floor == 0
  {
    assert 0.0 <= part * p as real <= p as real;
  }

  lemma Distribute(x: real, whole: int, p: nat)
    ensures x * p as real == (whole * p) as real + (x - whole as real) * p as real
  {
    assert (whole * p) as real == whole as real * p as real;
  }

  lemma FloorShift(y: real, n: int)
    ensures (n as real + y).Floor == n + y.Floor
  {
  }

  /** The decimal that is printed is within half a unit of its last digit. */
  lemma FixedClose(x: real, w: nat)
    requires x >= 0.0
    ensures var (whole, frac) := Fixed(x, w);
            var printed := (whole * Power(10, w) + frac) as real;
            -0.5 <= x * Power(10, w) as real - printed <= 0.5
  {
    FixedRounds(x, w);
  }
}

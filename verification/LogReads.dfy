/** What the logger prints, read back: the text of every conversion is told from its
    argument alone, and the argument from the text. */
module LogReads {
  import opened NumberTexts
  import opened LogFormats
  import opened LogOutputs

  // ----- numbers -----

  predicate DigitOf(c: char, hex: Hex) {
    '0' <= c <= '9' || (hex.Lower? && 'a' <= c <= 'f') || (hex.Upper? && 'A' <= c <= 'F')
  }

  /** The digits are those of v: of the right case, without a superfluous zero. */
  ghost predicate DigitsFor(d: string, v: nat, hex: Hex) {
    && d != [] && (|d| > 1 ==> d[0] != '0')
    && (forall i | 0 <= i < |d| :: DigitOf(d[i], hex))
    && Value(d, Base(hex)) == v
  }

  /** After k characters of padding come the digits of v; there is padding only up to the
      width. */
  ghost predicate PrintsFrom(s: string, k: nat, v: nat, hex: Hex, padding: char, width: nat) {
    && k <= |s| && DigitsFor(s[k..], v, hex)
    && (forall i | 0 <= i < k :: s[i] == padding)
    && |s| >= width && (k > 0 ==> |s| == width)
  }

  ghost predicate PrintsNumber(s: string, v: nat, hex: Hex, padding: char, width: nat) {
    exists k :: PrintsFrom(s, k, v, hex, padding, width)
  }

  ghost predicate PrintsSigned(s: string, v: int, hex: Hex, padding: char, width: nat) {
    if v < 0 then s != [] && s[0] == '-' && PrintsNumber(s[1..], -v, hex, padding, width)
    else PrintsNumber(s, v, hex, padding, width)
  }

  /** The text is made of a sign, a whole part, a point, and exactly w digits, or one if w
      is 0; and these are the numbers n and m. */
  ghost predicate PrintsParts(s: string, negative: bool, whole: string, frac: string, n: nat, m: nat,
                              w: nat, hex: Hex, padding: char, width: nat) {
    && s == (if negative then "-" else "") + whole + "." + frac
    && PrintsNumber(whole, n, hex, padding, width)
    && PrintsNumber(frac, m, No, '0', w) && |frac| == (if w == 0 then 1 else w)
  }

  predicate Negative(x: real) {
    x < 0.0
  }

  /** Together they are x, rounded to w digits after the point. */
  ghost predicate PrintsFixed(s: string, x: real, w: nat, hex: Hex, padding: char, width: nat) {
    exists whole: string, frac: string, n: nat, m: nat ::
      && PrintsParts(s, Negative(x), whole, frac, n, m, w, hex, padding, width)
      && n * Power(10, w) + m == (Abs(x) * Power(10, w) as real + 0.5).Floor
  }

  lemma DigitCase(hex: Hex, digit: nat)
    requires digit < Base(hex)
    ensures DigitOf(DigitChar(hex, digit), hex)
  {
  }

  /** What the characters are worth as digits. */
  lemma DigitValues(i: nat)
    requires i < 16
    ensures DigitValue("0123456789abcdef"[i]) == i == DigitValue("0123456789ABCDEF"[i])
  {
  }

  lemma {:induction false} DigitsCase(v: nat, hex: Hex)
    ensures forall i | 0 <= i < |Digits(v, hex)| :: DigitOf(Digits(v, hex)[i], hex)
    decreases v
  {
    DigitCase(hex, v % Base(hex));
    if v >= Base(hex) {
      DigitsCase(v / Base(hex), hex);
    }
  }

  lemma DigitsAre(v: nat, hex: Hex)
    ensures DigitsFor(Digits(v, hex), v, hex)
  {
    DigitsRead(v, hex);
    DigitsClean(v, hex);
    DigitsCase(v, hex);
    if v == 0 {
      assert |Digits(v, hex)| == 1;
    }
  }

  lemma PaddedPrints(v: nat, hex: Hex, padding: char, width: nat)
    ensures PrintsNumber(Padded(v, hex, padding, width), v, hex, padding, width)
  {
    hide Digits, DigitsFor;
    var s, d := Padded(v, hex, padding, width), Digits(v, hex);
    var k: nat := |s| - |d|;
    DigitsAre(v, hex);
    assert s[k..] == d;
    assert PrintsFrom(s, k, v, hex, padding, width);
  }

  lemma SignedPrints(v: int, hex: Hex, padding: char, width: nat)
    ensures PrintsSigned(SignedText(v, hex, padding, width), v, hex, padding, width)
  {
    var n: nat := if v < 0 then -v else v;
    PaddedPrints(n, hex, padding, width);
    if v < 0 {
      assert SignedText(v, hex, padding, width)[1..] == Padded(n, hex, padding, width);
    }
  }

  lemma FixedPrints(x: real, w: nat, hex: Hex, padding: char, width: nat)
    ensures PrintsFixed(FixedText(x, w, hex, padding, width), x, w, hex, padding, width)
  {
    hide PrintsParts, Split, Padded, Power;
    FixedRounds(Abs(x), w);
    var (n, m) := Fixed(Abs(x), w);
    PartsPrint(Negative(x), n, m, w, hex, padding, width);
    var whole, frac := Padded(n, hex, padding, width), Padded(m, No, '0', w);
    assert PrintsParts(FixedText(x, w, hex, padding, width), Negative(x), whole, frac, n, m, w, hex, padding, width);
  }

  lemma PartsPrint(negative: bool, n: nat, m: nat, w: nat, hex: Hex, padding: char, width: nat)
    requires m < Power(10, w)
    ensures var whole, frac := Padded(n, hex, padding, width), Padded(m, No, '0', w);
            PrintsParts((if negative then "-" else "") + whole + "." + frac,
                        negative, whole, frac, n, m, w, hex, padding, width)
  {
    hide PrintsNumber, Padded;
    PaddedPrints(n, hex, padding, width);
    PaddedPrints(m, No, '0', w);
    FracReads(m, w);
  }

  // ----- flags -----

  predicate IsHexFlag(flag: Flag) {
    flag.LowerHex? || flag.UpperHex?
  }

  /** What the flags print, in order. */
  function Prefixes(flags: seq<Flag>): string {
    if flags == [] then ""
    else (if flags[0].LowerHex? then "0x" else if flags[0].UpperHex? then "0X" else "") + Prefixes(flags[1..])
  }

  lemma {:induction false} PrefixesSnoc(flags: seq<Flag>, flag: Flag)
    ensures Prefixes(flags + [flag])
         == Prefixes(flags) + if flag.LowerHex? then "0x" else if flag.UpperHex? then "0X" else ""
    decreases |flags|
  {
    if flags == [] {
      assert [flag][1..] == [];
    } else {
      assert (flags + [flag])[1..] == flags[1..] + [flag];
      PrefixesSnoc(flags[1..], flag);
    }
  }

  /** The last of x and X says which digits a number has. */
  ghost predicate HexFrom(flags: seq<Flag>, hex: Hex) {
    && (hex.No? <==> forall i | 0 <= i < |flags| :: !IsHexFlag(flags[i]))
    && forall i | 0 <= i < |flags| && IsHexFlag(flags[i]) && (forall j | i < j < |flags| :: !IsHexFlag(flags[j])) ::
         hex == if flags[i].LowerHex? then Lower else Upper
  }

  /** The last .n says how many digits come after the point, up to 8 bits; without any there
      are 6. */
  ghost predicate FractionFrom(flags: seq<Flag>, fracWidth: nat) {
    && ((forall i | 0 <= i < |flags| :: !flags[i].Fraction?) ==> fracWidth == 6)
    && forall i | 0 <= i < |flags| && flags[i].Fraction? && (forall j | i < j < |flags| :: !flags[j].Fraction?) ::
         fracWidth == Value(flags[i].digits, 10) % 256
  }

  lemma HexStep(flags: seq<Flag>, hex: Hex, flag: Flag)
    requires HexFrom(flags, hex)
    ensures HexFrom(flags + [flag], if flag.LowerHex? then Lower else if flag.UpperHex? then Upper else hex)
  {
    var more := flags + [flag];
    assert more[|flags|] == flag;
    if !IsHexFlag(flag) {
      forall i | 0 <= i < |more| && IsHexFlag(more[i]) && forall j | i < j < |more| :: !IsHexFlag(more[j])
        ensures hex == if more[i].LowerHex? then Lower else Upper
      {
        assert forall j | i < j < |flags| :: more[j] == flags[j];
        assert flags[i] == more[i];
      }
      if hex.No? {
        assert forall i | 0 <= i < |more| :: !IsHexFlag(more[i]);
      } else {
        var i :| 0 <= i < |flags| && IsHexFlag(flags[i]);
        assert IsHexFlag(more[i]);
      }
    }
  }

  lemma FractionStep(flags: seq<Flag>, fracWidth: nat, flag: Flag)
    requires FractionFrom(flags, fracWidth)
    ensures FractionFrom(flags + [flag], if flag.Fraction? then Value(flag.digits, 10) % 256 else fracWidth)
  {
    hide Value;
    var more := flags + [flag];
    assert more[|flags|] == flag;
    if !flag.Fraction? {
      forall i | 0 <= i < |more| && more[i].Fraction? && forall j | i < j < |more| :: !more[j].Fraction?
        ensures fracWidth == Value(more[i].digits, 10) % 256
      {
        assert forall j | i < j < |flags| :: more[j] == flags[j];
        assert flags[i] == more[i];
      }
      if forall i | 0 <= i < |more| :: !more[i].Fraction? {
        assert forall i | 0 <= i < |flags| :: flags[i] == more[i];
      }
    }
  }

  /** u, x and X make a number unsigned, and x and X print their prefixes. */
  lemma {:induction false} FlagsMean(flags: seq<Flag>)
    ensures var s := Settled(flags);
            && (s.sign <==> forall i | 0 <= i < |flags| :: flags[i].Fraction?)
            && HexFrom(flags, s.hex) && FractionFrom(flags, s.fracWidth)
            && s.prefix == Prefixes(flags)
    decreases |flags|
  {
    hide Value, HexFrom, FractionFrom, Prefixes;
    if flags == [] {
      NoFlags();
    } else {
      var n := |flags| - 1;
      FlagsMean(flags[..n]);
      assert flags == flags[..n] + [flags[n]];
      PrefixesSnoc(flags[..n], flags[n]);
      HexStep(flags[..n], Settled(flags[..n]).hex, flags[n]);
      FractionStep(flags[..n], Settled(flags[..n]).fracWidth, flags[n]);
    }
  }

  lemma NoFlags()
    ensures HexFrom([], No) && FractionFrom([], 6) && Prefixes([]) == ""
  {
  }

  // ----- conversions -----

  /** What the text of a conversion, after its prefixes, is for its argument. */
  ghost predicate Prints(item: Item, arg: Arg, s: string)
    requires TakesArg(item) && Accepts(item, arg)
  {
    var flags := Settled(item.flags);
    var padding := if item.digits != [] && item.digits[0] == '0' then '0' else ' ';
    var width := Value(item.digits, 10) % 256;
    match item.c
    case 'b' => s == if arg.value != 0 then "true" else "false"
    case 'c' => |s| == 1 && 0 <= s[0] as int < 256 && (s[0] as int - arg.value) % 256 == 0
    case 'f' => PrintsFixed(s, arg.number, flags.fracWidth, flags.hex, padding, width)
    case 'p' => |s| == 16 && (forall i | 0 <= i < 16 :: DigitOf(s[i], Upper)) && Value(s, 16) == arg.value
    case 's' => s == arg.text
    case _ => PrintsSigned(s, arg.value, flags.hex, padding, width)
  }

  lemma {:induction false} ZerosRead(n: nat, s: string, base: nat)
    ensures Value(Repeat('0', n) + s, base) == Value(s, base)
    decreases |s|, n
  {
    if s != [] {
      var m := |s| - 1;
      ZerosRead(n, s[..m], base);
      assert (Repeat('0', n) + s)[..n + m] == Repeat('0', n) + s[..m];
    } else if n > 0 {
      ZerosRead(n - 1, [], base);
      assert (Repeat('0', n) + [])[..n - 1] == Repeat('0', n - 1) + [];
    }
  }

  lemma PointerPrints(v: nat)
    requires v <= UINT64_MAX
    ensures var s := Padded(v, Upper, '0', POINTER_WIDTH);
            |s| == 16 && (forall i | 0 <= i < 16 :: DigitOf(s[i], Upper)) && Value(s, 16) == v
  {
    hide Value, Digits;
    DigitsFit(v, Upper);
    DigitsAre(v, Upper);
    ZerosDigits(Digits(v, Upper), 16);
    ZerosRead(16 - |Digits(v, Upper)|, Digits(v, Upper), 16);
  }

  lemma ZerosDigits(d: string, width: nat)
    requires |d| <= width && forall i | 0 <= i < |d| :: DigitOf(d[i], Upper)
    ensures var s := Repeat('0', width - |d|) + d;
            |s| == width && forall i | 0 <= i < width :: DigitOf(s[i], Upper)
  {
  }

  lemma CorePrints(item: Item, arg: Arg)
    requires TakesArg(item) && Accepts(item, arg)
    ensures Prints(item, arg, Core(item, [arg]))
  {
    hide PrintsFixed, PrintsSigned, FixedText, SignedText, Padded, Settled, Value;
    var flags := Settled(item.flags);
    var padding, width := Padding(item.digits), Width(item.digits);
    match item.c {
      case 'f' => FixedPrints(arg.number, flags.fracWidth, flags.hex, padding, width);
      case 'p' => PointerPrints(arg.value);
      case 'd' => SignedPrints(arg.value, flags.hex, padding, width);
      case 'l' => SignedPrints(arg.value, flags.hex, padding, width);
      case _ =>
    }
  }

  /** The output of one conversion: its prefixes, and the text that belongs to the argument. */
  lemma ConversionPrints(item: Item, arg: Arg)
    requires TakesArg(item) && Accepts(item, arg)
    ensures AcceptsAll([item], [arg])
    ensures exists s :: Output([item], [arg]) == Prefixes(item.flags) + s && Prints(item, arg, s)
  {
    hide Prints, Settled, Prefixes, Core;
    CorePrints(item, arg);
    FlagsMean(item.flags);
    OutputOne(item, [arg]);
  }

  lemma OutputOne(item: Item, args: seq<Arg>)
    requires TakesArg(item) ==> args != [] && Accepts(item, args[0])
    ensures AcceptsAll([item], args) && Output([item], args) == Rendered(item, args)
  {
    hide Rendered, Accepts;
    assert [item][1..] == [];
  }

  /** A character prints itself; so does a conversion character that is not one of b, c, d,
      f, l, p and s, after the prefixes. */
  lemma OthersPrint(c: char, digits: string, flags: seq<Flag>)
    ensures AcceptsAll([Literal(c)], []) && Output([Literal(c)], []) == [c]
    ensures c !in "bcdflps" ==>
              var item := Conversion(digits, flags, c);
              AcceptsAll([item], []) && Output([item], []) == Prefixes(flags) + [c]
  {
    OutputOne(Literal(c), []);
    if c !in "bcdflps" {
      FlagsMean(flags);
      OutputOne(Conversion(digits, flags, c), []);
    }
  }

  /** How many arguments some items take. */
  function Taken(items: seq<Item>): nat {
    if items == [] then 0 else (if TakesArg(items[0]) then 1 else 0) + Taken(items[1..])
  }

  /** The output of several items is that of the first ones, and then that of the others for
      the arguments that are left. */
  lemma {:induction false} OutputBoth(a: seq<Item>, b: seq<Item>, args: seq<Arg>)
    requires AcceptsAll(a, args) && Taken(a) <= |args| && AcceptsAll(b, args[Taken(a)..])
    ensures AcceptsAll(a + b, args)
    ensures Output(a + b, args) == Output(a, args) + Output(b, args[Taken(a)..])
    decreases |a|
  {
    hide Rendered, Accepts;
    if a == [] {
      assert a + b == b && args[0..] == args;
    } else {
      var left := Left(a[0], args);
      assert (a + b)[1..] == a[1..] + b;
      assert left[Taken(a[1..])..] == args[Taken(a)..];
      OutputBoth(a[1..], b, left);
      Grouped(Rendered(a[0], args), Output(a[1..], left), Output(b, args[Taken(a)..]));
    }
  }

  lemma Grouped(s: string, t: string, u: string)
    ensures s + (t + u) == s + t + u
  {
  }
}

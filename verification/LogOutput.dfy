/** What the conversions of a format print. */
module LogOutputs {
  import opened NumberTexts
  import opened LogFormats

  const INT32_MAX: int := 0x7fff_ffff
  const UINT32_MAX: int := 0xffff_ffff
  const INT64_MAX: int := 0x7fff_ffff_ffff_ffff
  const UINT64_MAX: int := 0xffff_ffff_ffff_ffff

  const DEFAULT_FRACTION := 6
  const POINTER_WIDTH := 16

  /** With so many digits after the point, and no more, their number fits 64 bits. */
  const FRACTION_MAX := 19

  lemma PowerFits(w: nat)
    requires w <= FRACTION_MAX
    ensures Power(10, w) <= UINT64_MAX
    decreases FRACTION_MAX - w
  {
    if w == FRACTION_MAX {
      PowerAdd(10, 5, 5);
      PowerAdd(10, 10, 5);
      PowerAdd(10, 15, 4);
    } else {
      PowerFits(w + 1);
    }
  }

  // ----- the flags -----

  /** What the flags of a conversion amount to, and what they print at once. */
  datatype Setting = Setting(sign: bool, hex: Hex, fracWidth: nat, prefix: string)

  /** Widths are kept in 8 bits. */
  function Width(digits: string): (w: nat)
    ensures w < 256
  {
    Value(digits, 10) % 256
  }

  function WithFlag(s: Setting, flag: Flag): Setting {
    match flag
    case Unsigned => s.(sign := false)
    case LowerHex => s.(sign := false, hex := Lower, prefix := s.prefix + "0x")
    case UpperHex => s.(sign := false, hex := Upper, prefix := s.prefix + "0X")
    case Fraction(digits) => s.(fracWidth := Width(digits))
  }

  function Settled(flags: seq<Flag>): Setting {
    if flags == [] then Setting(true, No, DEFAULT_FRACTION, "")
    else WithFlag(Settled(flags[..|flags| - 1]), flags[|flags| - 1])
  }

  function Padding(digits: string): (c: char)
    ensures c == '0' || c == ' '
  {
    if digits != [] && digits[0] == '0' then '0' else ' '
  }

  // ----- the arguments -----

  predicate TakesArg(item: Item) {
    item.Conversion? && item.c in "bcdflps"
  }

  /** The argument is of the type that the conversion takes, and within its range. */
  predicate Accepts(item: Item, arg: Arg)
    requires TakesArg(item)
  {
    var setting := Settled(item.flags);
    match item.c
    case 'b' => arg.Int? && -INT32_MAX - 1 <= arg.value <= INT32_MAX
    case 'c' => arg.Int? && -INT32_MAX - 1 <= arg.value <= INT32_MAX
    case 'd' => arg.Int? && if setting.sign then -INT32_MAX - 1 <= arg.value <= INT32_MAX
        else 0 <= arg.value <= UINT32_MAX
    case 'l' => arg.Int? && if setting.sign then -INT64_MAX <= arg.value <= INT64_MAX else 0 <= arg.value <= UINT64_MAX
    case 'p' => arg.Int? && 0 <= arg.value <= UINT64_MAX
    case 'f' => arg.Real? && Abs(arg.number) <= UINT64_MAX as real && setting.fracWidth <= FRACTION_MAX
    case _ => arg.Text?
  }

  predicate AcceptsAll(items: seq<Item>, args: seq<Arg>)
    decreases |items|
  {
    items == [] ||
    if TakesArg(items[0]) then args != [] && Accepts(items[0], args[0]) && AcceptsAll(items[1..], args[1..])
    else AcceptsAll(items[1..], args)
  }

  // ----- the text -----

  /** A signed number: the padding comes after the sign. */
  function SignedText(v: int, hex: Hex, padding: char, width: nat): string {
    if v < 0 then "-" + Padded(-v, hex, padding, width) else Padded(v, hex, padding, width)
  }

  function FixedText(x: real, w: nat, hex: Hex, padding: char, width: nat): string {
    FixedRounds(Abs(x), w);
    var (whole, frac) := Fixed(Abs(x), w);
    (if x < 0.0 then "-" else "") + Padded(whole, hex, padding, width) + "." + Padded(frac, No, '0', w)
  }

  /** What a conversion prints for its argument, after what its flags print. */
  function Converted(item: Item, setting: Setting, arg: Arg): string
    requires TakesArg(item) && setting == Settled(item.flags) && Accepts(item, arg)
  {
    match item.c
    case 'b' => if arg.value == 0 then "false" else "true"
    case 'c' => [(arg.value % 256) as char]
    case 'f' => FixedText(arg.number, setting.fracWidth, setting.hex, Padding(item.digits), Width(item.digits))
    case 'p' => Padded(arg.value, Upper, '0', POINTER_WIDTH)
    case 's' => arg.text
    case _ => SignedText(arg.value, setting.hex, Padding(item.digits), Width(item.digits))
  }

  /** The text of one item, for the first of the arguments if it takes one. */
  function Rendered(item: Item, args: seq<Arg>): string
    requires TakesArg(item) ==> args != [] && Accepts(item, args[0])
  {
    if item.Literal? then [item.c]
    else
      Settled(item.flags).prefix + Core(item, args)
  }

  function Core(item: Item, args: seq<Arg>): string
    requires item.Conversion? && (TakesArg(item) ==> args != [] && Accepts(item, args[0]))
  {
    if TakesArg(item) then Converted(item, Settled(item.flags), args[0]) else [item.c]
  }

  /** What is left of the arguments after an item. */
  function Left(item: Item, args: seq<Arg>): seq<Arg>
    requires TakesArg(item) ==> args != []
  {
    if TakesArg(item) then args[1..] else args
  }

  function Output(items: seq<Item>, args: seq<Arg>): string
    requires AcceptsAll(items, args)
    decreases |items|
  {
    if items == [] then "" else Rendered(items[0], args) + Output(items[1..], Left(items[0], args))
  }

  // ----- what is printed can be read back -----

  function ReadSigned(s: string, base: nat, padding: char): int {
    if s != [] && s[0] == '-' then 0 - Value(Stripped(s[1..], padding), base) else Value(Stripped(s, padding), base)
  }

  lemma SignedReads(v: int, hex: Hex, padding: char, width: nat)
    requires padding == ' ' || padding == '0'
    ensures ReadSigned(SignedText(v, hex, padding, width), Base(hex), padding) == v
  {
    var n: nat := if v < 0 then -v else v;
    PaddedReads(n, hex, padding, width);
    if v < 0 {
      assert SignedText(v, hex, padding, width)[1..] == Padded(n, hex, padding, width);
    } else {
      NoSign(n, hex, padding, width);
    }
  }

  lemma NoSign(v: nat, hex: Hex, padding: char, width: nat)
    requires padding == ' ' || padding == '0'
    ensures Padded(v, hex, padding, width)[0] != '-'
  {
    DigitsPlain(v, hex);
  }

  lemma DigitsPlain(v: nat, hex: Hex)
    ensures Digits(v, hex)[0] != '-'
    decreases v
  {
    if v >= Base(hex) {
      DigitsPlain(v / Base(hex), hex);
    }
  }

  /** The text that %f prints before the point, and after it. */
  function Whole(x: real, w: nat, padding: char, width: nat): string {
    FixedRounds(Abs(x), w);
    Padded(Fixed(Abs(x), w).0, No, padding, width)
  }

  function Frac(x: real, w: nat): string {
    FixedRounds(Abs(x), w);
    Padded(Fixed(Abs(x), w).1, No, '0', w)
  }

  /** They read as the number rounded to w digits after the point; and there are exactly w
      digits after it, or one if w is 0. */
  lemma FixedReads(x: real, w: nat, padding: char, width: nat)
    requires padding == ' ' || padding == '0'
    ensures FixedText(x, w, No, padding, width)
            == (if x < 0.0 then "-" else "") + Whole(x, w, padding, width) + "." + Frac(x, w)
    ensures Value(Stripped(Whole(x, w, padding, width), padding), 10) * Power(10, w)
            + Value(Stripped(Frac(x, w), '0'), 10)
         == (Abs(x) * Power(10, w) as real + 0.5).Floor
    ensures |Frac(x, w)| == if w == 0 then 1 else w
  {
    FixedRounds(Abs(x), w);
    var (n, m) := Fixed(Abs(x), w);
    PaddedReads(n, No, padding, width);
    FracReads(m, w);
  }

  lemma FracReads(m: nat, w: nat)
    requires m < Power(10, w)
    ensures Value(Stripped(Padded(m, No, '0', w), '0'), 10) == m
    ensures |Padded(m, No, '0', w)| == if w == 0 then 1 else w
  {
    PaddedReads(m, No, '0', w);
    if w > 0 {
      DigitsLength(m, No, w);
    }
  }
}

/** The formatter of the logger, which prints into a bounded buffer. */
module LogPrints {
  import opened LogBuffers
  import opened NumberTexts
  import opened LogFormats
  import opened LogOutputs

  const SMALL_BUFFER: nat := 4000
  const SCRATCH: nat := 32

  lemma Regroup(s: string, t: string, u: string)
    ensures s + (t + u) == s + t + u
  {
  }

  /** The digits of what is left of a number, of which nothing may be left. */
  ghost function DigitsOrNone(v: nat, hex: Hex): string {
    if v == 0 then "" else Digits(v, hex)
  }

  lemma DigitsStep(v: nat, hex: Hex, printed: string)
    ensures DigitsOrNone(v / Base(hex), hex) + ([DigitChar(hex, v % Base(hex))] + printed) == Digits(v, hex) + printed
  {
    var b, c := Base(hex), [DigitChar(hex, v % Base(hex))];
    assert v < b <==> v / b == 0;
    Regroup(DigitsOrNone(v / b, hex), c, printed);
  }

  lemma RepeatSnoc(c: char, n: nat)
    ensures Repeat(c, n) + [c] == Repeat(c, n + 1)
  {
  }

  /** Printing in two steps, each cut off, is printing in one. */
  lemma CutTwice(n: nat, before: string, s: string, t: string)
    ensures Cut(n, Cut(n, before + s) + t) == Cut(n, before + (s + t))
  {
    CutCut(n, before + s, t);
    assert before + s + t == before + (s + t);
  }

  lemma WidthStep(digits: string, k: nat)
    requires k < |digits|
    ensures Width(digits[..k + 1]) == (Width(digits[..k]) * 10 + DigitValue(digits[k])) % 256
  {
    ValueSnoc(digits[..k], digits[k], 10);
    assert digits[..k + 1] == digits[..k] + [digits[k]];
    ByteStep(Value(digits[..k], 10), DigitValue(digits[k]));
  }

  /** Keeping only 8 bits at every step is keeping only 8 bits at the end. */
  lemma ByteStep(x: nat, d: nat)
    ensures (x % 256 * 10 + d) % 256 == (x * 10 + d) % 256
  {
    var q := x / 256;
    assert x * 10 + d == (x % 256 * 10 + d) + 256 * (10 * q);
  }

  /** The width, or the number of digits after the point, at the start of a text. */
  method ReadWidth(fmt: string, ghost digits: string, ghost end: string) returns (width: nat, rest: string)
    requires fmt == digits + end && AllDigits(digits) && Ends(end)
    ensures rest == end && width == Width(digits)
  {
    ghost var k := 0;
    width, rest := 0, fmt;
    while rest != [] && IsDigit(rest[0])
      invariant 0 <= k <= |digits| && rest == digits[k..] + end
      invariant width == Width(digits[..k])
      decreases |rest|
    {
      WidthStep(digits, k);
      width := (width * 10 + (rest[0] as nat - '0' as nat)) % 256;
      rest := rest[1..];
      k := k + 1;
    }
    assert digits[..k] == digits;
  }

  lemma SettledSnoc(flags: seq<Flag>, k: nat)
    requires k < |flags|
    ensures Settled(flags[..k + 1]) == WithFlag(Settled(flags[..k]), flags[k])
  {
    assert flags[..k + 1][..k] == flags[..k];
  }

  /** What is left of a text of flags from number k on, with what follows it. */
  ghost function Tail(flags: seq<Flag>, k: nat, end: string): string
    requires k <= |flags|
  {
    FlagsText(flags[k..]) + end
  }

  /** Flags, and what may follow them: a conversion character and more. */
  ghost predicate FlagsEndIn(flags: seq<Flag>, end: string) {
    && ValidFlags(flags) && end != [] && !IsFlag(end[0])
    && (flags != [] && flags[|flags| - 1].Fraction? ==> Ends(end))
  }

  lemma TailCons(flags: seq<Flag>, k: nat, end: string)
    requires k < |flags|
    ensures Tail(flags, k, end) == FlagText(flags[k]) + Tail(flags, k + 1, end)
    ensures Tail(flags, k, end) != [] && Tail(flags, k, end)[0] == FlagText(flags[k])[0]
  {
    assert flags[k..][1..] == flags[k + 1..];
    Regroup(FlagText(flags[k]), FlagsText(flags[k + 1..]), end);
  }

  lemma TailOf(flags: seq<Flag>, k: nat, end: string)
    requires FlagsEndIn(flags, end) && k <= |flags|
    ensures Tail(flags, k, end) != [] && (IsFlag(Tail(flags, k, end)[0]) <==> k < |flags|)
    ensures k == |flags| ==> Tail(flags, k, end) == end
    ensures k < |flags| ==> Tail(flags, k, end) == FlagText(flags[k]) + Tail(flags, k + 1, end)
    ensures k > 0 && flags[k - 1].Fraction? ==> AllDigits(flags[k - 1].digits) && Ends(Tail(flags, k, end))
  {
    hide AllDigits;
    if k < |flags| {
      TailCons(flags, k, end);
      assert IsFlag(FlagText(flags[k])[0]);
    } else {
      assert "" + end == end;
    }
  }

  lemma NoneSettled(flags: seq<Flag>)
    ensures Settled(flags[..0]) == Setting(true, No, DEFAULT_FRACTION, "")
  {
  }

  /** What a flag prints at once. */
  function FlagPrefix(flag: Flag): string {
    match flag
    case LowerHex => "0x"
    case UpperHex => "0X"
    case _ => ""
  }

  lemma WithPrefix(s: Setting, flag: Flag)
    ensures WithFlag(s, flag) == WithFlag(s.(prefix := ""), flag).(prefix := s.prefix + FlagPrefix(flag))
  {
    assert s.prefix + "" == s.prefix;
  }

  /** A call of printf. */
  datatype Call = Call(fmt: string, args: seq<Arg>) {
    /** The format is well formed, and the arguments are what it asks for. */
    predicate Fine() {
      Parse(fmt).Some? && AcceptsAll(Parse(fmt).value, args)
    }

    /** What is printed when there is room for it. */
    function Output(): string
      requires Fine()
    {
      LogOutputs.Output(Parse(fmt).value, args)
    }
  }

  function OutputOf(calls: seq<Call>): string
    requires forall i | 0 <= i < |calls| :: calls[i].Fine()
  {
    if calls == [] then "" else OutputOf(calls[..|calls| - 1]) + calls[|calls| - 1].Output()
  }

  lemma OutputSnoc(calls: seq<Call>, i: nat)
    requires i < |calls| && forall j | 0 <= j < |calls| :: calls[j].Fine()
    ensures OutputOf(calls[..i + 1]) == OutputOf(calls[..i]) + calls[i].Output()
  {
    hide Parse, AcceptsAll, Output;
    assert calls[..i + 1][..i] == calls[..i];
  }

  /** What is left to print: the items of a format, and arguments that fit them. */
  ghost predicate Pending(fmt: string, args: seq<Arg>, items: seq<Item>) {
    fmt == ItemsText(items) && ValidItems(items) && AcceptsAll(items, args)
  }

  lemma PendingStep(fmt: string, args: seq<Arg>, items: seq<Item>)
    requires Pending(fmt, args, items) && fmt != ""
    ensures items != [] && ValidItem(items[0]) && fmt == ItemText(items[0]) + ItemsText(items[1..])
    ensures TakesArg(items[0]) ==> args != [] && Accepts(items[0], args[0])
    ensures Pending(ItemsText(items[1..]), Left(items[0], args), items[1..])
    ensures Output(items, args) == Rendered(items[0], args) + Output(items[1..], Left(items[0], args))
  {
  }

  /** When the format ends, or the buffer is full, what is in the buffer is final. */
  lemma PrintedAll(n: nat, before: string, done: string, fmt: string, args: seq<Arg>, items: seq<Item>)
    requires Pending(fmt, args, items) && (fmt == "" || |Cut(n, before + done)| == n)
    ensures Cut(n, before + done) == Cut(n, before + (done + Output(items, args)))
  {
    Regroup(before, done, Output(items, args));
    if fmt == "" {
      assert items == [];
      assert Output(items, args) == "";
    } else {
      CutFull(n, before + done, Output(items, args));
    }
  }

  /** The parts of a conversion, after the %. */
  lemma ConversionParts(fmt: string, item: Item, end: string)
    requires item.Conversion? && ValidItem(item) && "%" + fmt == ItemText(item) + end
    ensures var tail := [item.c] + end;
            && fmt == item.digits + (FlagsText(item.flags) + tail)
            && Ends(FlagsText(item.flags) + tail)
            && FlagsText(item.flags) + tail == Tail(item.flags, 0, tail)
            && FlagsEndIn(item.flags, tail)
            && Padding(item.digits) == if fmt[0] == '0' then '0' else ' '
  {
    var tail := [item.c] + end;
    var text := FlagsText(item.flags);
    Regroup("%" + item.digits + text, [item.c], end);
    Regroup("%" + item.digits, text, tail);
    Regroup("%", item.digits, text + tail);
    assert fmt == ("%" + fmt)[1..];
    FlagsEnd(item.flags, tail);
    assert item.flags[0..] == item.flags;
  }

  class LogPrint {
    const buffer: LogBuffer

    ghost predicate Valid()
      reads buffer, buffer.data
    {
      buffer.Valid()
    }

    /** How much is printed into the buffer at most. */
    function Limit(): nat {
      if buffer.capacity == 0 then 0 else buffer.capacity - 1
    }

    ghost function Printed(): string
      requires Valid()
      reads buffer, buffer.data
    {
      buffer.Contents()
    }

    constructor ()
      ensures Valid() && fresh(buffer) && fresh(buffer.data) && Limit() == SMALL_BUFFER - 1 && Printed() == ""
    {
      buffer := new LogBuffer(SMALL_BUFFER);
    }

    /** Prints a number into the scratch array, from behind. */
    method FillScratch(value: nat, hex: Hex, numString: array<char>) returns (last: nat)
      requires value < UINT64 && numString.Length == SCRATCH
      modifies numString
      ensures 11 <= last <= 31 && numString[last..31] == Digits(value, hex)
    {
      DigitsFit(value, hex);
      var v: nat := value / Base(hex);
      last := 30;
      numString[last] := DigitChar(hex, value % Base(hex));
      assert numString[last..31] == [DigitChar(hex, value % Base(hex))];
      DigitsStep(value, hex, "");
      while v != 0
        invariant last <= 30 && DigitsOrNone(v, hex) + numString[last..31] == Digits(value, hex)
        decreases v
      {
        ghost var was := numString[last..31];
        DigitsStep(v, hex, was);
        last := last - 1;
        numString[last] := DigitChar(hex, v % Base(hex));
        assert numString[last..31] == [DigitChar(hex, v % Base(hex))] + was;
        v := v / Base(hex);
      }
    }

    /** Pads from one length to another. */
    method Pad(padding: char, from: nat, width: nat)
      requires Valid() && width < 256
      modifies buffer, buffer.data
      ensures Valid() && Printed() == Cut(Limit(), old(Printed()) + Repeat(padding, width - from))
    {
      ghost var before, n := Printed(), 0;
      var len := from;
      assert before + Repeat(padding, 0) == before;
      while len < width
        invariant Valid() && n == len - from && (n == 0 || len <= width)
        invariant Printed() == Cut(Limit(), before + Repeat(padding, n))
      {
        CutTwice(Limit(), before, Repeat(padding, n), [padding]);
        RepeatSnoc(padding, n);
        buffer.AppendChar(padding);
        len, n := len + 1, n + 1;
      }
    }

    method PrintfNum(value: nat, hex: Hex, padding: char, width: nat)
      requires Valid() && value < UINT64 && width < 256
      modifies buffer, buffer.data
      ensures Valid() && Printed() == Cut(Limit(), old(Printed()) + Padded(value, hex, padding, width))
    {
      hide Digits, Repeat, Cut;
      ghost var before := Printed();
      var numString := new char[SCRATCH](_ => NUL);
      var last := FillScratch(value, hex, numString);
      var numLen := 31 - last;
      CutTwice(Limit(), before, Repeat(padding, width - numLen), Digits(value, hex));
      Pad(padding, numLen, width);
      buffer.Append(numString[last..31]);
    }

    /** One flag: what it amounts to, after what came before it. */
    method ReadFlag(fmt: string, sign: bool, hex: Hex, ghost flag: Flag, ghost tail: string, fracWidth: nat)
        returns (sign': bool, hex': Hex, fracWidth': nat, rest: string)
      requires Valid() && fmt == FlagText(flag) + tail && (flag.Fraction? ==> AllDigits(flag.digits) && Ends(tail))
      modifies buffer, buffer.data
      ensures rest == tail
      ensures Setting(sign', hex', fracWidth', FlagPrefix(flag)) == WithFlag(Setting(sign, hex, fracWidth, ""), flag)
      ensures Valid() && Printed() == Cut(Limit(), old(Printed()) + FlagPrefix(flag))
    {
      sign', hex', fracWidth', rest := sign, hex, fracWidth, fmt[1..];
      match fmt[0] {
        case 'u' =>
          sign' := false;
        case 'x' =>
          sign', hex' := false, Lower;
          buffer.Append("0x");
        case 'X' =>
          sign', hex' := false, Upper;
          buffer.Append("0X");
        case _ =>
          fracWidth', rest := ReadWidth(rest, flag.digits, tail);
      }
    }

    /** The flags between the width and the conversion character; the prefix of hexadecimal
        numbers is printed at once. */
    method ReadFlags(fmt: string, ghost flags: seq<Flag>, ghost end: string)
        returns (sign: bool, hex: Hex, fracWidth: nat, rest: string)
      requires Valid() && fmt == Tail(flags, 0, end) && FlagsEndIn(flags, end)
      modifies buffer, buffer.data
      ensures rest == end
      ensures Setting(sign, hex, fracWidth, Settled(flags).prefix) == Settled(flags)
      ensures Valid() && Printed() == Cut(Limit(), old(Printed()) + Settled(flags).prefix)
    {
      hide Settled, WithFlag, FlagPrefix, Tail, FlagsEndIn;
      ghost var before, k, prefix := Printed(), 0, "";
      sign, hex, fracWidth, rest := true, No, DEFAULT_FRACTION, fmt;
      assert before + "" == before;
      NoneSettled(flags);
      TailOf(flags, 0, end);
      while IsFlag(rest[0])
        invariant 0 <= k <= |flags| && rest == Tail(flags, k, end) && rest != [] && (IsFlag(rest[0]) <==> k < |flags|)
        invariant Settled(flags[..k]) == Setting(sign, hex, fracWidth, prefix)
        invariant Valid() && Printed() == Cut(Limit(), before + prefix)
        decreases |flags| - k
      {
        TailOf(flags, k, end);
        TailOf(flags, k + 1, end);
        SettledSnoc(flags, k);
        WithPrefix(Setting(sign, hex, fracWidth, prefix), flags[k]);
        CutTwice(Limit(), before, prefix, FlagPrefix(flags[k]));
        sign, hex, fracWidth, rest := ReadFlag(rest, sign, hex, flags[k], Tail(flags, k + 1, end), fracWidth);
        prefix, k := prefix + FlagPrefix(flags[k]), k + 1;
      }
      TailOf(flags, k, end);
      assert flags[..k] == flags;
    }

    /** A whole number, with a sign in front of the padding. */
    method PrintWhole(value: int, hex: Hex, padding: char, width: nat)
      requires Valid() && -INT64_MAX <= value <= UINT64_MAX && width < 256
      modifies buffer, buffer.data
      ensures Valid() && Printed() == Cut(Limit(), old(Printed()) + SignedText(value, hex, padding, width))
    {
      if value < 0 {
        CutTwice(Limit(), Printed(), "-", Padded(-value, hex, padding, width));
        buffer.AppendChar('-');
        PrintfNum(-value, hex, padding, width);
      } else {
        PrintfNum(value, hex, padding, width);
      }
    }

    /** The parts of a number with digits after the point, each of which fits 64 bits. */
    method SplitFixed(fn: real, power: nat) returns (whole: nat, frac: nat)
      requires 0.0 <= fn <= UINT64_MAX as real && 0 < power < UINT64
      ensures whole == Split(fn, power).0 && frac == Split(fn, power).1 && whole < UINT64 && frac < UINT64
    {
      SplitFits(fn, power);
      whole := fn.Floor;
      frac := ((fn - whole as real) * power as real + 0.5).Floor;
      if frac == power {
        whole := whole + 1;
        frac := 0;
      }
    }

    /** A number with digits after the point. */
    method PrintFixed(number: real, fracWidth: nat, hex: Hex, padding: char, width: nat)
      requires Valid() && Abs(number) <= UINT64_MAX as real && fracWidth <= FRACTION_MAX && width < 256
      modifies buffer, buffer.data
      ensures Valid() && Printed() == Cut(Limit(), old(Printed()) + FixedText(number, fracWidth, hex, padding, width))
    {
      ghost var before, sign := Printed(), if number < 0.0 then "-" else "";
      assert before + "" == before;
      var fn := number;
      if fn < 0.0 {
        buffer.AppendChar('-');
        fn := -fn;
      }
      assert Printed() == Cut(Limit(), before + sign) && fn == Abs(number);
      PowerFits(fracWidth);
      PowerPositive(10, fracWidth);
      var whole, frac := SplitFixed(fn, Power(10, fracWidth));
      PrintParts(before, sign, whole, frac, fracWidth, hex, padding, width);
    }

    method PrintParts(ghost before: string, ghost sign: string, whole: nat, frac: nat, fracWidth: nat,
                      hex: Hex, padding: char, width: nat)
      requires Valid() && whole < UINT64 && frac < UINT64 && fracWidth < 256 && width < 256
      requires Printed() == Cut(Limit(), before + sign)
      modifies buffer, buffer.data
      ensures Valid()
      ensures Printed() == Cut(Limit(), before
              + (sign + Padded(whole, hex, padding, width) + "." + Padded(frac, No, '0', fracWidth)))
    {
      ghost var text, rest := Padded(whole, hex, padding, width), Padded(frac, No, '0', fracWidth);
      CutTwice(Limit(), before, sign, text);
      CutTwice(Limit(), before, sign + text, ".");
      CutTwice(Limit(), before, sign + text + ".", rest);
      PrintfNum(whole, hex, padding, width);
      buffer.AppendChar('.');
      PrintfNum(frac, No, '0', fracWidth);
    }

    /** The conversion character: prints the next argument, if it takes one. */
    method Convert(c: char, sign: bool, hex: Hex, fracWidth: nat, padding: char, width: nat, args: seq<Arg>,
                   ghost item: Item)
        returns (left: seq<Arg>)
      requires Valid() && item.Conversion? && c == item.c
      requires var setting := Settled(item.flags);
               sign == setting.sign && hex == setting.hex && fracWidth == setting.fracWidth
      requires padding == Padding(item.digits) && width == Width(item.digits)
      requires TakesArg(item) ==> args != [] && Accepts(item, args[0])
      modifies buffer, buffer.data
      ensures left == Left(item, args)
      ensures Valid() && Printed() == Cut(Limit(), old(Printed()) + Core(item, args))
    {
      hide SignedText, FixedText, Padded, Cut, Settled;
      left := args;
      match c {
        case 'b' =>
          left := args[1..];
          buffer.Append(if args[0].value == 0 then "false" else "true");
        case 'c' =>
          left := args[1..];
          buffer.AppendChar((args[0].value % 256) as char);
        case 'd' =>
          left := args[1..];
          PrintWhole(args[0].value, hex, padding, width);
        case 'f' =>
          left := args[1..];
          PrintFixed(args[0].number, fracWidth, hex, padding, width);
        case 'l' =>
          left := args[1..];
          PrintWhole(args[0].value, hex, padding, width);
        case 'p' =>
          left := args[1..];
          PrintfNum(args[0].value, Upper, '0', POINTER_WIDTH);
        case 's' =>
          left := args[1..];
          buffer.Append(args[0].text);
        case _ =>
          buffer.AppendChar(c);
      }
    }

    /** One conversion, of which the % has been read. */
    method PrintConversion(fmt: string, args: seq<Arg>, ghost item: Item, ghost end: string) returns (rest: string,
                           left: seq<Arg>)
      requires Valid() && item.Conversion? && ValidItem(item) && "%" + fmt == ItemText(item) + end
      requires TakesArg(item) ==> args != [] && Accepts(item, args[0])
      modifies buffer, buffer.data
      ensures rest == end && left == Left(item, args)
      ensures Valid() && Printed() == Cut(Limit(), old(Printed()) + Rendered(item, args))
    {
      ghost var before, tail := Printed(), [item.c] + end;
      ConversionParts(fmt, item, end);
      var padding := if fmt[0] == '0' then '0' else ' ';
      var width, fmt1 := ReadWidth(fmt, item.digits, FlagsText(item.flags) + tail);
      var sign, hex, fracWidth, fmt2 := ReadFlags(fmt1, item.flags, tail);
      CutTwice(Limit(), before, Settled(item.flags).prefix, Core(item, args));
      left := Convert(fmt2[0], sign, hex, fracWidth, padding, width, args, item);
      rest := fmt2[1..];
    }

    /** One item of a format: what the body of the loop does. */
    method PrintItem(fmt: string, args: seq<Arg>, ghost item: Item, ghost end: string) returns (rest: string,
                     left: seq<Arg>)
      requires Valid() && ValidItem(item) && fmt == ItemText(item) + end
      requires TakesArg(item) ==> args != [] && Accepts(item, args[0])
      modifies buffer, buffer.data
      ensures rest == end && left == Left(item, args)
      ensures Valid() && Printed() == Cut(Limit(), old(Printed()) + Rendered(item, args))
    {
      if fmt[0] != '%' {
        buffer.AppendChar(fmt[0]);
        rest, left := fmt[1..], args;
      } else {
        assert "%" + fmt[1..] == fmt;
        rest, left := PrintConversion(fmt[1..], args, item, end);
      }
    }

    /** Prints the items of a format, until it ends or the buffer is full. */
    method PrintItems(fmt: string, args: seq<Arg>, ghost all: seq<Item>)
      requires Valid() && Pending(fmt, args, all)
      modifies buffer, buffer.data
      ensures Valid() && Printed() == Cut(Limit(), old(Printed()) + Output(all, args))
    {
      ghost var before, done, items := Printed(), "", all;
      var rest, left := fmt, args;
      assert before + "" == before && "" + Output(items, args) == Output(items, args);
      while rest != "" && buffer.Available()
        invariant Valid() && Pending(rest, left, items)
        invariant Output(all, args) == done + Output(items, left)
        invariant Printed() == Cut(Limit(), before + done)
        decreases |items|
      {
        PendingStep(rest, left, items);
        ghost var text := Rendered(items[0], left);
        CutTwice(Limit(), before, done, text);
        Regroup(done, text, Output(items[1..], Left(items[0], left)));
        rest, left := PrintItem(rest, left, items[0], ItemsText(items[1..]));
        items, done := items[1..], done + text;
      }
      PrintedAll(Limit(), before, done, rest, left, items);
    }

    /** Prints a format, of which as much goes into the buffer as fits. */
    method Vprintf(fmt: string, args: seq<Arg>)
      requires Valid() && Parse(fmt).Some? && AcceptsAll(Parse(fmt).value, args)
      modifies buffer, buffer.data
      ensures Valid() && Printed() == Cut(Limit(), old(Printed()) + Output(Parse(fmt).value, args))
    {
      PrintItems(fmt, args, Parse(fmt).value);
    }

    /** Any number of calls: what does not fit is cut off only at the end, as if it had all
        been printed at once. */
    method PrintCalls(calls: seq<Call>)
      requires Valid() && forall i | 0 <= i < |calls| :: calls[i].Fine()
      modifies buffer, buffer.data
      ensures Valid() && Printed() == Cut(Limit(), old(Printed()) + OutputOf(calls))
    {
      hide Parse, AcceptsAll, Output;
      ghost var before := Printed();
      assert before + "" == before;
      for i := 0 to |calls|
        invariant Valid() && Printed() == Cut(Limit(), before + OutputOf(calls[..i]))
      {
        CutTwice(Limit(), before, OutputOf(calls[..i]), calls[i].Output());
        OutputSnoc(calls, i);
        Vprintf(calls[i].fmt, calls[i].args);
      }
      assert calls[..|calls|] == calls;
    }
  }
}

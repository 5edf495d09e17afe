/** The examples of the library's own test program, and a few more. */
module LogExamples {
  import opened Options
  import opened NumberTexts
  import opened LogFormats
  import opened LogOutputs
  import opened LogReads

  /** The format is well formed, and with these arguments gives this text. */
  ghost predicate Gives(format: string, args: seq<Arg>, text: string) {
    && Parse(format).Some? && AcceptsAll(Parse(format).value, args)
    && Output(Parse(format).value, args) == text
  }

  lemma OneGives(item: Item, args: seq<Arg>)
    requires ValidItem(item) && (TakesArg(item) ==> args != [] && Accepts(item, args[0]))
    ensures Gives(ItemText(item), args, Rendered(item, args))
  {
    hide ItemText, Rendered, ValidItem, Accepts;
    assert ItemsText([item]) == ItemText(item) by {
      assert [item][1..] == [];
    }
    ParseText([item]);
    OutputOne(item, args);
  }

  lemma Example(flags: seq<Flag>, c: char, args: seq<Arg>, format: string, text: string)
    requires var item := Conversion("", flags, c);
             && ValidItem(item) && (TakesArg(item) ==> args != [] && Accepts(item, args[0]))
             && "%" + FlagsText(flags) + [c] == format && Rendered(item, args) == text
    ensures Gives(format, args, text)
  {
    hide Gives, Rendered, Accepts;
    ConversionText(flags, c);
    OneGives(Conversion("", flags, c), args);
  }

  /** The text of a conversion with no width. */
  lemma ConversionText(flags: seq<Flag>, c: char)
    ensures ItemText(Conversion("", flags, c)) == "%" + FlagsText(flags) + [c]
    ensures Width("") == 0 && Padding("") == ' '
    ensures FlagsText([]) == "" && Settled([]) == Setting(true, No, 6, "")
  {
  }

  lemma OneFlag(flag: Flag)
    ensures FlagsText([flag]) == FlagText(flag)
    ensures Settled([flag]) == WithFlag(Setting(true, No, 6, ""), flag)
  {
    assert [flag][1..] == [] && [flag][..0] == [];
  }

  lemma NoWidth(v: nat, hex: Hex)
    ensures Padded(v, hex, ' ', 0) == Digits(v, hex)
  {
  }

  lemma SomeDigits()
    ensures Digits(1, No) == "1" && Digits(31, Lower) == "1f" && Digits(31, Upper) == "1F"
  {
    assert Digits(1, Lower) == "1" && Digits(1, Upper) == "1";
    assert Digits(31, Lower) == Digits(1, Lower) + ['f'];
    assert Digits(31, Upper) == Digits(1, Upper) + ['F'];
  }

  lemma Numbers()
    ensures Gives("%d", [Int(1)], "1")
    ensures Gives("%d", [Int(-1)], "-1")
    ensures Gives("%l", [Int(1)], "1")
  {
    hide Gives, Digits;
    SomeDigits();
    NoWidth(1, No);
    ConversionText([], 'd');
    Example([], 'd', [Int(1)], "%d", "1");
    Example([], 'd', [Int(-1)], "%d", "-1");
    Example([], 'l', [Int(1)], "%l", "1");
  }

  lemma UnsignedNumbers()
    ensures Gives("%ud", [Int(1)], "1")
  {
    hide Gives, Digits, Settled, FlagsText, Padded;
    SomeDigits();
    NoWidth(1, No);
    OneFlag(Unsigned);
    ConversionText([Unsigned], 'd');
    Example([Unsigned], 'd', [Int(1)], "%ud", "1");
  }

  lemma LowerNumbers()
    ensures Gives("%xd", [Int(31)], "0x1f")
  {
    hide Gives, Digits;
    SomeDigits();
    NoWidth(31, Lower);
    OneFlag(LowerHex);
    ConversionText([LowerHex], 'd');
    Example([LowerHex], 'd', [Int(31)], "%xd", "0x1f");
  }

  lemma UpperNumbers()
    ensures Gives("%Xd", [Int(31)], "0X1F")
  {
    hide Gives, Digits;
    SomeDigits();
    NoWidth(31, Upper);
    OneFlag(UpperHex);
    ConversionText([UpperHex], 'd');
    Example([UpperHex], 'd', [Int(31)], "%Xd", "0X1F");
  }

  lemma Booleans()
    ensures Gives("%b", [Int(0)], "false") && Gives("%b", [Int(1)], "true")
  {
    hide Gives, Digits;
    ConversionText([], 'b');
    Example([], 'b', [Int(0)], "%b", "false");
    Example([], 'b', [Int(1)], "%b", "true");
  }

  lemma Others()
    ensures Gives("%c", [Int(65)], "A")
    ensures Gives("%s", [Text("hello")], "hello")
    ensures Gives("%%", [], "%")
  {
    hide Gives, Digits;
    ConversionText([], 'c');
    Example([], 'c', [Int(65)], "%c", "A");
    Example([], 's', [Text("hello")], "%s", "hello");
    Example([], '%', [], "%%", "%");
  }

  // ----- widths, padding and digits after the point -----

  lemma WidthGives(digits: string, v: nat, format: string, text: string)
    requires AllDigits(digits) && v <= INT32_MAX
    requires "%" + digits + "d" == format && Padded(v, No, Padding(digits), Width(digits)) == text
    ensures Gives(format, [Int(v)], text)
  {
    hide Gives, Padded;
    var item := Conversion(digits, [], 'd');
    ConversionText([], 'd');
    assert ItemText(item) == "%" + digits + FlagsText([]) + ['d'] == format;
    assert Rendered(item, [Int(v)]) == "" + text == text;
    OneGives(item, [Int(v)]);
  }

  lemma SomeWidths()
    ensures Width("5") == 5 && Width("05") == 5 && Padding("5") == ' ' && Padding("05") == '0'
    ensures Digits(42, No) == "42"
  {
    ValueSnoc("", '5', 10);
    ValueSnoc("", '0', 10);
    ValueSnoc("0", '5', 10);
    assert "" + ['5'] == "5" && "" + ['0'] == "0" && "0" + ['5'] == "05";
    assert Digits(4, No) == "4";
    assert Digits(42, No) == Digits(4, No) + ['2'];
  }

  lemma Widths()
    ensures Gives("%5d", [Int(42)], "   42")
    ensures Gives("%05d", [Int(42)], "00042")
  {
    hide Gives, Digits, Width, Padding;
    SomeWidths();
    assert Padded(42, No, ' ', 5) == "   42" && Padded(42, No, '0', 5) == "00042";
    WidthGives("5", 42, "%5d", "   42");
    WidthGives("05", 42, "%05d", "00042");
  }

  lemma Halves()
    ensures Fixed(2.5, 1) == (2, 5) && Digits(2, No) == "2" && Digits(5, No) == "5" && Width("1") == 1
  {
    assert Power(10, 1) == 10 * Power(10, 0);
    ValueSnoc("", '1', 10);
    assert "" + ['1'] == "1";
  }

  lemma Fractions()
    ensures Gives("%.1f", [Real(2.5)], "2.5")
    ensures Gives("%.1f", [Real(-2.5)], "-2.5")
  {
    hide Gives, Digits, Fixed, Width;
    Halves();
    OneFlag(Fraction("1"));
    ConversionText([Fraction("1")], 'f');
    assert Padded(2, No, ' ', 0) == "2" && Padded(5, No, '0', 1) == "5";
    Example([Fraction("1")], 'f', [Real(2.5)], "%.1f", "2.5");
    Example([Fraction("1")], 'f', [Real(-2.5)], "%.1f", "-2.5");
  }
}

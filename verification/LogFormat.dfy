/** The format strings of the logger: their grammar, and what each conversion prints. */
module LogFormats {
  import opened Options

  /** What may stand between the width and the conversion character. */
  datatype Flag = Unsigned | LowerHex | UpperHex | Fraction(digits: string)

  /** A format is a sequence of characters that stand for themselves, and of conversions. */
  datatype Item = Literal(c: char) | Conversion(digits: string, flags: seq<Flag>, c: char)

  /** An argument, as va_arg yields it. */
  datatype Arg = Int(value: int) | Real(number: real) | Text(text: string)

  // ----- the grammar -----

  predicate IsDigit(c: char) {
    '0' <= c <= '9'
  }

  predicate IsFlag(c: char) {
    c == 'u' || c == 'x' || c == 'X' || c == '.'
  }

  predicate AllDigits(s: string) {
    forall i | 0 <= i < |s| :: IsDigit(s[i])
  }

  /** What follows does not belong to the digits before it. */
  predicate Ends(s: string) {
    s == [] || !IsDigit(s[0])
  }

  predicate ValidFlags(flags: seq<Flag>) {
    forall i | 0 <= i < |flags| :: flags[i].Fraction? ==> AllDigits(flags[i].digits)
  }

  predicate ValidItem(item: Item) {
    match item
    case Literal(c) => c != '%'
    case Conversion(digits, flags, c) =>
      && AllDigits(digits) && ValidFlags(flags) && !IsFlag(c)
      && (IsDigit(c) ==> flags != [] && !flags[|flags| - 1].Fraction?)
  }

  predicate ValidItems(items: seq<Item>) {
    forall i | 0 <= i < |items| :: ValidItem(items[i])
  }

  function FlagText(flag: Flag): string {
    match flag
    case Unsigned => "u"
    case LowerHex => "x"
    case UpperHex => "X"
    case Fraction(digits) => "." + digits
  }

  function FlagsText(flags: seq<Flag>): string {
    if flags == [] then "" else FlagText(flags[0]) + FlagsText(flags[1..])
  }

  function ItemText(item: Item): string {
    match item
    case Literal(c) => [c]
    case Conversion(digits, flags, c) => "%" + digits + FlagsText(flags) + [c]
  }

  function ItemsText(items: seq<Item>): string {
    if items == [] then "" else ItemText(items[0]) + ItemsText(items[1..])
  }

  // ----- the parser -----

  /** How many digits a text begins with. */
  function Span(s: string): (n: nat)
    ensures n <= |s| && AllDigits(s[..n]) && Ends(s[n..])
  {
    if s == [] || !IsDigit(s[0]) then 0
    else
      var n := 1 + Span(s[1..]);
      assert s[..n] == [s[0]] + s[1..][..n - 1];
      assert s[n..] == s[1..][n - 1..];
      n
  }

  function ParseFlag(s: string): (r: (Flag, string))
    requires s != [] && IsFlag(s[0])
    ensures FlagText(r.0) + r.1 == s && |r.1| < |s|
    ensures r.0.Fraction? ==> AllDigits(r.0.digits) && Ends(r.1)
  {
    if s[0] == 'u' then (Unsigned, s[1..])
    else if s[0] == 'x' then (LowerHex, s[1..])
    else if s[0] == 'X' then (UpperHex, s[1..])
    else var n := Span(s[1..]); (Fraction(s[1..][..n]), s[1..][n..])
  }

  function ParseFlags(s: string): (r: (seq<Flag>, string))
    ensures FlagsText(r.0) + r.1 == s && ValidFlags(r.0)
    ensures r.1 == [] || !IsFlag(r.1[0])
    ensures Ends(s) ==> Ends(r.1) || (r.0 != [] && !r.0[|r.0| - 1].Fraction?)
    decreases |s|
  {
    if s == [] || !IsFlag(s[0]) then ([], s)
    else
      var (flag, rest) := ParseFlag(s);
      var (flags, end) := ParseFlags(rest);
      FlagsCons(flag, flags, end);
      ([flag] + flags, end)
  }

  lemma FlagsCons(flag: Flag, flags: seq<Flag>, end: string)
    ensures FlagsText([flag] + flags) + end == FlagText(flag) + (FlagsText(flags) + end)
  {
    hide FlagText;
    assert ([flag] + flags)[1..] == flags;
  }

  /** The first item of a format; there is none when a % does not reach a conversion
      character. */
  function ParseItem(s: string): (r: Option<(Item, string)>)
    requires s != []
    ensures r.Some? ==> ItemText(r.value.0) + r.value.1 == s && ValidItem(r.value.0)
    ensures r.Some? ==> |r.value.1| < |s|
  {
    if s[0] != '%' then Some((Literal(s[0]), s[1..]))
    else
      var n := Span(s[1..]);
      var (flags, end) := ParseFlags(s[1..][n..]);
      if end == [] then None
      else
        ConversionText(s, n, flags, end);
        Some((Conversion(s[1..][..n], flags, end[0]), end[1..]))
  }

  lemma ConversionText(s: string, n: nat, flags: seq<Flag>, end: string)
    requires s != [] && s[0] == '%' && n < |s| && end != []
    requires FlagsText(flags) + end == s[1..][n..]
    ensures ItemText(Conversion(s[1..][..n], flags, end[0])) + end[1..] == s
  {
    var digits, text := s[1..][..n], FlagsText(flags);
    assert [end[0]] + end[1..] == end;
    assert text + [end[0]] + end[1..] == text + end;
    assert digits + (text + end) == s[1..];
    assert "%" + digits + text + [end[0]] + end[1..] == "%" + (digits + (text + end));
  }

  function Parse(s: string): (r: Option<seq<Item>>)
    ensures r.Some? ==> ItemsText(r.value) == s && ValidItems(r.value)
    decreases |s|
  {
    if s == [] then Some([])
    else
      var item := ParseItem(s);
      if item.None? then None
      else
        var items := Parse(item.value.1);
        if items.None? then None
        else
          assert ([item.value.0] + items.value)[1..] == items.value;
          Some([item.value.0] + items.value)
  }

  // ----- the parser reads the grammar -----

  lemma SpanOf(digits: string, end: string)
    requires AllDigits(digits) && Ends(end)
    ensures Span(digits + end) == |digits|
  {
    if digits != [] {
      SpanOf(digits[1..], end);
      assert (digits + end)[1..] == digits[1..] + end;
    } else {
      assert digits + end == end;
    }
  }

  lemma {:induction false} ParseFlagsOf(flags: seq<Flag>, end: string)
    requires ValidFlags(flags) && end != [] && !IsFlag(end[0])
    requires flags != [] && flags[|flags| - 1].Fraction? ==> Ends(end)
    ensures ParseFlags(FlagsText(flags) + end) == (flags, end)
    decreases |flags|
  {
    hide ParseFlag, FlagText, AllDigits;
    if flags == [] {
      assert FlagsText(flags) + end == end;
    } else {
      var flag, others := flags[0], flags[1..];
      var rest := FlagsText(others) + end;
      ParseFlagsOf(others, end);
      FlagsEnd(others, end);
      ParseFlagOf(flag, rest);
      assert [flag] + others == flags;
      FlagsCons(flag, others, end);
    }
  }

  lemma FlagsEnd(flags: seq<Flag>, end: string)
    requires end != []
    ensures flags != [] ==> Ends(FlagsText(flags) + end)
    ensures flags == [] ==> FlagsText(flags) + end == end
  {
  }

  lemma ParseFlagOf(flag: Flag, rest: string)
    requires flag.Fraction? ==> AllDigits(flag.digits) && Ends(rest)
    ensures IsFlag(FlagText(flag)[0]) && ParseFlag(FlagText(flag) + rest) == (flag, rest)
  {
    var s := FlagText(flag) + rest;
    assert s[0] == FlagText(flag)[0];
    if flag.Fraction? {
      assert s[1..] == flag.digits + rest;
      SpanOf(flag.digits, rest);
    } else {
      assert s[1..] == rest;
    }
  }

  lemma ParseItemOf(item: Item, rest: string)
    requires ValidItem(item)
    ensures ParseItem(ItemText(item) + rest) == Some((item, rest))
  {
    match item {
      case Literal(c) =>
        assert (ItemText(item) + rest)[1..] == rest;
      case Conversion(digits, flags, c) =>
        ParseConversionOf(digits, flags, c, rest);
    }
  }

  lemma ParseConversionOf(digits: string, flags: seq<Flag>, c: char, rest: string)
    requires ValidItem(Conversion(digits, flags, c))
    ensures ParseItem(ItemText(Conversion(digits, flags, c)) + rest) == Some((Conversion(digits, flags, c), rest))
  {
    var s, end := ItemText(Conversion(digits, flags, c)) + rest, [c] + rest;
    var tail := FlagsText(flags) + end;
    assert s[1..] == digits + tail;
    FlagsEnd(flags, end);
    SpanOf(digits, tail);
    assert s[1..][..|digits|] == digits && s[1..][|digits|..] == tail;
    ParseFlagsOf(flags, end);
    assert end[1..] == rest;
  }

  lemma ParseCons(item: Item, rest: string)
    requires ValidItem(item) && Parse(rest).Some?
    ensures Parse(ItemText(item) + rest) == Some([item] + Parse(rest).value)
  {
    ParseItemOf(item, rest);
  }

  /** Every sequence of items is what its text parses as: so a format means just one. */
  lemma {:induction false} ParseText(items: seq<Item>)
    requires ValidItems(items)
    ensures Parse(ItemsText(items)) == Some(items)
    decreases |items|
  {
    if items != [] {
      ParseText(items[1..]);
      ParseCons(items[0], ItemsText(items[1..]));
      assert [items[0]] + items[1..] == items;
    }
  }

  /** A format is well formed exactly if it is the text of some items. */
  lemma WellFormed(s: string)
    ensures Parse(s).Some? <==> exists items :: ValidItems(items) && ItemsText(items) == s
  {
    if items :| ValidItems(items) && ItemsText(items) == s {
      ParseText(items);
    }
  }
}

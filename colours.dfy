/** Colour resolution of src/parsers/message.rs: the fixed name table (lines 14-45), the
    untagged colour union (126-132) and `TryFrom<EmbedColourEnum> for Colour` (134-159). */
module Colours {

  import opened Wrappers
  import opened Errors
  import opened Text

  type u8 = x: int | 0 <= x < 0x100
  type u32 = x: int | 0 <= x < 0x1_0000_0000

  /** serenity's `Colour`, a 32-bit value whose low 24 bits are red, green and blue. */
  datatype Colour = Colour(value: u32)

  datatype RGBColour = RGBColour(red: u8, green: u8, blue: u8)

  /** The three shapes a colour may be written in. */
  datatype EmbedColourEnum = Integer(number: u32) | String(text: string) | RGB(rgb: RGBColour)

  /** `Colour::from_rgb`: red in bits 16-23, green in bits 8-15, blue in bits 0-7. */
  function FromRgb(red: u8, green: u8, blue: u8): (c: Colour)
    ensures c.value < 0x100_0000
    ensures c.value / 0x1_0000 == red && c.value / 0x100 % 0x100 == green && c.value % 0x100 == blue
  {
    PackedBytes(red, green, blue);
    Colour(red * 0x1_0000 + green * 0x100 + blue)
  }

  /** The three bytes of a packed colour come back out by division and remainder. */
  lemma PackedBytes(red: u8, green: u8, blue: u8)
    ensures var v := red * 0x1_0000 + green * 0x100 + blue;
      v < 0x100_0000 && v / 0x1_0000 == red && v / 0x100 % 0x100 == green && v % 0x100 == blue
  {
    var low := green * 0x100 + blue;
    var v := red * 0x1_0000 + low;
    assert 0 <= low < 0x1_0000;
    assert v / 0x1_0000 == red;
    assert v / 0x100 == red * 0x100 + green;
    assert (red * 0x100 + green) % 0x100 == green;
    assert v % 0x100 == blue;
  }

  /** The colour names accepted in place of a hexadecimal string. The values are serenity's
      colour constants; that library is not part of this model. */
  const NameToColourMapping: map<string, Colour> := map[
    "BLITZ_BLUE" := Colour(0x6FC6E2),
    "BLUE" := Colour(0x3498DB),
    "BLURPLE" := Colour(0x7289DA),
    "DARK_BLUE" := Colour(0x206694),
    "DARK_GOLD" := Colour(0xC27C0E),
    "DARK_GREEN" := Colour(0x1F8B4C),
    "DARK_GREY" := Colour(0x607D8B),
    "DARK_MAGENTA" := Colour(0xAD1457),
    "DARK_ORANGE" := Colour(0xA84300),
    "DARK_PURPLE" := Colour(0x71368A),
    "DARK_RED" := Colour(0x992D22),
    "DARK_TEAL" := Colour(0x11806A),
    "DARKER_GREY" := Colour(0x546E7A),
    "FABLED_PINK" := Colour(0xFAB8ED),
    "FADED_PURPLE" := Colour(0x8882C4),
    "FOOYOO" := Colour(0x11CA80),
    "GOLD" := Colour(0xF1C40F),
    "KERBAL" := Colour(0xBADA55),
    "LIGHT_GREY" := Colour(0x979C9F),
    "LIGHTER_GREY" := Colour(0x95A5A6),
    "MAGENTA" := Colour(0xE91E63),
    "MEIBE_PINK" := Colour(0xE68397),
    "ORANGE" := Colour(0xE67E22),
    "PURPLE" := Colour(0x9B59B6),
    "RED" := Colour(0xE74C3C),
    "ROHRKATZE_BLUE" := Colour(0x7596FF),
    "ROSEWATER" := Colour(0xF6DBD8),
    "TEAL" := Colour(0x1ABC9C)
  ]

  // ----- u32::from_str_radix(_, 16) ----------------------------------------------------------

  /** `char::to_digit(16)`: the value of a hexadecimal digit of either case. */
  function HexDigitValue(c: char): (d: Option<nat>)
    ensures d.Some? ==> d.value < 16
    ensures d.Some? <==> ('0' <= c <= '9' || 'a' <= c <= 'f' || 'A' <= c <= 'F')
  {
    if '0' <= c <= '9' then Some((c as int) - ('0' as int))
    else if 'a' <= c <= 'f' then Some((c as int) - ('a' as int) + 10)
    else if 'A' <= c <= 'F' then Some((c as int) - ('A' as int) + 10)
    else None
  }

  predicate IsHexDigit(c: char) { HexDigitValue(c).Some? }

  predicate AllHexDigits(s: string) { forall i | 0 <= i < |s| :: IsHexDigit(s[i]) }

  /** The value of a string of hexadecimal digits, most significant first. */
  function HexDigitsValue(s: string): nat
    requires AllHexDigits(s)
  {
    if s == [] then 0 else HexDigitsValue(s[..|s| - 1]) * 16 + HexDigitValue(s[|s| - 1]).value
  }

  /** The digit loop of `from_str_radix`: digits are consumed from the left; a byte that is not
      a digit stops it with `InvalidDigit`, and a multiplication or addition that leaves the
      `u32` range stops it with `PosOverflow`. Recursing on the prefix first reproduces that
      left-to-right order. (A non-ASCII character fails at its first byte, as here.) */
  function HexDigitLoop(digits: string): Result<u32, IntErrorKind>
  {
    if digits == [] then Ok(0)
    else
      var acc :- HexDigitLoop(digits[..|digits| - 1]);
      var d := HexDigitValue(digits[|digits| - 1]);
      if d.None? then Err(InvalidDigit)
      else if acc * 16 >= 0x1_0000_0000 then Err(PosOverflow)
      else if acc * 16 + d.value >= 0x1_0000_0000 then Err(PosOverflow)
      else Ok(acc * 16 + d.value)
  }

  /** `u32::from_str_radix(s, 16)`: an optional leading `+`, then at least one digit. */
  function FromStrRadix16(s: string): Result<u32, IntErrorKind>
  {
    if s == [] then Err(Empty)
    else
      var digits := if s[0] == '+' then s[1..] else s;
      if digits == [] then Err(Empty) else HexDigitLoop(digits)
  }

  // ----- TryFrom<EmbedColourEnum> for Colour ------------------------------------------------

  predicate StartsWithHash(s: string) { |s| > 0 && s[0] == '#' }

  function ResolveColour(c: EmbedColourEnum): Result<Colour, ColourParseError>
  {
    match c
    case Integer(v) => Ok(Colour(v))
    case String(s) =>
      if StartsWithHash(s) then
        if ByteLen(s) == 7 then
          match FromStrRadix16(s[1..])
          case Ok(v) => Ok(Colour(v))
          case Err(kind) => Err(InvalidColourHexValue(s, kind))
        else Err(InvalidColourHexLength(s))
      else if s in NameToColourMapping then Ok(NameToColourMapping[s])
      else Err(UnknownColourName(s))
    case RGB(rgb) => Ok(FromRgb(rgb.red, rgb.green, rgb.blue))
  }

  // ----- `{:06X}`: serenity's `Colour::hex` --------------------------------------------------

  function UpperHexDigit(d: nat): (c: char)
    requires d < 16
    ensures HexDigitValue(c) == Some(d)
  {
    "0123456789ABCDEF"[d]
  }

  /** `format!("{:0w$X}", v)`: upper-case hexadecimal, left-padded with zeros to `width`. */
  function PaddedUpperHex(v: nat, width: nat): string
    decreases v, width
  {
    if v < 16 && width <= 1 then [UpperHexDigit(v)]
    else PaddedUpperHex(v / 16, if width == 0 then 0 else width - 1) + [UpperHexDigit(v % 16)]
  }

  function Pow16(n: nat): nat
  {
    if n == 0 then 1 else 16 * Pow16(n - 1)
  }

  /** Below `16^width`, the padded rendering has exactly `width` digits and denotes `v`. */
  lemma {:induction false} PaddedUpperHexDigits(v: nat, width: nat)
    requires 1 <= width && v < Pow16(width)
    ensures |PaddedUpperHex(v, width)| == width
    ensures AllHexDigits(PaddedUpperHex(v, width))
    ensures PaddedUpperHex(v, width)[0] != '+'
    ensures HexDigitsValue(PaddedUpperHex(v, width)) == v
    decreases width
  {
    var s := PaddedUpperHex(v, width);
    if !(v < 16 && width <= 1) {
      var t := PaddedUpperHex(v / 16, width - 1);
      if width == 1 {
        assert false;
      } else {
        PaddedUpperHexDigits(v / 16, width - 1);
      }
      assert s == t + [UpperHexDigit(v % 16)];
      assert s[..|s| - 1] == t;
    }
  }

  /** The digit loop of an all-digit string of at most seven digits cannot overflow, so it
      yields the string's value. */
  lemma {:induction false} HexDigitLoopValue(digits: string)
    requires AllHexDigits(digits) && |digits| <= 7
    ensures HexDigitsValue(digits) < Pow16(|digits|)
    ensures HexDigitLoop(digits) == Ok(HexDigitsValue(digits))
  {
    if digits != [] {
      var init := digits[..|digits| - 1];
      assert AllHexDigits(init) by {
        forall i | 0 <= i < |init| ensures IsHexDigit(init[i]) { assert init[i] == digits[i]; }
      }
      HexDigitLoopValue(init);
      assert Pow16(|init|) <= Pow16(6) by { Pow16Monotone(|init|, 6); }
    }
  }

  /** A string of at most seven characters with a non-digit makes the loop fail with
      `InvalidDigit`. */
  lemma {:induction false} HexDigitLoopInvalid(digits: string)
    requires !AllHexDigits(digits) && |digits| <= 7
    ensures HexDigitLoop(digits) == Err(InvalidDigit)
  {
    var init := digits[..|digits| - 1];
    if AllHexDigits(init) {
      HexDigitLoopValue(init);
      assert !IsHexDigit(digits[|digits| - 1]) by {
        if IsHexDigit(digits[|digits| - 1]) {
          forall i | 0 <= i < |digits| ensures IsHexDigit(digits[i]) {
            if i < |init| { assert digits[i] == init[i]; }
          }
        }
      }
    } else {
      HexDigitLoopInvalid(init);
    }
  }

  lemma {:induction false} Pow16Monotone(m: nat, n: nat)
    requires m <= n
    ensures Pow16(m) <= Pow16(n)
    decreases n
  {
    if m < n { Pow16Monotone(m, n - 1); }
  }

  /** A `#` and six hexadecimal digits, or a `#`, a `+` and five digits: exactly the strings
      `from_str_radix` accepts after the length check (message.rs:142-144). */
  predicate IsHexColour(s: string)
  {
    && |s| == 7 && s[0] == '#'
    && (AllHexDigits(s[1..]) || (s[1] == '+' && AllHexDigits(s[2..])))
  }

  /** The value of such a string: its digits read in base 16, the `+` ignored. */
  function HexColourValue(s: string): nat
    requires IsHexColour(s)
  {
    if s[1] == '+' then HexDigitsValue(s[2..]) else HexDigitsValue(s[1..])
  }

  /** serenity's `Colour::hex`: six upper-case hexadecimal digits (more when the value needs them). */
  function ColourHex(c: Colour): string
  {
    PaddedUpperHex(c.value, 6)
  }

  // ----- properties of ResolveColour ---------------------------------------------------------

  /** Integer colours are used unchanged and RGB triples are packed; neither can fail. */
  lemma NonStringColoursResolve(c: EmbedColourEnum)
    requires !c.String?
    ensures ResolveColour(c).Ok?
    ensures c.Integer? ==> ResolveColour(c).value == Colour(c.number)
    ensures c.RGB? ==> ResolveColour(c).value.value == c.rgb.red * 0x1_0000 + c.rgb.green * 0x100 + c.rgb.blue
  {
  }

  /** A `#`-string whose length in bytes is not 7 is refused, carrying the input unchanged. */
  lemma HexLengthRejected(s: string)
    requires StartsWithHash(s) && ByteLen(s) != 7
    ensures ResolveColour(String(s)) == Err(InvalidColourHexLength(s))
  {
  }

  /** A `#`-string of seven bytes resolves exactly when it is `#` and six hexadecimal digits of
      either case, or `#+` and five, and then to their base-16 value; otherwise it is refused
      with `InvalidColourHexValue` carrying the input. */
  lemma {:induction false} HexStringResolution(s: string)
    requires StartsWithHash(s) && ByteLen(s) == 7
    ensures ResolveColour(String(s)).Ok? <==> IsHexColour(s)
    ensures IsHexColour(s) ==> ResolveColour(String(s)).Ok? && ResolveColour(String(s)).value.value == HexColourValue(s)
    ensures !IsHexColour(s) ==>
      ResolveColour(String(s)).Err? && ResolveColour(String(s)).error.InvalidColourHexValue? &&
      ResolveColour(String(s)).error.input == s
  {
    ByteLenBounds(s);
    var t := s[1..];
    if IsHexColour(s) {
      if s[1] == '+' {
        assert t[1..] == s[2..];
        HexDigitLoopValue(s[2..]);
      } else {
        HexDigitLoopValue(t);
      }
    } else {
      var digits := if t[0] == '+' then t[1..] else t;
      assert !AllHexDigits(digits) by {
        if |s| == 7 {
          if t[0] == '+' { assert digits == s[2..]; }
        } else {
          var k :| 0 <= k < |s| && s[k] as int >= 0x80;
          assert k >= 1;
          if t[0] == '+' {
            assert k >= 2 && digits[k - 2] == s[k];
          } else {
            assert digits[k - 1] == s[k];
          }
        }
      }
      HexDigitLoopInvalid(digits);
    }
  }

  /** For every value below 16^6, formatting it as `#` and six upper-case digits and resolving
      the string gives the value back (the property test of message.rs:442-449). */
  lemma {:induction false} HexRoundTrip(v: nat)
    requires v < Pow16(6)
    ensures ResolveColour(String("#" + ColourHex(Colour(v)))) == Ok(Colour(v))
  {
    var p := ColourHex(Colour(v));
    PaddedUpperHexDigits(v, 6);
    var s := "#" + p;
    assert IsAscii(s) by {
      forall i | 0 <= i < |s| ensures s[i] as int < 0x80 {
        if i > 0 { assert s[i] == p[i - 1] && IsHexDigit(p[i - 1]); }
      }
    }
    ByteLenBounds(s);
    assert s[1..] == p;
    HexDigitLoopValue(p);
  }

  /** A string not starting with `#` resolves only by exact, case-sensitive lookup in the name
      table; any other string is refused with `UnknownColourName` carrying the input. */
  lemma NameResolution(s: string)
    requires !StartsWithHash(s)
    ensures ResolveColour(String(s)).Ok? <==> s in NameToColourMapping
    ensures s in NameToColourMapping ==> ResolveColour(String(s)).value == NameToColourMapping[s]
    ensures s !in NameToColourMapping ==> ResolveColour(String(s)) == Err(UnknownColourName(s))
  {
  }

  /** The lookup is case-sensitive: the table's `RED` resolves, `red` does not. */
  lemma NameLookupIsCaseSensitive()
    ensures ResolveColour(String("RED")) == Ok(Colour(0xE74C3C))
    ensures ResolveColour(String("red")) == Err(UnknownColourName("red"))
  {
  }

  /** The wrong-length cases of the unit test in message.rs:391-405. */
  lemma HexLengthTestCases()
    ensures ResolveColour(String("#1")) == Err(InvalidColourHexLength("#1"))
    ensures ResolveColour(String("#10")) == Err(InvalidColourHexLength("#10"))
    ensures ResolveColour(String("#100")) == Err(InvalidColourHexLength("#100"))
    ensures ResolveColour(String("#1000000")) == Err(InvalidColourHexLength("#1000000"))
    ensures ResolveColour(String("#12345678")) == Err(InvalidColourHexLength("#12345678"))
  {
    ByteLenBounds("#1");
    ByteLenBounds("#10");
    ByteLenBounds("#100");
    ByteLenBounds("#1000000");
    ByteLenBounds("#12345678");
  }

  /** The wrong-value case of the unit test in message.rs:407-414, and the unknown name of
      message.rs:433-440. */
  lemma BadColourTestCases()
    ensures ResolveColour(String("#gggggg")) == Err(InvalidColourHexValue("#gggggg", InvalidDigit))
    ensures ResolveColour(String("abc")) == Err(UnknownColourName("abc"))
  {
    ByteLenBounds("#gggggg");
    assert "#gggggg"[1..] == "gggggg";
    HexDigitLoopInvalid("gggggg");
  }

  /** The zero-padded valid cases of the unit test in message.rs:416-431. */
  lemma PaddedHexTestCases()
    ensures ResolveColour(String("#000000")) == Ok(Colour(0))
    ensures ResolveColour(String("#000001")) == Ok(Colour(1))
    ensures ResolveColour(String("#000010")) == Ok(Colour(16))
  {
    assert DigitsFormula("000000", 6) == 0;
    HexCase("#000000", 0);
    assert DigitsFormula("000001", 6) == 1;
    HexCase("#000001", 1);
    assert DigitsFormula("000010", 6) == 16;
    HexCase("#000010", 16);
  }

  /** The decimal-looking case of that test. */
  lemma DecimalDigitHexTestCase()
    ensures ResolveColour(String("#234099")) == Ok(Colour(2310297))
  {
    assert DigitsFormula("234099", 6) == 2310297;
    HexCase("#234099", 2310297);
  }

  /** The lower-case letters case of that test. */
  lemma LetterHexTestCase()
    ensures ResolveColour(String("#abcdef")) == Ok(Colour(11259375))
  {
    assert DigitsFormula("abcdef", 6) == 11259375;
    HexCase("#abcdef", 11259375);
  }

  /** `from_str_radix` accepts a leading `+`, so `#+12345` is a colour (message.rs:143). */
  lemma PlusSignAccepted()
    ensures ResolveColour(String("#+12345")) == Ok(Colour(0x12345))
  {
    assert DigitsFormula("12345", 5) == 0x12345;
    PlusHexCase("#+12345", 0x12345);
  }

  /** `#` and six digits resolve to the value of the digits. */
  lemma HexCase(s: string, v: u32)
    requires |s| == 7 && s[0] == '#' && AllHexDigits(s[1..])
    requires v == DigitsFormula(s[1..], 6)
    ensures ResolveColour(String(s)) == Ok(Colour(v))
  {
    HexColourIsAscii(s);
    HexStringResolution(s);
    PrefixFormula(s[1..], 6);
    assert s[1..][..6] == s[1..];
  }

  /** `#+` and five digits resolve to the value of the digits. */
  lemma PlusHexCase(s: string, v: u32)
    requires |s| == 7 && s[0] == '#' && s[1] == '+' && AllHexDigits(s[2..])
    requires v == DigitsFormula(s[2..], 5)
    ensures ResolveColour(String(s)) == Ok(Colour(v))
  {
    HexColourIsAscii(s);
    HexStringResolution(s);
    PrefixFormula(s[2..], 5);
    assert s[2..][..5] == s[2..];
  }

  lemma HexColourIsAscii(s: string)
    requires IsHexColour(s)
    ensures ByteLen(s) == 7
  {
    assert IsAscii(s) by {
      forall i | 0 <= i < |s| ensures s[i] as int < 0x80 {
        if i >= 2 { assert s[i] == s[2..][i - 2]; }
        if i == 1 && s[1] != '+' { assert s[i] == s[1..][0]; }
      }
    }
    ByteLenBounds(s);
  }

  /** The value of the first `n` digits, spelled out digit by digit. */
  function DigitsFormula(t: string, n: nat): nat
    requires n <= |t| && AllHexDigits(t)
  {
    if n == 0 then 0 else DigitsFormula(t, n - 1) * 16 + HexDigitValue(t[n - 1]).value
  }

  lemma {:induction false} PrefixFormula(t: string, n: nat)
    requires n <= |t| && AllHexDigits(t)
    ensures AllHexDigits(t[..n]) && HexDigitsValue(t[..n]) == DigitsFormula(t, n)
  {
    if n > 0 {
      PrefixFormula(t, n - 1);
      assert t[..n][..n - 1] == t[..n - 1];
    }
  }
}

/** Text forms of numbers, booleans and dates used by the row formats.
    `Integer.parseInt`/`Integer.toString` and `Boolean.parseBoolean`/
    `Boolean.toString` are modelled exactly (ASCII digits); the JDK's
    `Double` and `LocalDate` text conversions are not, and are passed in as
    a `LibraryText` value instead. */
module Numbers {
  import opened Base
  import opened Text

  const IntMin: int := -0x8000_0000
  const IntMax: int := 0x7FFF_FFFF

  predicate IsDigit(c: char) { '0' <= c <= '9' }

  predicate AllDigits(s: string)
  {
    forall i :: 0 <= i < |s| ==> IsDigit(s[i])
  }

  function DigitChar(d: int): (c: char)
    requires 0 <= d < 10
    ensures IsDigit(c)
  {
    ('0' as int + d) as char
  }

  /** The value of a non-empty run of decimal digits. */
  function DigitsValue(s: string): nat
    requires AllDigits(s)
  {
    if s == [] then 0
    else DigitsValue(s[..|s| - 1]) * 10 + (s[|s| - 1] as int - '0' as int)
  }

  /** Decimal digits of a natural number, without leading zeros. */
  function NatText(n: nat): (s: string)
    ensures |s| >= 1 && AllDigits(s)
  {
    if n < 10 then [DigitChar(n)] else NatText(n / 10) + [DigitChar(n % 10)]
  }

  lemma {:induction false} NatTextValue(n: nat)
    ensures DigitsValue(NatText(n)) == n
  {
    if n >= 10 {
      var s := NatText(n);
      NatTextValue(n / 10);
      assert s[..|s| - 1] == NatText(n / 10);
    }
  }

  /** `Integer.toString(n)` / `String.valueOf(n)`. */
  function IntText(n: int): (s: string)
    ensures |s| >= 1
    ensures forall i :: 0 <= i < |s| ==> IsDigit(s[i]) || (i == 0 && s[i] == '-')
  {
    if n < 0 then "-" + NatText(-n) else NatText(n)
  }

  /** `Integer.parseInt(s)`: an optional sign, then one or more ASCII
      digits, and a value that fits in 32 bits; `None` where Java throws
      `NumberFormatException`. */
  function ParseInt(s: string): (r: Option<int>)
    ensures r.Some? ==> IntMin <= r.value <= IntMax
    ensures s == [] ==> r == None
  {
    if s == [] then None
    else
      var neg := s[0] == '-';
      var digits := if s[0] == '-' || s[0] == '+' then s[1..] else s;
      if digits == [] || !AllDigits(digits) then None
      else
        var m: int := DigitsValue(digits);
        var v := if neg then -m else m;
        if IntMin <= v <= IntMax then Some(v) else None
  }

  /** Reading back what `Integer.toString` wrote gives the same int. */
  lemma ParseIntText(n: int)
    requires IntMin <= n <= IntMax
    ensures ParseInt(IntText(n)) == Some(n)
  {
    if n < 0 {
      NatTextValue(-n);
      assert IntText(n)[1..] == NatText(-n);
    } else {
      NatTextValue(n);
    }
  }

  /** `Boolean.parseBoolean`: true exactly for "true" in any letter case. */
  function ParseBoolean(s: string): bool
  {
    EqualsIgnoreCase(s, "true")
  }

  /** `Boolean.toString`. */
  function BoolText(b: bool): string
  {
    if b then "true" else "false"
  }

  lemma ParseBoolText(b: bool)
    ensures ParseBoolean(BoolText(b)) == b
  {
    if !b {
      assert ToLower("false")[0] == 'f';
    }
  }

  /** A calendar date (`LocalDate`), identified by its day number. */
  datatype Date = Date(epochDay: int)

  /** The JDK text conversions that the model does not define itself:
      `LocalDate.toString`/`LocalDate.parse` and `String.valueOf(double)`/
      `Double.parseDouble` (`None` where the JDK throws), with the reals a
      `double` can hold. */
  datatype LibraryText = LibraryText(
    showDate: Date -> string,
    readDate: string -> Option<Date>,
    showReal: real -> string,
    readReal: string -> Option<real>,
    isDouble: real -> bool)

  /** A character the JDK never prints in a number or date and that no row
      format treats specially. */
  predicate TokenChar(c: char)
  {
    c > ' ' && c != '|' && c != '\\' && c != ','
  }

  /** Text such as "2024-05-01", "4.5" or "-12". */
  predicate Token(s: string)
  {
    |s| >= 1 && forall i :: 0 <= i < |s| ==> TokenChar(s[i])
  }

  lemma IntTextIsToken(n: int)
    ensures Token(IntText(n))
  {
  }

  /** What the JDK guarantees about these conversions and the model relies
      on: reading back what was written gives the same value, for a number
      one that a `double` holds, and what is written is a plain token; and
      every number read is a `double`. */
  ghost predicate Faithful(lib: LibraryText)
  {
    && (forall d :: lib.readDate(lib.showDate(d)) == Some(d))
    && (forall d :: Token(lib.showDate(d)))
    && (forall x :: lib.isDouble(x) ==> lib.readReal(lib.showReal(x)) == Some(x))
    && (forall x :: lib.isDouble(x) ==> Token(lib.showReal(x)))
    && (forall s :: lib.readReal(s).Some? ==> lib.isDouble(lib.readReal(s).value))
  }

  /** `Faithful` at one date, stated with the date as a plain variable so
      that callers holding it inside a larger value can use it. */
  lemma DateTextFaithful(lib: LibraryText, d: Date)
    requires Faithful(lib)
    ensures lib.readDate(lib.showDate(d)) == Some(d) && Token(lib.showDate(d))
  {
  }

  /** `Faithful` at one number. */
  lemma RealTextFaithful(lib: LibraryText, x: real)
    requires Faithful(lib) && lib.isDouble(x)
    ensures lib.readReal(lib.showReal(x)) == Some(x) && Token(lib.showReal(x))
  {
  }

  /** Whole numbers of any size, with an optional minus sign. */
  function ReadWhole(s: string): (r: Option<int>)
    ensures r.Some? ==> |s| >= 1
  {
    if |s| >= 2 && s[0] == '-' && AllDigits(s[1..]) then Some(0 - DigitsValue(s[1..]))
    else if |s| >= 1 && AllDigits(s) then Some(DigitsValue(s))
    else None
  }

  lemma ReadWholeText(n: int)
    ensures ReadWhole(IntText(n)) == Some(n)
  {
    if n < 0 {
      NatTextValue(-n);
      assert IntText(n)[1..] == NatText(-n);
    } else {
      NatTextValue(n);
      assert IntText(n)[0] != '-';
    }
  }

  /** A conversion that writes dates as their day number and numbers as
      whole numbers, holding only whole numbers: one that meets
      `Faithful`, and that holds every rating from 1 to 5. */
  function WholeText(): LibraryText
  {
    LibraryText(
      (d: Date) => IntText(d.epochDay),
      (s: string) => if ReadWhole(s).Some? then Some(Date(ReadWhole(s).value)) else None,
      (x: real) => IntText(x.Floor),
      (s: string) => if ReadWhole(s).Some? then Some(ReadWhole(s).value as real) else None,
      (x: real) => x == x.Floor as real)
  }

  lemma {:induction false} WholeTextFaithful()
    ensures Faithful(WholeText())
    ensures var lib := WholeText();
      lib.isDouble(1.0) && lib.isDouble(2.0) && lib.isDouble(3.0) && lib.isDouble(4.0) && lib.isDouble(5.0)
  {
    var lib := WholeText();
    forall d: Date
      ensures lib.readDate(lib.showDate(d)) == Some(d) && Token(lib.showDate(d))
    {
      ReadWholeText(d.epochDay);
      IntTextIsToken(d.epochDay);
    }
    forall x: real | lib.isDouble(x)
      ensures lib.readReal(lib.showReal(x)) == Some(x) && Token(lib.showReal(x))
    {
      ReadWholeText(x.Floor);
      IntTextIsToken(x.Floor);
    }
  }
}

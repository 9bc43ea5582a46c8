/** `parse_size` and `format_size` of `helpers.rs`, with the u64 overflow that
    the code checks. Upper-casing beyond ASCII is any mapping of a character to
    a string. */
module Sizes {
  import opened Basics

  const U64: nat := 0x1_0000_0000_0000_0000
  const KIB: nat := 1024
  const MIB: nat := 1024 * 1024
  const GIB: nat := 1024 * 1024 * 1024
  const TIB: nat := 1024 * 1024 * 1024 * 1024

  datatype SizeError = Empty | MissingNumber | Decimals | InvalidNumber | TooLarge | UnknownUnit

  // ----- reading -----

  function TrimLeft(s: string): string {
    if s != [] && IsSpace(s[0]) then TrimLeft(s[1..]) else s
  }

  function TrimRight(s: string): string {
    if s != [] && IsSpace(s[|s| - 1]) then TrimRight(s[..|s| - 1]) else s
  }

  /** `char::to_uppercase`: a string for each character. */
  type Casing = char -> string

  /** What every such mapping does to ASCII. */
  ghost predicate AsciiCasing(up: Casing) {
    forall c: char :: c as int < 128 ==> up(c) == [if 'a' <= c <= 'z' then (c as int - 32) as char else c]
  }

  function Upper(s: string, up: Casing): string {
    if s == [] then [] else up(s[0]) + Upper(s[1..], up)
  }

  function WithoutSpaces(s: string): string {
    if s == [] then [] else (if s[0] == ' ' then [] else [s[0]]) + WithoutSpaces(s[1..])
  }

  function Normalised(input: string, up: Casing): string { WithoutSpaces(Upper(TrimRight(TrimLeft(input)), up)) }

  /** Length of the leading run of digits. */
  function Digits(s: string): (n: nat)
    ensures n <= |s| && AllDigits(s[..n]) && (n < |s| ==> !IsDigit(s[n]))
  {
    if s == [] || !IsDigit(s[0]) then 0
    else
      assert forall i :: 1 <= i <= 1 + Digits(s[1..]) && i < |s| ==> s[i] == s[1..][i - 1];
      1 + Digits(s[1..])
  }

  /** Multiplier of a unit, if it is one. */
  function Unit(u: string): Option<nat> {
    if u in {"", "B"} then Some(1)
    else if u in {"KB", "KIB", "K"} then Some(KIB)
    else if u in {"MB", "MIB", "M"} then Some(MIB)
    else if u in {"GB", "GIB", "G"} then Some(GIB)
    else if u in {"TB", "TIB", "T"} then Some(TIB)
    else None
  }

  function CheckedMul(a: nat, b: nat): Result<nat, SizeError> {
    if a * b < U64 then Ok(a * b) else Err(TooLarge)
  }

  function ParseSize(input: string, up: Casing): Result<nat, SizeError> {
    var s := Normalised(input, up);
    if s == [] then Err(Empty)
    else
      var split := Digits(s);
      var number, unit := s[..split], s[split..];
      if number == [] then Err(MissingNumber)
      else if unit != [] && unit[0] == '.' then Err(Decimals)
      else if DecimalValue(number) >= U64 then Err(InvalidNumber)
      else match Unit(unit)
        case Some(m) => CheckedMul(DecimalValue(number), m)
        case None => Err(UnknownUnit)
  }

  /** A unit as the user writes it, and its power of 1024: nothing or B for
      bytes; a letter of KMGT alone, with B or with IB for the others. */
  ghost predicate UnitIs(u: string, p: nat) {
    (p == 0 && (u == "" || u == "B"))
    || (1 <= p <= 4 && (u == [Letter(p)] || u == [Letter(p), 'B'] || u == [Letter(p), 'I', 'B']))
  }

  function Letter(p: nat): char
    requires 1 <= p <= 4
  {
    "KMGT"[p - 1]
  }

  function Power1024(p: nat): (m: nat)
    ensures m >= 1
  {
    if p == 0 then 1 else 1024 * Power1024(p - 1)
  }

  lemma PowersUpToFour()
    ensures Power1024(0) == 1 && Power1024(1) == KIB && Power1024(2) == MIB && Power1024(3) == GIB && Power1024(4) == TIB
  {
    assert Power1024(1) == 1024 * Power1024(0);
    assert Power1024(2) == 1024 * Power1024(1);
    assert Power1024(3) == 1024 * Power1024(2);
    assert Power1024(4) == 1024 * Power1024(3);
  }

  lemma UnitPowers(u: string, p: nat)
    requires UnitIs(u, p)
    ensures Unit(u) == Some(Power1024(p))
  {
    PowersUpToFour();
  }

  /** The accepted units are these and no others. */
  lemma UnitsAre(u: string) returns (p: nat)
    ensures Unit(u).Some? ==> UnitIs(u, p)
  {
    p := if u in {"", "B"} then 0 else if u in {"KB", "KIB", "K"} then 1
      else if u in {"MB", "MIB", "M"} then 2 else if u in {"GB", "GIB", "G"} then 3 else 4;
  }

  /** Digits, a unit of power p, and their product. */
  ghost predicate Reads(s: string, p: nat, v: nat) {
    Digits(s) > 0 && UnitIs(s[Digits(s)..], p) && v == DecimalValue(s[..Digits(s)]) * Power1024(p)
  }

  /** Any `Ok` is the exact product of number and unit, below 2^64; and every
      text that is a number with a unit gets it unless the product overflows. */
  lemma {:induction false} ParseIsExact(input: string, up: Casing)
    ensures forall v: nat :: ParseSize(input, up) == Ok(v) <==> v < U64 && exists p: nat :: Reads(Normalised(input, up), p, v)
  {
    var s := Normalised(input, up);
    var n := Digits(s);
    forall p | UnitIs(s[n..], p)
      ensures Unit(s[n..]) == Some(Power1024(p))
    {
      UnitPowers(s[n..], p);
    }
    if Unit(s[n..]).Some? {
      var p := UnitsAre(s[n..]);
      assert s[n..] != [] ==> s[n..][0] != '.';
      MulAtLeast(DecimalValue(s[..n]), Power1024(p));
      assert n > 0 ==> Reads(s, p, DecimalValue(s[..n]) * Power1024(p));
    }
  }

  ghost predicate HasUnit(s: string) { exists p: nat :: UnitIs(s, p) }

  /** Which error a text gets: nothing left of it, no digit first, a point after
      the digits, a number beyond u64, no such unit, a product beyond u64. */
  lemma {:induction false} ParseErrors(input: string, up: Casing)
    ensures var s, r := Normalised(input, up), ParseSize(input, up);
            var n := Digits(s);
            var big, point := DecimalValue(s[..n]) >= U64, n < |s| && s[n] == '.';
            && (r == Err(Empty) <==> s == [])
            && (r == Err(MissingNumber) <==> s != [] && !IsDigit(s[0]))
            && (r == Err(Decimals) <==> n > 0 && point)
            && (r == Err(InvalidNumber) <==> n > 0 && !point && big)
            && (r == Err(UnknownUnit) <==> n > 0 && !point && !big && !HasUnit(s[n..]))
            && (r == Err(TooLarge) <==> !big && exists p: nat, v: nat :: Reads(s, p, v) && v >= U64)
  {
    var s := Normalised(input, up);
    var n := Digits(s);
    forall p | UnitIs(s[n..], p)
      ensures Unit(s[n..]) == Some(Power1024(p))
    {
      UnitPowers(s[n..], p);
    }
    if Unit(s[n..]).Some? {
      var p := UnitsAre(s[n..]);
      assert s[n..] != [] ==> s[n..][0] != '.';
      assert n > 0 ==> Reads(s, p, DecimalValue(s[..n]) * Power1024(p));
    }
  }

  ghost predicate Blank(s: string) { forall i :: 0 <= i < |s| ==> IsSpace(s[i]) }

  /** White space around the text does not matter. */
  lemma {:induction false} PaddingIgnored(a: string, text: string, b: string, up: Casing)
    requires Blank(a) && Blank(b)
    ensures ParseSize(a + text + b, up) == ParseSize(text, up)
    decreases |a| + |b|
  {
    if a != [] {
      assert (a + text + b)[1..] == a[1..] + text + b;
      PaddingIgnored(a[1..], text, b, up);
    } else if b != [] {
      var c := b[..|b| - 1];
      assert a + text + b == text + c + [b[|b| - 1]];
      LastSpaceIgnored(text + c, b[|b| - 1]);
      assert a + text + c == text + c;
      PaddingIgnored(a, text, c, up);
    } else {
      assert a + text + b == text;
    }
  }

  lemma {:induction false} LastSpaceIgnored(s: string, c: char)
    requires IsSpace(c)
    ensures TrimRight(TrimLeft(s + [c])) == TrimRight(TrimLeft(s))
  {
    if s == [] {
      assert [c][1..] == [];
    } else if IsSpace(s[0]) {
      assert (s + [c])[1..] == s[1..] + [c];
      LastSpaceIgnored(s[1..], c);
    } else {
      assert (s + [c])[..|s|] == s;
    }
  }

  lemma MulAtLeast(a: nat, m: nat)
    requires m >= 1
    ensures a * m >= a
  {
    assert a * m == a + a * (m - 1);
  }

  // ----- writing -----

  /** `{:.1}` of a quotient, whatever the rounding: tenths of a unit. */
  function OneDecimal(tenths: nat): string { Decimal(tenths / 10) + "." + Decimal(tenths % 10) }

  /** `tenths(bytes, unit)` is the rounding of the floating-point quotient. */
  function FormatSize(bytes: nat, tenths: (nat, nat) -> nat): string {
    if bytes > 0 && bytes % TIB == 0 then Decimal(bytes / TIB) + " TiB"
    else if bytes > 0 && bytes % GIB == 0 then Decimal(bytes / GIB) + " GiB"
    else if bytes > 0 && bytes % MIB == 0 then Decimal(bytes / MIB) + " MiB"
    else if bytes >= GIB then OneDecimal(tenths(bytes, GIB)) + " GiB"
    else if bytes >= MIB then OneDecimal(tenths(bytes, MIB)) + " MiB"
    else if bytes >= KIB then OneDecimal(tenths(bytes, KIB)) + " KiB"
    else Decimal(bytes) + " B"
  }

  /** The unit of a size that is no whole number of MiB. */
  function FractionUnit(p: nat): string
    requires 1 <= p <= 3
  {
    [' ', Letter(p), 'i', 'B']
  }

  /** Such a size is shown in the largest unit up to GiB that it reaches, with
      one decimal. */
  lemma {:induction false} FractionForm(bytes: nat, tenths: (nat, nat) -> nat, p: nat)
    requires bytes % MIB != 0 && 1 <= p <= 3 && Power1024(p) <= bytes && (p < 3 ==> bytes < Power1024(p + 1))
    ensures FormatSize(bytes, tenths) == OneDecimal(tenths(bytes, Power1024(p))) + FractionUnit(p)
  {
    PowersUpToFour();
    if bytes % TIB == 0 { TibDivides(bytes); } else if bytes % GIB == 0 { GibDivides(bytes); }
  }

  // ----- round trip -----

  lemma {:induction false} UpperConcat(a: string, b: string, up: Casing)
    ensures Upper(a + b, up) == Upper(a, up) + Upper(b, up)
  {
    if a == [] { assert a + b == b; }
    else { assert (a + b)[1..] == a[1..] + b; UpperConcat(a[1..], b, up); }
  }

  lemma {:induction false} WithoutSpacesConcat(a: string, b: string)
    ensures WithoutSpaces(a + b) == WithoutSpaces(a) + WithoutSpaces(b)
  {
    if a == [] { assert a + b == b; }
    else { assert (a + b)[1..] == a[1..] + b; WithoutSpacesConcat(a[1..], b); }
  }

  lemma {:induction false} DigitsSurvive(d: string, up: Casing)
    requires AllDigits(d) && AsciiCasing(up)
    ensures Upper(d, up) == d && WithoutSpaces(d) == d
  {
    if d != [] { DigitsSurvive(d[1..], up); }
  }

  lemma TrimsNothing(s: string)
    requires s != [] && !IsSpace(s[0]) && !IsSpace(s[|s| - 1])
    ensures TrimRight(TrimLeft(s)) == s
  {}

  /** What normalising does to a number, a point or space, and a unit. */
  lemma {:induction false} NormalisedParts(d: string, rest: string, up: Casing)
    requires AsciiCasing(up) && d != [] && AllDigits(d) && rest != [] && !IsSpace(rest[|rest| - 1])
    ensures Normalised(d + rest, up) == d + WithoutSpaces(Upper(rest, up))
  {
    TrimsNothing(d + rest);
    UpperConcat(d, rest, up);
    DigitsSurvive(d, up);
    WithoutSpacesConcat(d, Upper(rest, up));
  }

  lemma {:induction false} DigitsOf(d: string, rest: string)
    requires AllDigits(d) && (rest != [] ==> !IsDigit(rest[0]))
    ensures Digits(d + rest) == |d|
  {
    if d == [] {
      assert d + rest == rest;
    } else {
      assert (d + rest)[1..] == d[1..] + rest;
      DigitsOf(d[1..], rest);
    }
  }

  lemma WholeParses(n: nat, suffix: string, unit: string, m: nat, up: Casing)
    requires AsciiCasing(up) && suffix != [] && !IsSpace(suffix[|suffix| - 1]) && WithoutSpaces(Upper(suffix, up)) == unit
    requires unit != [] && !IsDigit(unit[0]) && unit[0] != '.' && m >= 1 && Unit(unit) == Some(m) && n * m < U64
    ensures ParseSize(Decimal(n) + suffix, up) == Ok(n * m)
  {
    NormalisedParts(Decimal(n), suffix, up);
    DigitsOf(Decimal(n), unit);
    DecimalRoundTrip(n);
    var s := Decimal(n) + unit;
    assert s[..|Decimal(n)|] == Decimal(n) && s[|Decimal(n)|..] == unit;
    MulAtLeast(n, m);
  }

  lemma FractionRejected(tenths: nat, suffix: string, up: Casing)
    requires AsciiCasing(up) && suffix != [] && !IsSpace(suffix[|suffix| - 1])
    ensures ParseSize(OneDecimal(tenths) + suffix, up) == Err(Decimals)
  {
    var d, tail := Decimal(tenths / 10), "." + (Decimal(tenths % 10) + suffix);
    assert OneDecimal(tenths) + suffix == d + tail;
    NormalisedParts(d, tail, up);
    var rest := WithoutSpaces(Upper(tail, up));
    assert up('.') == ".";
    assert tail[0] == '.' && rest[0] == '.';
    DigitsOf(d, rest);
    assert (d + rest)[|d|..] == rest;
  }

  /** ASCII text without small letters is upper case. */
  lemma {:induction false} UpperAscii(s: string, up: Casing)
    requires AsciiCasing(up) && forall i :: 0 <= i < |s| ==> s[i] as int < 128 && !('a' <= s[i] <= 'z')
    ensures Upper(s, up) == s
  {
    if s != [] { UpperAscii(s[1..], up); }
  }

  lemma SuffixB(up: Casing)
    requires AsciiCasing(up)
    ensures WithoutSpaces(Upper(" B", up)) == "B"
  {
    UpperAscii(" B", up);
  }

  /** `" XiB"` for an upper-case letter X normalises to `"XIB"`. */
  lemma SuffixIb(x: char, up: Casing)
    requires AsciiCasing(up) && 'A' <= x <= 'Z'
    ensures WithoutSpaces(Upper([' ', x, 'i', 'B'], up)) == [x, 'I', 'B']
  {
    UpperAscii([' ', x], up);
    UpperAscii("B", up);
    assert "iB"[1..] == "B" && up('i') == "I";
    assert Upper("iB", up) == "I" + "B";
    UpperConcat([' ', x], "iB", up);
    assert [' ', x] + "iB" == [' ', x, 'i', 'B'];
    WithoutSpacesConcat([' ', x], "IB");
    assert WithoutSpaces([' ', x]) == [x] && WithoutSpaces("IB") == "IB";
    assert [x] + "IB" == [x, 'I', 'B'];
  }

  /** A multiple of a larger unit is a multiple of 1 MiB. */
  lemma MultipleOfMib(bytes: nat, q: nat, k: nat)
    requires bytes == q * k * MIB
    ensures bytes % MIB == 0
  {
    var n := q * k;
    assert bytes == n * MIB;
  }

  lemma TibDivides(bytes: nat)
    requires bytes % TIB == 0
    ensures bytes / TIB * TIB == bytes && bytes % MIB == 0
  {
    MultipleOfMib(bytes, bytes / TIB, 0x100000);
  }

  lemma GibDivides(bytes: nat)
    requires bytes % GIB == 0
    ensures bytes / GIB * GIB == bytes && bytes % MIB == 0
  {
    MultipleOfMib(bytes, bytes / GIB, 1024);
  }

  lemma SmallRemainder(bytes: nat, unit: nat)
    requires bytes < unit
    ensures bytes % unit == bytes
  {}

  /** `parse_size` of a text. */
  ghost predicate ReadsAs(text: string, up: Casing, r: Result<nat, SizeError>) { ParseSize(text, up) == r }

  lemma WholeTib(n: nat, up: Casing)
    requires AsciiCasing(up) && n * TIB < U64
    ensures ReadsAs(Decimal(n) + " TiB", up, Ok(n * TIB))
  {
    SuffixIb('T', up);
    WholeParses(n, " TiB", "TIB", TIB, up);
  }

  lemma WholeGib(n: nat, up: Casing)
    requires AsciiCasing(up) && n * GIB < U64
    ensures ReadsAs(Decimal(n) + " GiB", up, Ok(n * GIB))
  {
    SuffixIb('G', up);
    WholeParses(n, " GiB", "GIB", GIB, up);
  }

  lemma WholeMib(n: nat, up: Casing)
    requires AsciiCasing(up) && n * MIB < U64
    ensures ReadsAs(Decimal(n) + " MiB", up, Ok(n * MIB))
  {
    SuffixIb('M', up);
    WholeParses(n, " MiB", "MIB", MIB, up);
  }

  lemma PlainBytes(n: nat, up: Casing)
    requires AsciiCasing(up) && n < U64
    ensures ReadsAs(Decimal(n) + " B", up, Ok(n))
  {
    SuffixB(up);
    WholeParses(n, " B", "B", 1, up);
  }

  /** Which of its forms `format_size` picks. */
  lemma FormsOfWholes(bytes: nat, tenths: (nat, nat) -> nat)
    requires bytes > 0 && bytes % MIB == 0
    ensures FormatSize(bytes, tenths) ==
      if bytes % TIB == 0 then Decimal(bytes / TIB) + " TiB"
      else if bytes % GIB == 0 then Decimal(bytes / GIB) + " GiB" else Decimal(bytes / MIB) + " MiB"
  {}

  lemma TibsReadBack(bytes: nat, up: Casing)
    requires AsciiCasing(up) && bytes < U64 && bytes % TIB == 0
    ensures ReadsAs(Decimal(bytes / TIB) + " TiB", up, Ok(bytes))
  {
    TibDivides(bytes);
    WholeTib(bytes / TIB, up);
  }

  lemma GibsReadBack(bytes: nat, up: Casing)
    requires AsciiCasing(up) && bytes < U64 && bytes % GIB == 0
    ensures ReadsAs(Decimal(bytes / GIB) + " GiB", up, Ok(bytes))
  {
    GibDivides(bytes);
    WholeGib(bytes / GIB, up);
  }

  lemma MibsReadBack(bytes: nat, up: Casing)
    requires AsciiCasing(up) && bytes < U64 && bytes % MIB == 0
    ensures ReadsAs(Decimal(bytes / MIB) + " MiB", up, Ok(bytes))
  {
    assert bytes / MIB * MIB == bytes;
    WholeMib(bytes / MIB, up);
  }

  lemma MultiplesReadBack(bytes: nat, tenths: (nat, nat) -> nat, up: Casing)
    requires AsciiCasing(up) && 0 < bytes < U64 && bytes % MIB == 0
    ensures ReadsAs(FormatSize(bytes, tenths), up, Ok(bytes))
  {
    FormsOfWholes(bytes, tenths);
    if bytes % TIB == 0 { TibsReadBack(bytes, up); }
    else if bytes % GIB == 0 { GibsReadBack(bytes, up); }
    else { MibsReadBack(bytes, up); }
  }

  lemma SmallReadBack(bytes: nat, tenths: (nat, nat) -> nat, up: Casing)
    requires AsciiCasing(up) && bytes < KIB
    ensures ReadsAs(FormatSize(bytes, tenths), up, Ok(bytes))
  {
    PlainBytes(bytes, up);
    SmallRemainder(bytes, TIB);
    SmallRemainder(bytes, GIB);
    SmallRemainder(bytes, MIB);
    assert FormatSize(bytes, tenths) == Decimal(bytes) + " B";
  }

  lemma OthersAreRejected(bytes: nat, tenths: (nat, nat) -> nat, up: Casing)
    requires AsciiCasing(up) && KIB <= bytes && bytes % MIB != 0
    ensures ReadsAs(FormatSize(bytes, tenths), up, Err(Decimals))
  {
    if bytes % TIB == 0 { TibDivides(bytes); } else if bytes % GIB == 0 { GibDivides(bytes); }
    if bytes >= GIB { FractionRejected(tenths(bytes, GIB), " GiB", up); }
    else if bytes >= MIB { FractionRejected(tenths(bytes, MIB), " MiB", up); }
    else { FractionRejected(tenths(bytes, KIB), " KiB", up); }
  }

  /** For every u64: what `format_size` prints is parsed back to the same number
      or rejected, never to another one; and it is parsed back exactly for
      values below 1 KiB and multiples of 1 MiB. */
  lemma SizeRoundTrip(bytes: nat, tenths: (nat, nat) -> nat, up: Casing)
    requires AsciiCasing(up) && bytes < U64
    ensures ReadsAs(FormatSize(bytes, tenths), up, if bytes < KIB || bytes % MIB == 0 then Ok(bytes) else Err(Decimals))
  {
    if bytes < KIB { SmallReadBack(bytes, tenths, up); }
    else if bytes % MIB == 0 { MultiplesReadBack(bytes, tenths, up); }
    else { OthersAreRejected(bytes, tenths, up); }
  }

  // ----- sizes on the QEMU command line -----

  /** `qemu_size_suffix` of `cmdline.rs`. */
  function QemuSizeSuffix(bytes: nat): string {
    if bytes % GIB == 0 then Decimal(bytes / GIB) + "G" else Decimal(bytes / MIB) + "M"
  }

  /** Read with the same powers of 1024, the argument is the size rounded down
      to 1 MiB: exact if and only if the size is a multiple of 1 MiB. */
  lemma QemuSizeRoundsDown(bytes: nat, up: Casing)
    requires AsciiCasing(up) && bytes < U64
    ensures ReadsAs(QemuSizeSuffix(bytes), up, Ok(bytes - bytes % MIB))
    ensures bytes - bytes % MIB == bytes <==> bytes % MIB == 0
  {
    if bytes % GIB == 0 { QemuGibs(bytes, up); } else { QemuMibs(bytes, up); }
  }

  lemma QemuGibs(bytes: nat, up: Casing)
    requires AsciiCasing(up) && bytes < U64 && bytes % GIB == 0
    ensures bytes % MIB == 0 && ReadsAs(Decimal(bytes / GIB) + "G", up, Ok(bytes))
  {
    GibDivides(bytes);
    UpperAscii("G", up);
    assert WithoutSpaces("G") == "G";
    WholeParses(bytes / GIB, "G", "G", GIB, up);
  }

  lemma QemuMibs(bytes: nat, up: Casing)
    requires AsciiCasing(up) && bytes < U64
    ensures ReadsAs(Decimal(bytes / MIB) + "M", up, Ok(bytes - bytes % MIB))
  {
    UpperAscii("M", up);
    assert WithoutSpaces("M") == "M";
    assert bytes / MIB * MIB == bytes - bytes % MIB;
    WholeParses(bytes / MIB, "M", "M", MIB, up);
  }
}

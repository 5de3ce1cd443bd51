/**
 What the octet normalisation of robots.txt patterns means (src/scraper/fetch.ts): the octets a text
 stands for, read off its characters by section 2.2.2 of RFC 9309, section 3 of RFC 3629 and
 section 2.3 of RFC 3986, and what each of them weighs.
 */
module RobotsMeaning {
  import opened Text
  import opened RobotsOctets

  // ----- characters -----

  const HEX := "0123456789ABCDEF"
  const LOWER_HEX := "0123456789abcdef"

  /** A hexadecimal digit has the value of its place among the sixteen, in either letter case, and is written back in upper case. */
  lemma HexIsExact(c: char, n: nat)
    requires n < 16
    ensures IsHex(c) && HexValue(c) == n <==> c == HEX[n] || c == LOWER_HEX[n]
    ensures HexDigit(n) == HEX[n]
    ensures IsHex(c) && HexValue(c) == n ==> UpperHex(c) == HEX[n]
    ensures IsUpperHex(HEX[n]) && (IsUpperHex(c) ==> IsHex(c) && c == HEX[HexValue(c)])
  {
  }

  /** The unreserved characters by their codes, as section 2.3 of RFC 3986 gives them. */
  lemma UnreservedIsExact(c: char)
    ensures var n := c as int;
            IsUnreserved(c) <==> 0x41 <= n <= 0x5A || 0x61 <= n <= 0x7A || 0x30 <= n <= 0x39 || n in {0x2D, 0x2E, 0x5F, 0x7E}
  {
  }

  predicate IsTail(b: nat) { 0x80 <= b <= 0xBF }

  /** The octet sequences of section 3 of RFC 3629, shortest forms only, each of one character. */
  lemma Utf8IsExact(c: char)
    ensures var n, b := c as int, Utf8(c);
            || (n < 0x80 && |b| == 1 && b[0] == n)
            || (0x80 <= n < 0x800 && |b| == 2 && 0xC2 <= b[0] <= 0xDF && IsTail(b[1]) && n == (b[0] - 0xC0) * 64 + (b[1] - 0x80))
            || (0x800 <= n < 0x1_0000 && |b| == 3 && 0xE0 <= b[0] <= 0xEF && IsTail(b[1]) && IsTail(b[2])
                && n == (b[0] - 0xE0) * 4096 + (b[1] - 0x80) * 64 + (b[2] - 0x80))
            || (0x1_0000 <= n && |b| == 4 && 0xF0 <= b[0] <= 0xF4 && IsTail(b[1]) && IsTail(b[2]) && IsTail(b[3])
                && n == (b[0] - 0xF0) * 262144 + (b[1] - 0x80) * 4096 + (b[2] - 0x80) * 64 + (b[3] - 0x80))
  {
    var n := c as int;
    assert n == n / 64 * 64 + n % 64;
    assert n / 64 == n / 64 / 64 * 64 + n / 64 % 64 && n / 64 / 64 == n / 4096;
    assert n / 4096 == n / 4096 / 64 * 64 + n / 4096 % 64 && n / 4096 / 64 == n / 262144;
  }

  // ----- the octets of a text -----

  /** One octet, and whether it has to be written as an escape. */
  datatype Octet = Octet(value: nat, escaped: bool)

  function EscapeValue(hi: char, lo: char): (n: nat)
    requires IsHex(hi) && IsHex(lo)
    ensures n < 256
  {
    HexValue(hi) * 16 + HexValue(lo)
  }

  /**
   The octets a text stands for.  An escape is its octet, plain when the octet is an unreserved
   character; another ASCII character is itself; any other character is its UTF-8 octets, escaped.
   */
  function Octets(s: string): seq<Octet> {
    if s == "" then []
    else if StartsEscape(s) then
      [Octet(EscapeValue(s[1], s[2]), !IsUnreserved(EscapeValue(s[1], s[2]) as char))] + Octets(s[3..])
    else if s[0] as int < 128 then [Octet(s[0] as int, false)] + Octets(s[1..])
    else Escapes(Utf8(s[0])) + Octets(s[1..])
  }

  function Escapes(bytes: seq<nat>): seq<Octet> {
    seq(|bytes|, i requires 0 <= i < |bytes| => Octet(bytes[i], true))
  }

  function UnitOctet(u: Unit): Octet {
    match u
    case Plain(c) => Octet(c as int, false)
    case Escaped(hi, lo) => if IsHex(hi) && IsHex(lo) then Octet(EscapeValue(hi, lo), true) else Octet(256, true)
  }

  function UnitOctets(us: seq<Unit>): seq<Octet> { seq(|us|, i requires 0 <= i < |us| => UnitOctet(us[i])) }

  lemma UnitOctetsJoin(a: seq<Unit>, b: seq<Unit>)
    ensures UnitOctets(a + b) == UnitOctets(a) + UnitOctets(b)
  {
  }

  lemma {:induction false} UnitsOfEscapes(bytes: seq<nat>, rest: string)
    requires forall i | 0 <= i < |bytes| :: 128 <= bytes[i] < 256
    ensures UnitOctets(Units(PercentEncode(bytes) + rest)) == Escapes(bytes) + UnitOctets(Units(rest))
  {
    var s := PercentEncode(bytes) + rest;
    if bytes == [] {
      assert s == rest;
    } else {
      var hi, lo := bytes[0] / 16, bytes[0] % 16;
      HexIsExact(HexDigit(hi), hi);
      HexIsExact(HexDigit(lo), lo);
      assert s[0] == '%' && s[1] == HexDigit(hi) && s[2] == HexDigit(lo) && s[3..] == PercentEncode(bytes[1..]) + rest;
      UnitsOfEscapes(bytes[1..], rest);
      var read := ReadEscape(s[1], s[2]);
      assert UnitOctet(read) == Octet(bytes[0], true);
      UnitOctetsJoin([read], Units(s[3..]));
      assert Escapes(bytes) == [Octet(bytes[0], true)] + Escapes(bytes[1..]);
    }
  }

  lemma AsciiTail(s: string, k: nat)
    requires k < |s| && s[k] as int < 128
    ensures ToAscii(s[k..]) == [s[k]] + ToAscii(s[k + 1..])
  {
    assert s[k..][1..] == s[k + 1..];
  }

  lemma AsciiStartsEscape(s: string)
    requires s != "" && s[0] as int < 128
    ensures StartsEscape(ToAscii(s)) <==> StartsEscape(s)
    ensures StartsEscape(s) ==> ToAscii(s) == s[..3] + ToAscii(s[3..])
  {
    AsciiTail(s, 0);
    FirstOfAscii(s[1..]);
    if |s| > 1 && IsHex(s[1]) {
      AsciiTail(s, 1);
      FirstOfAscii(s[2..]);
      if |s| > 2 && IsHex(s[2]) { AsciiTail(s, 2); }
    }
  }

  /** What a text begins with once it is ASCII. */
  lemma FirstOfAscii(s: string)
    ensures ToAscii(s) == "" <==> s == ""
    ensures s != "" ==> ToAscii(s)[0] == if s[0] as int < 128 then s[0] else '%'
  {
    if s != "" && s[0] as int >= 128 { Utf8IsExact(s[0]); }
  }

  lemma {:induction false} UnitsStandForOctets(s: string)
    ensures UnitOctets(Units(ToAscii(s))) == Octets(s)
  {
    if s != "" && s[0] as int >= 128 {
      Utf8IsExact(s[0]);
      UnitsOfEscapes(Utf8(s[0]), ToAscii(s[1..]));
      UnitsStandForOctets(s[1..]);
    } else if s != "" {
      AsciiStartsEscape(s);
      UnitsStandForOctets(if StartsEscape(s) then s[3..] else s[1..]);
      var text := ToAscii(s);
      if StartsEscape(s) {
        assert text[1] == s[1] && text[2] == s[2] && text[3..] == ToAscii(s[3..]);
        EscapeStandsForOctet(s[1], s[2]);
        UnitOctetsJoin([ReadEscape(s[1], s[2])], Units(text[3..]));
      } else {
        UnitOctetsJoin([Plain(s[0])], Units(text[1..]));
      }
    }
  }

  lemma EscapeStandsForOctet(hi: char, lo: char)
    requires IsHex(hi) && IsHex(lo)
    ensures UnitOctet(ReadEscape(hi, lo)) == Octet(EscapeValue(hi, lo), !IsUnreserved(EscapeValue(hi, lo) as char))
  {
    HexIsExact(hi, HexValue(hi));
    HexIsExact(lo, HexValue(lo));
    HexIsExact(UpperHex(hi), HexValue(hi));
    HexIsExact(UpperHex(lo), HexValue(lo));
  }

  // ----- what normalising keeps -----

  predicate IsWritten(u: Unit) { IsNormal(u) || u == Plain('%') }

  lemma OctetTellsDigits(hi: char, lo: char, n: nat)
    requires IsUpperHex(hi) && IsUpperHex(lo) && EscapeValue(hi, lo) == n
    ensures n < 256 && hi == HexDigit(n / 16) && lo == HexDigit(n % 16)
  {
    assert n / 16 == HexValue(hi) && n % 16 == HexValue(lo);
  }

  lemma OctetTellsUnit(u: Unit, v: Unit)
    requires IsWritten(u) && IsWritten(v) && UnitOctet(u) == UnitOctet(v)
    ensures u == v
  {
    if u.Escaped? && v.Escaped? {
      var n := UnitOctet(u).value;
      OctetTellsDigits(u.hi, u.lo, n);
      OctetTellsDigits(v.hi, v.lo, n);
    }
  }

  lemma OctetsTellUnits(us: seq<Unit>, vs: seq<Unit>)
    requires forall u | u in us + vs :: IsWritten(u)
    ensures UnitOctets(us) == UnitOctets(vs) <==> us == vs
  {
    if UnitOctets(us) == UnitOctets(vs) {
      assert |us| == |UnitOctets(vs)|;
      forall i | 0 <= i < |us| ensures us[i] == vs[i] {
        assert UnitOctets(us)[i] == UnitOctets(vs)[i];
        OctetTellsUnit(us[i], vs[i]);
      }
    }
  }

  /** Two well-escaped texts normalise alike exactly when they stand for the same octets. */
  lemma NormalFormIsOctets(a: string, b: string)
    requires WellEscaped(a) && WellEscaped(b)
    ensures Normalize(a) == Normalize(b) <==> Octets(a) == Octets(b)
  {
    NormalizeComparesOctets(a, b);
    UnitsStandForOctets(a);
    UnitsStandForOctets(b);
    ToAsciiIsAscii(a);
    ToAsciiIsAscii(b);
    UnitsAreNormal(ToAscii(a));
    UnitsAreNormal(ToAscii(b));
    OctetsTellUnits(Units(ToAscii(a)), Units(ToAscii(b)));
  }

  /** A normalised text stands for the octets of the text it came from. */
  lemma NormalFormKeepsOctets(value: string)
    requires WellEscaped(value)
    ensures Octets(Normalize(value)) == Octets(value)
    ensures IsAscii(Normalize(value)) && AllSettled(Normalize(value))
  {
    NormalUnits(value);
    UnitsStandForOctets(value);
    UnitsStandForOctets(Normalize(value));
    NormalizeIsIdempotent(value);
    IdempotentWhenSettled(value);
    ToAsciiIsAscii(value);
    NormalizeIsAscii(ToAscii(value));
  }

  // ----- what each character weighs -----

  /** An escape in upper case begins at p. */
  predicate EscapeAt(s: string, p: int) { 0 <= p && p + 2 < |s| && s[p] == '%' && s[p + 1] in HEX && s[p + 2] in HEX }

  /** The character at p weighs one: it is no star, no final anchor, and not inside an escape. */
  predicate Weighs(s: string, p: nat)
    requires p < |s|
  {
    s[p] != '*' && !(s[p] == '$' && p == |s| - 1) && !EscapeAt(s, p - 1) && !EscapeAt(s, p - 2)
  }

  function WeighedFrom(s: string, index: nat): set<nat> { set p: nat | index <= p < |s| && Weighs(s, p) }

  lemma UpperHexIsExact(c: char)
    ensures IsUpperHex(c) <==> c in HEX
  {
    if IsUpperHex(c) { HexIsExact(c, HexValue(c)); }
  }

  lemma OneWeighs(s: string, p: nat)
    requires p < |s|
    ensures |WeighedFrom(s, p)| == (if Weighs(s, p) then 1 else 0) + |WeighedFrom(s, p + 1)|
  {
    assert WeighedFrom(s, p) == (if Weighs(s, p) then {p} else {}) + WeighedFrom(s, p + 1);
  }

  lemma EscapeWeighsOne(s: string, p: nat)
    requires EscapeAt(s, p) && Weighs(s, p)
    ensures |WeighedFrom(s, p)| == 1 + |WeighedFrom(s, p + 3)|
  {
    OneWeighs(s, p);
    assert !Weighs(s, p + 1) && !Weighs(s, p + 2);
    OneWeighs(s, p + 1);
    OneWeighs(s, p + 2);
  }

  lemma EscapeStandsAlone(s: string, p: nat)
    requires EscapeAt(s, p)
    ensures IsUpperHex(s[p + 1]) && IsUpperHex(s[p + 2]) && !EscapeAt(s, p + 1) && !EscapeAt(s, p + 2)
  {
    UpperHexIsExact(s[p + 1]);
    UpperHexIsExact(s[p + 2]);
  }

  lemma NoEscapeThere(s: string, p: nat)
    requires p < |s| && !EscapeAt(s, p)
    ensures !(s[p] == '%' && p + 3 <= |s| && IsUpperHex(s[p + 1]) && IsUpperHex(s[p + 2]))
  {
    if p + 3 <= |s| {
      UpperHexIsExact(s[p + 1]);
      UpperHexIsExact(s[p + 2]);
    }
  }

  /** The weight of the rest of a text, from a place that is not inside an escape, is the number of characters that weigh. */
  lemma {:induction false} SpecificityIsExact(s: string, index: nat)
    requires index <= |s| && !EscapeAt(s, index - 1) && !EscapeAt(s, index - 2)
    ensures SpecificityFrom(s, index) == |WeighedFrom(s, index)|
    decreases |s| - index
  {
    if index == |s| {
      assert WeighedFrom(s, index) == {};
    } else {
      if EscapeAt(s, index) {
        EscapeStandsAlone(s, index);
        SpecificityIsExact(s, index + 3);
        EscapeWeighsOne(s, index);
      } else {
        NoEscapeThere(s, index);
        SpecificityIsExact(s, index + 1);
        OneWeighs(s, index);
      }
    }
  }

  /** A pattern weighs the characters of its normal form that are no star, no final anchor and not inside an escape. */
  lemma PatternWeight(pattern: string)
    ensures PatternSpecificity(pattern) == |WeighedFrom(Normalize(pattern), 0)|
  {
    SpecificityIsExact(Normalize(pattern), 0);
  }
}

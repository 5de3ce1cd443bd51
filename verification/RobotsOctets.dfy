/**
 Octet normalisation and specificity of robots.txt patterns (src/scraper/fetch.ts), section
 2.2.2 of RFC 9309: non-ASCII characters become percent-encoded octets, escapes of unreserved
 characters are decoded, and every other escape is written in upper case.
 */
module RobotsOctets {
  import opened Text
  import opened RobotsGlob

  predicate IsHex(c: char) { IsDigit(c) || 'a' <= c <= 'f' || 'A' <= c <= 'F' }

  predicate IsUpperHex(c: char) { IsDigit(c) || 'A' <= c <= 'F' }

  function HexValue(c: char): (n: nat)
    requires IsHex(c)
    ensures n < 16
  {
    if IsDigit(c) then c as int - '0' as int
    else if c <= 'F' then c as int - 'A' as int + 10
    else c as int - 'a' as int + 10
  }

  function HexDigit(n: nat): char
    requires n < 16
  {
    if n < 10 then ('0' as int + n) as char else ('A' as int + n - 10) as char
  }

  predicate IsUnreserved(c: char) {
    IsDigit(c) || 'a' <= c <= 'z' || 'A' <= c <= 'Z' || c == '.' || c == '_' || c == '~' || c == '-'
  }

  // ----- percent-encoding of non-ASCII characters -----

  function Utf8(c: char): (bytes: seq<nat>)
    ensures forall i | 0 <= i < |bytes| :: bytes[i] < 256
  {
    var n := c as int;
    if n < 0x80 then [n]
    else if n < 0x800 then [0xC0 + n / 64, 0x80 + n % 64]
    else if n < 0x1_0000 then [0xE0 + n / 4096, 0x80 + n / 64 % 64, 0x80 + n % 64]
    else [0xF0 + n / 262144, 0x80 + n / 4096 % 64, 0x80 + n / 64 % 64, 0x80 + n % 64]
  }

  function PercentEncode(bytes: seq<nat>): string
    requires forall i | 0 <= i < |bytes| :: bytes[i] < 256
  {
    if bytes == [] then ""
    else ['%', HexDigit(bytes[0] / 16), HexDigit(bytes[0] % 16)] + PercentEncode(bytes[1..])
  }

  function ToAscii(s: string): string {
    if s == "" then ""
    else (if s[0] as int <= 0x7F then [s[0]] else PercentEncode(Utf8(s[0]))) + ToAscii(s[1..])
  }

  // ----- the escape rewriting -----

  /** One character of the text, or one escape that has to stay an escape. */
  datatype Unit = Plain(c: char) | Escaped(hi: char, lo: char)

  predicate StartsEscape(s: string) { |s| >= 3 && s[0] == '%' && IsHex(s[1]) && IsHex(s[2]) }

  function UpperHex(c: char): char
    requires IsHex(c)
  {
    if 'a' <= c <= 'f' then (c as int - 32) as char else c
  }

  function ReadEscape(hi: char, lo: char): Unit
    requires IsHex(hi) && IsHex(lo)
  {
    var decoded := (HexValue(hi) * 16 + HexValue(lo)) as char;
    if IsUnreserved(decoded) then Plain(decoded) else Escaped(UpperHex(hi), UpperHex(lo))
  }

  function Units(s: string): seq<Unit> {
    if s == "" then []
    else if StartsEscape(s) then [ReadEscape(s[1], s[2])] + Units(s[3..])
    else [Plain(s[0])] + Units(s[1..])
  }

  function UnitText(u: Unit): string {
    match u
    case Plain(c) => [c]
    case Escaped(hi, lo) => ['%', hi, lo]
  }

  function Print(us: seq<Unit>): string {
    if us == [] then "" else UnitText(us[0]) + Print(us[1..])
  }

  function Normalize(value: string): string { Print(Units(ToAscii(value))) }

  /** Every `%` of the text begins a valid escape. */
  predicate WellEscaped(value: string) { Plain('%') !in Units(ToAscii(value)) }

  predicate IsNormal(u: Unit) {
    match u
    case Plain(c) => c != '%' && c as int < 128
    case Escaped(hi, lo) => IsUpperHex(hi) && IsUpperHex(lo) && ReadEscape(hi, lo) == u
  }

  lemma {:induction false} UnitsOfPrint(us: seq<Unit>)
    requires forall i | 0 <= i < |us| :: IsNormal(us[i])
    ensures Units(Print(us)) == us
  {
    if us != [] {
      var text, rest := UnitText(us[0]), Print(us[1..]);
      UnitsOfPrint(us[1..]);
      assert (text + rest)[|text|..] == rest;
    }
  }

  lemma {:induction false} UnitsAreNormal(s: string)
    requires IsAscii(s)
    ensures forall i | 0 <= i < |Units(s)| :: Units(s)[i] != Plain('%') ==> IsNormal(Units(s)[i])
  {
    if s != "" { UnitsAreNormal(if StartsEscape(s) then s[3..] else s[1..]); }
  }

  lemma {:induction false} PercentEncodeIsAscii(bytes: seq<nat>)
    requires forall i | 0 <= i < |bytes| :: bytes[i] < 256
    ensures IsAscii(PercentEncode(bytes))
  {
    if bytes != [] { PercentEncodeIsAscii(bytes[1..]); }
  }

  lemma {:induction false} ToAsciiIsAscii(s: string)
    ensures IsAscii(ToAscii(s))
  {
    if s != "" {
      ToAsciiIsAscii(s[1..]);
      PercentEncodeIsAscii(Utf8(s[0]));
    }
  }

  lemma {:induction false} ToAsciiKeepsAscii(s: string)
    requires IsAscii(s)
    ensures ToAscii(s) == s
  {
    if s != "" { ToAsciiKeepsAscii(s[1..]); }
  }

  lemma {:induction false} PrintIsAscii(us: seq<Unit>)
    requires forall i | 0 <= i < |us| :: IsNormal(us[i])
    ensures IsAscii(Print(us))
  {
    if us != [] { PrintIsAscii(us[1..]); }
  }

  lemma NormalUnits(value: string)
    requires WellEscaped(value)
    ensures Units(ToAscii(Normalize(value))) == Units(ToAscii(value))
  {
    ToAsciiIsAscii(value);
    UnitsAreNormal(ToAscii(value));
    UnitsOfPrint(Units(ToAscii(value)));
    PrintIsAscii(Units(ToAscii(value)));
    ToAsciiKeepsAscii(Normalize(value));
  }

  /** Normalising twice is normalising once, for text in which every `%` begins an escape. */
  lemma NormalizeIsIdempotent(value: string)
    requires WellEscaped(value)
    ensures Normalize(Normalize(value)) == Normalize(value)
  {
    NormalUnits(value);
  }

  /** The escape stays as it is: upper case, of an octet that is not an unreserved character. */
  predicate IsSettled(hi: char, lo: char)
    requires IsHex(hi) && IsHex(lo)
  {
    IsUpperHex(hi) && IsUpperHex(lo) && !IsUnreserved((HexValue(hi) * 16 + HexValue(lo)) as char)
  }

  predicate SettledAt(s: string, p: nat) {
    p + 2 < |s| && s[p] == '%' && IsHex(s[p + 1]) && IsHex(s[p + 2]) ==> IsSettled(s[p + 1], s[p + 2])
  }

  /** Every escape of the text stays as it is. */
  predicate AllSettled(s: string) { forall p: nat | p < |s| :: SettledAt(s, p) }

  lemma EscapeTextSettled(hi: char, lo: char)
    requires IsHex(hi) && IsHex(lo)
    ensures UnitText(ReadEscape(hi, lo)) == ['%', hi, lo] <==> IsSettled(hi, lo)
    ensures UnitText(ReadEscape(hi, lo))[0] == '%' <==> |UnitText(ReadEscape(hi, lo))| == 3
  {
    var decoded := (HexValue(hi) * 16 + HexValue(lo)) as char;
    if IsUnreserved(decoded) { assert decoded != '%'; }
  }

  lemma {:induction false} RewritingSettled(s: string)
    ensures Print(Units(s)) == s <==> AllSettled(s)
  {
    if StartsEscape(s) {
      EscapeTextSettled(s[1], s[2]);
      RewritingSettled(s[3..]);
      if IsSettled(s[1], s[2]) { SettledLater(s, 3); } else { assert !SettledAt(s, 0); }
      var text, rest := UnitText(ReadEscape(s[1], s[2])), Print(Units(s[3..]));
      assert s == s[..3] + s[3..] && s[..3] == ['%', s[1], s[2]];
      assert Print(Units(s)) == text + rest;
      if text + rest == s {
        assert text[0] == s[0];
        assert text == s[..3] && rest == s[3..];
      }
    } else if s != "" {
      RewritingSettled(s[1..]);
      SettledLater(s, 1);
      assert Print(Units(s)) == [s[0]] + Print(Units(s[1..]));
      assert s == [s[0]] + s[1..];
    }
  }

  lemma SettledLater(s: string, k: nat)
    requires k <= |s| && forall p: nat | p < k :: SettledAt(s, p)
    ensures AllSettled(s) <==> AllSettled(s[k..])
  {
    forall p: nat | k <= p < |s| ensures SettledAt(s, p) <==> SettledAt(s[k..], p - k) {
    }
    if AllSettled(s) {
      forall p: nat | p < |s[k..]| ensures SettledAt(s[k..], p) { assert SettledAt(s, p + k); }
    }
    if AllSettled(s[k..]) {
      forall p: nat | p < |s| ensures SettledAt(s, p) { if p >= k { assert SettledAt(s[k..], p - k); } }
    }
  }

  lemma {:induction false} NormalizeIsAscii(s: string)
    requires IsAscii(s)
    ensures IsAscii(Print(Units(s)))
  {
    if s != "" {
      UnitsAreNormal(s);
      NormalizeIsAscii(if StartsEscape(s) then s[3..] else s[1..]);
    }
  }

  /** For any text, normalising twice is normalising once exactly when no escape of the result could be rewritten. */
  lemma IdempotentWhenSettled(value: string)
    ensures Normalize(Normalize(value)) == Normalize(value) <==> AllSettled(Normalize(value))
  {
    ToAsciiIsAscii(value);
    NormalizeIsAscii(ToAscii(value));
    ToAsciiKeepsAscii(Normalize(value));
    RewritingSettled(Normalize(value));
  }

  lemma StrayPercentUnits()
    ensures Units("%%34%31") == [Plain('%'), Plain('4'), Plain('1')]
  {
    assert "%%34%31"[1..] == "%34%31" && "%34%31"[3..] == "%31";
    assert Units("%31") == [Plain('1')];
    assert Units("%34%31") == [Plain('4'), Plain('1')];
  }

  lemma StrayPercentText()
    ensures Print([Plain('%'), Plain('4'), Plain('1')]) == "%41"
  {
    assert Print([Plain('1')]) == "1";
    assert Print([Plain('4'), Plain('1')]) == "41";
  }

  lemma StrayPercentNormalized()
    ensures Normalize("%%34%31") == "%41"
  {
    ToAsciiKeepsAscii("%%34%31");
    StrayPercentUnits();
    StrayPercentText();
  }

  lemma EscapeNormalized()
    ensures Normalize("%41") == "A"
  {
    ToAsciiKeepsAscii("%41");
    assert Units("%41") == [Plain('A')];
    assert Print([Plain('A')]) == "A";
  }

  /** A stray `%` can combine with decoded digits into a new escape. */
  lemma StrayPercentIsNotIdempotent()
    ensures Normalize(Normalize("%%34%31")) != Normalize("%%34%31")
  {
    StrayPercentNormalized();
    EscapeNormalized();
  }

  /** Two texts normalise alike exactly when they hold the same octets, escaped alike. */
  lemma NormalizeComparesOctets(a: string, b: string)
    requires WellEscaped(a) && WellEscaped(b)
    ensures Normalize(a) == Normalize(b) <==> Units(ToAscii(a)) == Units(ToAscii(b))
  {
    NormalUnits(a);
    NormalUnits(b);
  }

  // ----- specificity -----

  /** The weight of s[index..]: wildcards and a final anchor weigh nothing, an escape weighs one. */
  function SpecificityFrom(s: string, index: nat): nat
    requires index <= |s|
    decreases |s| - index
  {
    if index == |s| then 0
    else if s[index] == '*' then SpecificityFrom(s, index + 1)
    else if s[index] == '$' && index == |s| - 1 then SpecificityFrom(s, index + 1)
    else if s[index] == '%' && index + 3 <= |s| && IsUpperHex(s[index + 1]) && IsUpperHex(s[index + 2]) then
      1 + SpecificityFrom(s, index + 3)
    else 1 + SpecificityFrom(s, index + 1)
  }

  function PatternSpecificity(pattern: string): nat { SpecificityFrom(Normalize(pattern), 0) }

  method RobotsPatternSpecificity(pattern: string) returns (specificity: nat)
    ensures specificity == PatternSpecificity(pattern)
  {
    var normalized := Normalize(pattern);
    specificity := 0;
    var index := 0;
    while index < |normalized|
      invariant 0 <= index <= |normalized|
      invariant specificity + SpecificityFrom(normalized, index) == PatternSpecificity(pattern)
    {
      if normalized[index] == '*' {
      } else if normalized[index] == '$' && index == |normalized| - 1 {
      } else if normalized[index] == '%' && index + 3 <= |normalized|
                && IsUpperHex(normalized[index + 1]) && IsUpperHex(normalized[index + 2]) {
        specificity := specificity + 1;
        index := index + 2;
      } else {
        specificity := specificity + 1;
      }
      index := index + 1;
    }
  }

  /** How many octets of the pattern are neither a star nor a final anchor. */
  function OctetCount(us: seq<Unit>): nat {
    if us == [] then 0
    else (if us[0] == Plain('*') || us == [Plain('$')] then 0 else 1) + OctetCount(us[1..])
  }

  lemma {:induction false} SpecificityOfPrint(us: seq<Unit>, before: string)
    requires forall i | 0 <= i < |us| :: IsNormal(us[i])
    ensures SpecificityFrom(before + Print(us), |before|) == OctetCount(us)
  {
    var s := before + Print(us);
    if us == [] {
      assert |s| == |before|;
    } else {
      var text := UnitText(us[0]);
      SpecificityOfPrint(us[1..], before + text);
      assert s == before + text + Print(us[1..]);
      assert s[|before|] == text[0];
      PrintLength(us[1..]);
      if us[0].Escaped? {
        assert s[|before| + 1] == us[0].hi && s[|before| + 2] == us[0].lo;
      }
    }
  }

  lemma {:induction false} PrintLength(us: seq<Unit>)
    ensures |Print(us)| >= |us|
  {
    if us != [] { PrintLength(us[1..]); }
  }

  /** Specificity counts octets, as section 2.2.2 of RFC 9309 asks of the longest match. */
  lemma SpecificityCountsOctets(pattern: string)
    requires WellEscaped(pattern)
    ensures PatternSpecificity(pattern) == OctetCount(Units(ToAscii(pattern)))
  {
    ToAsciiIsAscii(pattern);
    UnitsAreNormal(ToAscii(pattern));
    SpecificityOfPrint(Units(ToAscii(pattern)), "");
    assert "" + Normalize(pattern) == Normalize(pattern);
  }

  // ----- the matcher on raw text -----

  ghost predicate PatternMatches(pattern: string, path: string) {
    RuleMatches(Normalize(pattern), Normalize(path))
  }

  method RobotsPatternMatches(pattern: string, path: string) returns (matches: bool)
    ensures matches <==> PatternMatches(pattern, path)
  {
    var normalizedPattern, normalizedPath := Normalize(pattern), Normalize(path);
    BodyMeansRule(normalizedPattern, normalizedPath);
    matches := MatchBody(Body(normalizedPattern), normalizedPath);
  }
}

/**
 Human codes and page addresses in full (src/shared/class-key.ts): how a text is cut into tokens, what
 becomes of each token, which texts are refused and why, and which part of an address is the key.
 */
module ClassCodes {
  import opened Text
  import opened ClassKey

  // ----- identifiers -----

  function Number(digits: string): nat
    requires AllDigits(digits)
  {
    if digits == "" then 0 else Number(digits[..|digits| - 1]) * 10 + (digits[|digits| - 1] as int - '0' as int)
  }

  /** `padded` is the digits of `raw` behind zeros, at least three in all; anything but digits is as it was. */
  predicate IsPadded(raw: string, padded: string) {
    if !AllDigits(raw) then padded == raw
    else
      && |padded| == (if |raw| < 3 then 3 else |raw|)
      && padded[|padded| - |raw|..] == raw && forall i | 0 <= i < |padded| - |raw| :: padded[i] == '0'
  }

  lemma {:induction false} ZerosKeepNumber(digits: string, n: nat)
    requires AllDigits(digits) && n <= |digits| && forall i | 0 <= i < n :: digits[i] == '0'
    ensures Number(digits) == Number(digits[n..])
    decreases |digits|
  {
    var m := |digits| - 1;
    if n == |digits| {
      if n > 0 { ZerosKeepNumber(digits[..m], m); }
    } else if n > 0 {
      ZerosKeepNumber(digits[..m], n);
      assert digits[n..][..m - n] == digits[..m][n..] && digits[n..][m - n] == digits[m];
    } else {
      assert digits[0..] == digits;
    }
  }

  /** An identifier of digits keeps its number, with zeros in front up to three digits; any other is kept as it is, and what is too long or not alphanumeric refused. */
  lemma IdentifiersArePadded(raw: string)
    ensures var id := CatalogIdentifier(raw);
            && (id == "" <==> !(1 <= |raw| <= 8 && AllAlnum(raw)))
            && (id != "" ==> IsPadded(raw, id))
            && (id != "" && AllDigits(raw) ==> AllDigits(id) && Number(id) == Number(raw))
  {
    var id := CatalogIdentifier(raw);
    if id != "" {
      PadIsPadded(raw);
      if AllDigits(raw) { ZerosKeepNumber(id, |id| - |raw|); }
    }
  }

  lemma PadIsPadded(raw: string)
    requires raw != ""
    ensures IsPadded(raw, PadIdentifier(raw)) && (AllDigits(raw) ==> AllDigits(PadIdentifier(raw)))
  {
    if |raw| == 1 { assert ("00" + raw)[2..] == raw; }
    if |raw| == 2 { assert ("0" + raw)[1..] == raw; }
    assert raw[0..] == raw;
  }

  // ----- tokens -----

  /** White space, hyphens, slashes and commas separate tokens. */
  predicate IsGap(s: string) { forall i | 0 <= i < |s| :: IsSpace(s[i]) || s[i] == '-' || s[i] == '/' || s[i] == ',' }

  predicate HasGap(s: string) { exists i | 0 <= i < |s| :: IsSpace(s[i]) || s[i] == '-' || s[i] == '/' || s[i] == ',' }

  predicate IsToken(s: string) { s != "" && !HasGap(s) }

  /** The text is a gap, then a token that a gap or the end follows, and so on; the first gap and the last may be empty. */
  ghost predicate IsCutInto(text: string, tokens: seq<string>)
    decreases |tokens|
  {
    if tokens == [] then IsGap(text)
    else exists i, j :: IsFirst(text, i, j, tokens[0]) && IsCutInto(text[j..], tokens[1..])
  }

  predicate IsFirst(text: string, i: int, j: int, token: string) {
    && 0 <= i < j <= |text| && IsGap(text[..i]) && text[i..j] == token && IsToken(token) && (j < |text| ==> IsGap([text[j]]))
  }

  lemma TakesFirst(text: string, i: int, j: int, token: string)
    requires IsFirst(text, i, j, token)
    ensures Tokens(text) == [token] + Tokens(text[j..])
  {
    SkipsGap(text, i);
    var rest := text[i..];
    assert rest[..j - i] == token && rest[j - i..] == text[j..];
    assert j < |text| ==> rest[j - i] == text[j];
    TakesToken(rest, j - i);
  }

  lemma SkipsGap(text: string, i: nat)
    requires i <= |text| && IsGap(text[..i])
    ensures Tokens(text) == Tokens(text[i..])
  {
    assert text == text[..i] + text[i..];
    TokensSkip(text[..i], text[i..]);
  }

  lemma TakesToken(text: string, j: nat)
    requires 0 < j <= |text| && IsToken(text[..j]) && (j < |text| ==> IsGap([text[j]]))
    ensures Tokens(text) == [text[..j]] + Tokens(text[j..])
  {
    assert forall k | 0 <= k < j :: text[..j][k] == text[k];
    if j < |text| {
      assert [text[j]][0] == text[j];
      TokenLengthIs(text, j);
    } else {
      assert TokenLength(text) == j;
    }
  }

  /** The tokens of a text are what it is cut into. */
  lemma {:induction false} TokensAreCut(text: string, tokens: seq<string>)
    ensures IsCutInto(text, tokens) <==> Tokens(text) == tokens
    decreases |text|, |tokens|
  {
    if IsCutInto(text, tokens) { CutIsTokens(text, tokens); }
    if Tokens(text) == tokens { TokensCut(text); }
  }

  lemma {:induction false} CutIsTokens(text: string, tokens: seq<string>)
    requires IsCutInto(text, tokens)
    ensures Tokens(text) == tokens
    decreases |tokens|
  {
    if tokens == [] {
      assert text[..|text|] == text;
      SkipsGap(text, |text|);
    } else {
      var i, j :| IsFirst(text, i, j, tokens[0]) && IsCutInto(text[j..], tokens[1..]);
      TakesFirst(text, i, j, tokens[0]);
      CutIsTokens(text[j..], tokens[1..]);
    }
  }

  lemma FirstToken(text: string) returns (i: nat)
    ensures i <= |text| && IsGap(text[..i]) && (i < |text| ==> !IsSeparator(text[i]))
  {
    i := 0;
    while i < |text| && IsSeparator(text[i])
      invariant i <= |text| && IsGap(text[..i])
    {
      assert text[..i + 1] == text[..i] + [text[i]];
      i := i + 1;
    }
  }

  lemma FirstIsCut(text: string, i: nat) returns (j: nat)
    requires i < |text| && IsGap(text[..i]) && !IsSeparator(text[i])
    ensures i < j <= |text| && IsFirst(text, i, j, text[i..j])
  {
    var n := TokenLength(text[i..]);
    j := i + n;
    assert text[i..][0] == text[i];
    assert forall k | 0 <= k < n :: text[i..j][k] == text[i..][k];
    assert j < |text| ==> text[i..][n] == text[j];
  }

  lemma {:induction false} TokensCut(text: string)
    ensures IsCutInto(text, Tokens(text))
    decreases |text|
  {
    var i := FirstToken(text);
    if i == |text| {
      assert text[..i] == text;
      SkipsGap(text, i);
    } else {
      var j := FirstIsCut(text, i);
      TakesFirst(text, i, j, text[i..j]);
      TokensCut(text[j..]);
      var tokens := [text[i..j]] + Tokens(text[j..]);
      assert tokens[1..] == Tokens(text[j..]);
      assert IsFirst(text, i, j, tokens[0]) && IsCutInto(text[j..], tokens[1..]);
    }
  }

  // ----- the components -----

  /** Sixteen names are known. */
  lemma ComponentsAreListed()
    ensures AliasOf("lec") == AliasOf("lecture") == "lec" && AliasOf("dis") == AliasOf("discussion") == "dis"
    ensures AliasOf("lab") == AliasOf("laboratory") == "lab" && AliasOf("sem") == AliasOf("seminar") == "sem"
    ensures AliasOf("fld") == AliasOf("field") == "fld" && AliasOf("ind") == AliasOf("independent") == "ind"
    ensures AliasOf("stu") == AliasOf("studio") == "stu" && AliasOf("wbn") == AliasOf("webinar") == "wbn"
  {
  }

  /** Another name of two to eight letters stands for itself. */
  lemma OthersStandForThemselves(token: string)
    ensures token !in {"lec", "lecture", "dis", "discussion", "lab", "laboratory", "sem", "seminar", "fld", "field", "ind",
                       "independent", "stu", "studio", "wbn", "webinar", "constructor", "__proto__"} ==>
              AliasOf(token) == if 2 <= |token| <= 8 && AllLetters(token) then token else ""
  {
  }

  // ----- what a code says, and why one is refused -----

  predicate IsTerm(t: seq<string>) {
    |t| >= 6 && |t[0]| == 4 && AllDigits(t[0]) && (t[1] == "fall" || t[1] == "spring" || t[1] == "summer")
  }

  predicate IsCatalogName(s: string) { 1 <= |s| <= 32 && AllAlnum(s) }

  predicate IsCatalogNumber(s: string) { 1 <= |s| <= 8 && AllAlnum(s) }

  predicate IsSection(t: seq<string>)
    requires |t| >= 6
  {
    IsCatalogName(t[2]) && IsCatalogName(t[3]) && IsCatalogNumber(t[4])
  }

  /** The fields a code stands for; without a component number it is the first. */
  predicate StandsFor(t: seq<string>, f: seq<string>)
    requires 6 <= |t| <= 7
  {
    && |f| == 7 && f[..4] == t[..4] && IsPadded(t[4], f[4]) && f[5] == AliasOf(t[5])
    && if |t| == 7 then IsPadded(t[6], f[6]) else f[6] == "001"
  }

  lemma PaddedIsOne(raw: string, a: string, b: string)
    requires IsPadded(raw, a) && IsPadded(raw, b)
    ensures a == b
  {
    if AllDigits(raw) {
      var n := |a| - |raw|;
      assert a == a[..n] + a[n..] && b == b[..n] + b[n..];
      assert a[..n] == b[..n];
    }
  }

  /**
   A code of six or seven tokens that names a term, a section and a component gives the key of the
   fields it stands for.  It is not recognised without a term or a component, or with an eighth token;
   any other token that does not fit makes it invalid, as do the two names the alias table inherits.
   */
  lemma CodesAreExact(text: string, t: seq<string>)
    requires IsCutInto(text, t)
    ensures NormalizeHumanCode(text).Ok? <==>
              IsTerm(t) && |t| <= 7 && IsSection(t) && AliasOf(t[5]) != "" && t[5] !in INHERITED && (|t| == 7 ==> IsCatalogNumber(t[6]))
    ensures NormalizeHumanCode(text).Ok? ==> exists f :: StandsFor(t, f) && AreKeyFields(f) && NormalizeHumanCode(text).key == Join(f, "-")
    ensures NormalizeHumanCode(text) == Rejected(UnrecognizedFormat) <==>
              !IsTerm(t) || (IsSection(t) && (AliasOf(t[5]) == "" || (|t| > 7 && IsCatalogNumber(t[6]))))
    ensures NormalizeHumanCode(text) != Rejected(Empty)
  {
    TokensAreCut(text, t);
    TokensAreRead(t);
    if ReadTokens(t).0 != [] {
      FinalCheckCatchesInheritedNames(t);
      ReadFieldsShape(t);
      FieldsStand(t);
    }
  }

  lemma TokensAreRead(t: seq<string>)
    ensures var (fields, reason) := ReadTokens(t);
            && (fields != [] <==> IsTerm(t) && |t| <= 7 && IsSection(t) && AliasOf(t[5]) != "" && (|t| == 7 ==> IsCatalogNumber(t[6])))
            && (fields != [] ==> reason == InvalidField) && reason != Empty
            && (fields == [] ==> (reason == UnrecognizedFormat <==>
                  !IsTerm(t) || (IsSection(t) && (AliasOf(t[5]) == "" || (|t| > 7 && IsCatalogNumber(t[6]))))))
  {
    if |t| >= 6 { CatalogIds(t[4]); }
    if |t| >= 7 { CatalogIds(t[6]); }
  }

  lemma CatalogIds(raw: string)
    ensures CatalogIdentifier(raw) == "" <==> !IsCatalogNumber(raw)
  {
    IdentifiersArePadded(raw);
  }

  lemma FieldsStand(t: seq<string>)
    requires ReadTokens(t).0 != []
    ensures 6 <= |t| <= 7 && StandsFor(t, ReadTokens(t).0)
  {
    IdentifiersArePadded(t[4]);
    if |t| == 7 { IdentifiersArePadded(t[6]); }
    var f := ReadTokens(t).0;
    assert f[..4] == [t[0], t[1], t[2], t[3]] == t[..4];
  }

  // ----- whole inputs -----

  lemma TrimIsWithin(s: string)
    requires IsAscii(s)
    ensures IsAscii(Trim(s)) && |Trim(s)| <= |s| && forall c :: c in Trim(s) ==> c in s
  {
    StartIsWithin(s);
    EndIsWithin(TrimStart(s));
  }

  lemma {:induction false} StartIsWithin(s: string)
    requires IsAscii(s)
    ensures IsAscii(TrimStart(s)) && |TrimStart(s)| <= |s| && forall c :: c in TrimStart(s) ==> c in s
  {
    if s != "" && IsSpace(s[0]) { StartIsWithin(s[1..]); }
  }

  lemma {:induction false} EndIsWithin(s: string)
    requires IsAscii(s)
    ensures IsAscii(TrimEnd(s)) && |TrimEnd(s)| <= |s| && forall c :: c in TrimEnd(s) ==> c in s
    decreases |s|
  {
    if s != "" && IsSpace(s[|s| - 1]) { EndIsWithin(s[..|s| - 1]); }
  }

  /** What is too long is invalid, what is blank empty, whatever else it says. */
  lemma LimitsAreChecked(lower: string -> string, input: string)
    ensures Utf16Length(input) > 512 ==> Normalize(lower, input) == Rejected(InvalidField)
    ensures Utf16Length(input) <= 512 && Trim(input) == "" ==> Normalize(lower, input) == Rejected(Empty)
  {
  }

  /** A path segment `content` begins at q, in any letter case. */
  predicate HasMarker(raw: string, q: nat) {
    q + 8 <= |raw| && AsciiLower(raw[q..q + 8]) == "content/" && (q == 0 || raw[q - 1] == '/')
  }

  lemma {:induction false} MarkerIsToken(text: string, q: nat)
    requires q + 8 <= |text| && text[q..q + 8] == "content/" && (q == 0 || text[q - 1] == '/')
    ensures "content" in Tokens(text)
    decreases |text|
  {
    var n := TokenLength(text);
    if q == 0 {
      ContentComesFirst(text);
    } else if n == 0 {
      assert text[1..][q - 1..q + 7] == text[q..q + 8];
      MarkerIsToken(text[1..], q - 1);
    } else {
      assert n <= q - 1;
      assert text[n..][q - n..q - n + 8] == text[q..q + 8] && text[n..][q - n - 1] == text[q - 1];
      MarkerIsToken(text[n..], q - n);
      assert Tokens(text) == [text[..n]] + Tokens(text[n..]);
    }
  }

  lemma ContentIsToken()
    ensures IsToken("content") && IsGap("/")
  {
  }

  lemma ContentComesFirst(text: string)
    requires 8 <= |text| && text[0..8] == "content/"
    ensures "content" in Tokens(text)
  {
    assert text[0..7] == text[0..8][..7] == "content" && text[7] == text[0..8][7];
    ContentIsToken();
    assert IsFirst(text, 0, 7, "content");
    TakesFirst(text, 0, 7, "content");
  }

  lemma SlugHasMarker(raw: string, p: nat)
    requires p < |raw| && SlugAt(raw, p) != ""
    ensures HasMarker(raw, 0) || HasMarker(raw, p + 1)
  {
    if p == 0 && SlugAfterMarker(raw) != "" {
      assert raw[..8] == raw[0..8];
    } else {
      assert raw[p + 1..][..8] == raw[p + 1..p + 9];
    }
  }

  lemma {:induction false} NoMarkerNoSlug(raw: string, p: nat)
    requires forall q: nat :: !HasMarker(raw, q)
    ensures ContentSlugFrom(raw, p) == ""
    decreases |raw| - p
  {
    if p < |raw| {
      if SlugAt(raw, p) != "" { SlugHasMarker(raw, p); }
      NoMarkerNoSlug(raw, p + 1);
    }
  }

  lemma NoContentNoMarker(raw: string)
    requires "content" !in Tokens(AsciiLower(raw))
    ensures forall q: nat :: !HasMarker(raw, q)
  {
    forall q: nat ensures !HasMarker(raw, q) {
      if HasMarker(raw, q) {
        assert AsciiLower(raw)[q..q + 8] == AsciiLower(raw[q..q + 8]);
        assert q > 0 ==> AsciiLower(raw)[q - 1] == LowerChar(raw[q - 1]) == '/';
        MarkerIsToken(AsciiLower(raw), q);
      }
    }
  }

  /** The parts of a code are fit for the key they stand for. */
  lemma StandingFits(t: seq<string>, f: seq<string>)
    requires 6 <= |t| <= 7 && StandsFor(t, f) && AreKeyFields(f) && forall i | 0 <= i < |t| :: t[i] != ""
    ensures IsTerm(t) && IsSection(t) && AliasOf(t[5]) != "" && t[5] !in INHERITED && (|t| == 7 ==> IsCatalogNumber(t[6]))
  {
    assert forall i | 0 <= i < 4 :: f[i] == f[..4][i] == t[..4][i] == t[i];
    AliasShape(t[5]);
    PaddedFits(t[4], f[4]);
    if |t| == 7 { PaddedFits(t[6], f[6]); }
  }

  lemma PaddedFits(raw: string, id: string)
    requires raw != "" && IsPadded(raw, id) && IsIdentifier(id)
    ensures IsCatalogNumber(raw)
  {
    if AllDigits(raw) { assert AllAlnum(raw); }
  }

  /**
   A code in ASCII, its tokens cut by any white space, hyphens, slashes and commas, in any letter case,
   with or without leading zeros and with a component number or without: it gives the key it stands
   for, unless the text is itself a key, and then that one.  A token `content` before a slash would
   make it an address.
   */
  lemma CodeReadsBack(lower: string -> string, input: string, t: seq<string>, f: seq<string>)
    requires LowersAscii(lower) && IsAscii(input) && |input| <= 512
    requires IsCutInto(AsciiLower(Trim(input)), t) && 6 <= |t| <= 7 && StandsFor(t, f) && AreKeyFields(f)
    requires '/' !in input || "content" !in t
    ensures var text := AsciiLower(Trim(input)); Normalize(lower, input) == Ok(if IsCanonical(text) then text else Join(f, "-"))
  {
    var trimmed := Trim(input);
    var text := AsciiLower(trimmed);
    Utf16LengthAscii(input);
    TrimIsWithin(input);
    TokensAreCut(text, t);
    if "content" !in t {
      NoContentNoMarker(trimmed);
      NoMarkerNoSlug(trimmed, 0);
    } else {
      NoSlashNoSlug(trimmed, 0);
    }
    assert lower(trimmed) == text;
    if !IsCanonical(text) { CodeStands(text, t, f); }
  }

  lemma CodeStands(text: string, t: seq<string>, f: seq<string>)
    requires IsCutInto(text, t) && 6 <= |t| <= 7 && StandsFor(t, f) && AreKeyFields(f)
    ensures NormalizeHumanCode(text) == Ok(Join(f, "-"))
  {
    TokensAreCut(text, t);
    TokensAreFull(text);
    StandingFits(t, f);
    CodesAreExact(text, t);
    var g :| StandsFor(t, g) && AreKeyFields(g) && NormalizeHumanCode(text).key == Join(g, "-");
    StandsForOne(t, f, g);
  }

  lemma StandsForOne(t: seq<string>, f: seq<string>, g: seq<string>)
    requires 6 <= |t| <= 7 && StandsFor(t, f) && StandsFor(t, g)
    ensures f == g
  {
    PaddedIsOne(t[4], f[4], g[4]);
    if |t| == 7 { PaddedIsOne(t[6], f[6], g[6]); }
    assert f == f[..4] + [f[4], f[5], f[6]] && g == g[..4] + [g[4], g[5], g[6]];
  }

  lemma {:induction false} TokensAreFull(text: string)
    ensures forall i | 0 <= i < |Tokens(text)| :: Tokens(text)[i] != ""
    decreases |text|
  {
    var n := TokenLength(text);
    if text != "" { TokensAreFull(if n == 0 then text[1..] else text[n..]); }
  }

  // ----- addresses -----

  predicate EndsAddress(c: char) { c == '/' || c == '?' || c == '#' || IsSpace(c) }

  /** The first `content/` of a path, with something behind it, begins at q, and that something ends at e. */
  predicate IsAddress(raw: string, q: nat, e: nat) {
    && HasMarker(raw, q) && q + 8 < e <= |raw| && (forall i | q + 8 <= i < e :: !EndsAddress(raw[i])) && (e < |raw| ==> EndsAddress(raw[e]))
    && forall p | 0 <= p < q :: HasMarker(raw, p) ==> EndsAddress(raw[p + 8])
  }

  lemma {:induction false} RunEnds(s: string, n: nat)
    requires n <= |s| && (forall i | 0 <= i < n :: !EndsAddress(s[i])) && (n < |s| ==> EndsAddress(s[n]))
    ensures SlugRun(s) == s[..n]
  {
    if n > 0 {
      RunEnds(s[1..], n - 1);
      assert s[..n] == [s[0]] + s[1..][..n - 1];
    }
  }

  lemma MarkerSlug(raw: string, q: nat, e: nat)
    requires q + 8 <= e <= |raw| && AsciiLower(raw[q..q + 8]) == "content/"
    requires (forall i | q + 8 <= i < e :: !EndsAddress(raw[i])) && (e < |raw| ==> EndsAddress(raw[e]))
    ensures SlugAfterMarker(raw[q..]) == raw[q + 8..e]
  {
    assert raw[q..][..8] == raw[q..q + 8] && raw[q..][8..] == raw[q + 8..];
    RunEnds(raw[q + 8..], e - q - 8);
    assert raw[q + 8..][..e - q - 8] == raw[q + 8..e];
  }

  lemma NoSlugBefore(raw: string, q: nat, e: nat, p: nat)
    requires IsAddress(raw, q, e) && p < |raw| && p + 1 < q
    ensures SlugAt(raw, p) == ""
  {
    if HasMarker(raw, 0) { MarkerSlug(raw, 0, 8); assert raw[0..] == raw; }
    if HasMarker(raw, p + 1) { MarkerSlug(raw, p + 1, p + 9); }
    if SlugAt(raw, p) != "" { SlugHasMarker(raw, p); }
  }

  lemma AddressSlug(raw: string, q: nat, e: nat)
    requires IsAddress(raw, q, e)
    ensures ContentSlugFrom(raw, 0) == raw[q + 8..e]
  {
    MarkerSlug(raw, q, e);
    if q == 0 {
      assert raw[0..] == raw;
    } else {
      forall p | 0 <= p < q - 1 ensures SlugAt(raw, p) == "" { NoSlugBefore(raw, q, e, p); }
      if q > 1 { SkipTo(raw, 0, q - 1); }
      if q == 1 && HasMarker(raw, 0) { assert raw[0..8][0] == raw[0]; }
      assert SlugAt(raw, q - 1) == raw[q + 8..e];
    }
  }

  /** An address is read for what follows its first `content/`, up to a slash, a query or a fragment: a key in any letter case, or nothing we know. */
  lemma AddressReadsBack(lower: string -> string, input: string, q: nat, e: nat)
    requires LowersAscii(lower) && IsAscii(input) && |input| <= 512 && IsAddress(Trim(input), q, e)
    ensures var slug := AsciiLower(Trim(input)[q + 8..e]);
            Normalize(lower, input) == if IsCanonical(slug) then Ok(slug) else Rejected(UnrecognizedFormat)
  {
    var trimmed := Trim(input);
    Utf16LengthAscii(input);
    TrimIsWithin(input);
    AddressSlug(trimmed, q, e);
    assert IsAscii(trimmed[q + 8..e]);
  }
}

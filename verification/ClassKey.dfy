/**
 The canonical class key and its normaliser (src/shared/class-key.ts).

 A key is seven hyphen-separated fields; the normaliser accepts the key itself, a page URL
 ending in `content/<key>`, or a human code, and answers with the one canonical key.
 */
module ClassKey {
  import opened Text

  const COMPONENT_MAX_LENGTH := 32
  const IDENTIFIER_MAX_LENGTH := 8
  const INPUT_MAX_LENGTH := 512
  const KEY_MAX_LENGTH := 104
  const PAGE_PREFIX := "https://classes.berkeley.edu/content/"

  datatype Reason = Empty | UnrecognizedFormat | InvalidField
  datatype NormalizeResult = Ok(key: string) | Rejected(reason: Reason)

  // ----- the canonical pattern -----

  predicate AllDigits(s: string) { forall i | 0 <= i < |s| :: IsDigit(s[i]) }

  predicate AllLetters(s: string) { forall i | 0 <= i < |s| :: IsLetter(s[i]) }

  predicate AllAlnum(s: string) { forall i | 0 <= i < |s| :: IsAlnum(s[i]) }

  predicate IsSeason(s: string) { s == "fall" || s == "spring" || s == "summer" }

  predicate IsSlug(s: string) { 1 <= |s| <= COMPONENT_MAX_LENGTH && AllAlnum(s) }

  /** Three to eight digits, or one to eight alphanumerics with a letter among them. */
  predicate IsIdentifier(s: string) {
    || (3 <= |s| <= 8 && AllDigits(s))
    || (1 <= |s| <= IDENTIFIER_MAX_LENGTH && AllAlnum(s) && !AllDigits(s))
  }

  predicate IsComponent(s: string) { 2 <= |s| <= 8 && AllLetters(s) }

  predicate AreKeyFields(f: seq<string>) {
    && |f| == 7
    && |f[0]| == 4 && AllDigits(f[0])
    && IsSeason(f[1])
    && IsSlug(f[2])
    && IsSlug(f[3])
    && IsIdentifier(f[4])
    && IsComponent(f[5])
    && IsIdentifier(f[6])
  }

  /** `CLASS_KEY_PATTERN.test`: no field can hold a hyphen, so the pattern cuts at hyphens. */
  predicate IsCanonical(key: string) { AreKeyFields(Split(key, '-')) }

  function ClassPageUrl(key: string): string { PAGE_PREFIX + key }

  // ----- URL form -----

  predicate EndsSlug(c: char) { c == '/' || c == '?' || c == '#' || IsSpace(c) }

  function SlugRun(s: string): (r: string)
    ensures r <= s
  {
    if s == "" || EndsSlug(s[0]) then "" else [s[0]] + SlugRun(s[1..])
  }

  /** The slug when `content/<slug>` starts at s, the marker in any ASCII case. */
  function SlugAfterMarker(s: string): string {
    if |s| > 8 && AsciiLower(s[..8]) == "content/" then SlugRun(s[8..]) else ""
  }

  function SlugAt(raw: string, p: nat): string
    requires p < |raw|
  {
    if p == 0 && SlugAfterMarker(raw) != "" then SlugAfterMarker(raw)
    else if raw[p] == '/' then SlugAfterMarker(raw[p + 1..])
    else ""
  }

  /** The leftmost match of the slug expression at or after p; "" when there is none. */
  function ContentSlugFrom(raw: string, p: nat): string
    decreases |raw| - p
  {
    if p >= |raw| then ""
    else if SlugAt(raw, p) != "" then SlugAt(raw, p)
    else ContentSlugFrom(raw, p + 1)
  }

  // ----- human form -----

  const COMPONENT_ALIASES: map<string, string> := map[
    "lec" := "lec", "lecture" := "lec", "dis" := "dis", "discussion" := "dis",
    "lab" := "lab", "laboratory" := "lab", "sem" := "sem", "seminar" := "sem",
    "fld" := "fld", "field" := "fld", "ind" := "ind", "independent" := "ind",
    "stu" := "stu", "studio" := "stu", "wbn" := "wbn", "webinar" := "wbn"]

  /**
   The properties a plain object inherits whose names survive lower-casing, with the text a
   template literal gives them.  The alias lookup is an ordinary property read, so it finds
   these too.
   */
  const INHERITED: map<string, string> := map[
    "constructor" := "function Object() { [native code] }",
    "__proto__" := "[object Object]"]

  function AliasOf(token: string): string {
    if token in COMPONENT_ALIASES then COMPONENT_ALIASES[token]
    else if token in INHERITED then INHERITED[token]
    else if IsComponent(token) then token
    else ""
  }

  predicate IsSeparator(c: char) { IsSpace(c) || c == '-' || c == '/' || c == ',' }

  function TokenLength(s: string): (n: nat)
    ensures n <= |s| && forall i | 0 <= i < n :: !IsSeparator(s[i])
    ensures n < |s| ==> IsSeparator(s[n])
  {
    if s == "" || IsSeparator(s[0]) then 0 else 1 + TokenLength(s[1..])
  }

  /** Splitting on runs of separators and dropping the empty pieces. */
  function Tokens(s: string): seq<string>
    decreases |s|
  {
    var n := TokenLength(s);
    if s == "" then [] else if n == 0 then Tokens(s[1..]) else [s[..n]] + Tokens(s[n..])
  }

  function PadIdentifier(raw: string): string {
    if |raw| == 1 && AllDigits(raw) then "00" + raw
    else if |raw| == 2 && AllDigits(raw) then "0" + raw
    else raw
  }

  /** "" stands for the source's null: the identifier is refused. */
  function CatalogIdentifier(raw: string): string {
    if 1 <= |raw| <= IDENTIFIER_MAX_LENGTH && AllAlnum(raw) then PadIdentifier(raw) else ""
  }

  /** The fields read off the tokens, before the final pattern check. */
  function ReadTokens(t: seq<string>): (r: (seq<string>, Reason)) {
    if |t| < 6 then ([], UnrecognizedFormat)
    else if |t[0]| != 4 || !AllDigits(t[0]) then ([], UnrecognizedFormat)
    else if !IsSeason(t[1]) then ([], UnrecognizedFormat)
    else if !IsSlug(t[2]) then ([], InvalidField)
    else if !IsSlug(t[3]) then ([], InvalidField)
    else if CatalogIdentifier(t[4]) == "" then ([], InvalidField)
    else if AliasOf(t[5]) == "" then ([], UnrecognizedFormat)
    else if |t| >= 7 && CatalogIdentifier(t[6]) == "" then ([], InvalidField)
    else if |t| > 7 then ([], UnrecognizedFormat)
    else
      var number := if |t| == 7 then CatalogIdentifier(t[6]) else "001";
      ([t[0], t[1], t[2], t[3], CatalogIdentifier(t[4]), AliasOf(t[5]), number], InvalidField)
  }

  function NormalizeHumanCode(lowered: string): NormalizeResult {
    var (fields, reason) := ReadTokens(Tokens(lowered));
    if fields == [] then Rejected(reason)
    else
      var key := Join(fields, "-");
      if IsCanonical(key) then Ok(key) else Rejected(reason)
  }

  function Normalize(lower: string -> string, input: string): NormalizeResult {
    if Utf16Length(input) > INPUT_MAX_LENGTH then Rejected(InvalidField)
    else
      var trimmed := Trim(input);
      if trimmed == "" then Rejected(Empty)
      else
        var slug := ContentSlugFrom(trimmed, 0);
        NormalizeLowered(lower(if slug != "" then slug else trimmed), slug != "")
  }

  function NormalizeLowered(lowered: string, fromUrl: bool): NormalizeResult {
    if IsCanonical(lowered) then Ok(lowered)
    else if fromUrl then Rejected(UnrecognizedFormat)
    else NormalizeHumanCode(lowered)
  }

  // ----- the pattern as a language -----

  /** A key is canonical exactly when it is seven good fields joined by hyphens. */
  lemma CanonicalIsJoinedFields(key: string)
    ensures IsCanonical(key) <==> exists f :: AreKeyFields(f) && key == Join(f, "-")
  {
    JoinSplit(key, '-');
    if f :| AreKeyFields(f) && key == Join(f, "-") {
      FieldsHaveNoHyphen(f);
      SplitJoin(f, '-');
    }
  }

  lemma FieldsHaveNoHyphen(f: seq<string>)
    requires AreKeyFields(f)
    ensures forall i | 0 <= i < |f| :: '-' !in f[i]
  {
  }

  /** The length of a joined text, between the totals of any per-field bounds. */
  lemma {:induction false} JoinLength(f: seq<string>, lo: seq<nat>, hi: seq<nat>)
    requires |f| == |lo| == |hi| >= 1
    requires forall i | 0 <= i < |f| :: lo[i] <= |f[i]| <= hi[i]
    ensures Total(lo) + |f| - 1 <= |Join(f, "-")| <= Total(hi) + |f| - 1
  {
    if |f| > 1 { JoinLength(f[1..], lo[1..], hi[1..]); }
  }

  function Total(ns: seq<nat>): nat {
    if ns == [] then 0 else ns[0] + Total(ns[1..])
  }

  /** The characters of a joined text are those of its parts and of the separator. */
  lemma {:induction false} JoinChars(f: seq<string>, sep: string, c: char)
    requires |f| >= 1
    ensures c in Join(f, sep) ==> c in sep || exists i :: 0 <= i < |f| && c in f[i]
  {
    if |f| > 1 {
      JoinChars(f[1..], sep, c);
      if c in Join(f[1..], sep) && c !in sep {
        var i :| 0 <= i < |f[1..]| && c in f[1..][i];
        assert f[i + 1] == f[1..][i];
      }
    }
  }

  lemma {:induction false} PartInJoin(f: seq<string>, sep: string, i: nat, c: char)
    requires i < |f| && c in f[i]
    ensures c in Join(f, sep)
  {
    if i > 0 { PartInJoin(f[1..], sep, i - 1, c); }
  }

  lemma CanonicalLength(key: string)
    requires IsCanonical(key)
    ensures 20 <= |key| <= KEY_MAX_LENGTH
  {
    var f := Split(key, '-');
    JoinSplit(key, '-');
    JoinLength(f, [4, 4, 1, 1, 1, 2, 1], [4, 6, 32, 32, 8, 8, 8]);
    assert Total([4, 4, 1, 1, 1, 2, 1]) == 14 by { TotalOfSeven(4, 4, 1, 1, 1, 2, 1); }
    assert Total([4, 6, 32, 32, 8, 8, 8]) == 98 by { TotalOfSeven(4, 6, 32, 32, 8, 8, 8); }
  }

  lemma TotalOfSeven(a: nat, b: nat, c: nat, d: nat, e: nat, f: nat, g: nat)
    ensures Total([a, b, c, d, e, f, g]) == a + b + c + d + e + f + g
  {
    assert [f, g][1..] == [g] && Total([g]) == g;
    assert [e, f, g][1..] == [f, g] && Total([f, g]) == f + g;
    assert [d, e, f, g][1..] == [e, f, g] && Total([e, f, g]) == e + f + g;
    assert [c, d, e, f, g][1..] == [d, e, f, g] && Total([d, e, f, g]) == d + e + f + g;
    assert [b, c, d, e, f, g][1..] == [c, d, e, f, g] && Total([c, d, e, f, g]) == c + d + e + f + g;
    assert [a, b, c, d, e, f, g][1..] == [b, c, d, e, f, g];
  }

  lemma FieldChars(f: seq<string>, i: nat, c: char)
    requires AreKeyFields(f) && i < |f| && c in f[i]
    ensures IsAlnum(c)
  {
    var j :| 0 <= j < |f[i]| && f[i][j] == c;
  }

  lemma CanonicalChars(key: string)
    requires IsCanonical(key)
    ensures forall i | 0 <= i < |key| :: IsAlnum(key[i]) || key[i] == '-'
  {
    var f := Split(key, '-');
    JoinSplit(key, '-');
    forall i | 0 <= i < |key| ensures IsAlnum(key[i]) || key[i] == '-' {
      CanonicalChar(f, key[i]);
    }
  }

  lemma CanonicalChar(f: seq<string>, c: char)
    requires AreKeyFields(f) && c in Join(f, "-")
    ensures IsAlnum(c) || c == '-'
  {
    JoinChars(f, "-", c);
    if c != '-' {
      var i :| 0 <= i < |f| && c in f[i];
      FieldChars(f, i, c);
    }
  }

  // ----- what a successful normalisation means -----

  lemma CanonicalReadsBack(lower: string -> string, key: string)
    requires LowersAscii(lower) && IsCanonical(key)
    ensures Normalize(lower, key) == Ok(key)
  {
    CanonicalLength(key);
    CanonicalChars(key);
    Utf16LengthAscii(key);
    assert Trim(key) == key;
    NoSlashNoSlug(key, 0);
    assert AsciiLower(key) == key;
  }

  lemma {:induction false} NoSlashNoSlug(raw: string, p: nat)
    requires '/' !in raw
    ensures ContentSlugFrom(raw, p) == ""
    decreases |raw| - p
  {
    if p < |raw| {
      if p == 0 && |raw| > 8 {
        assert AsciiLower(raw[..8])[7] == LowerChar(raw[7]);
      }
      NoSlashNoSlug(raw, p + 1);
    }
  }

  /**
   Every accepted input, of whatever form, gives a canonical key of bounded length that
   normalises to itself.
   */
  lemma NormalizeIsSound(lower: string -> string, input: string)
    requires LowersAscii(lower)
    requires Normalize(lower, input).Ok?
    ensures IsCanonical(Normalize(lower, input).key)
    ensures |Normalize(lower, input).key| <= KEY_MAX_LENGTH
    ensures Normalize(lower, Normalize(lower, input).key) == Normalize(lower, input)
  {
    var key := Normalize(lower, input).key;
    CanonicalLength(key);
    CanonicalReadsBack(lower, key);
  }

  // ----- URL round trip -----

  lemma SkipTo(raw: string, p: nat, q: nat)
    requires p <= q < |raw|
    requires forall i | p <= i < q :: SlugAt(raw, i) == ""
    ensures ContentSlugFrom(raw, p) == ContentSlugFrom(raw, q)
  {
    forall i | p <= i < q ensures ContentSlugFrom(raw, i) == ContentSlugFrom(raw, i + 1) {
      SkipOne(raw, i);
    }
    Chain((i: nat) => ContentSlugFrom(raw, i), p, q);
  }

  lemma {:induction false} Chain(f: nat -> string, p: nat, q: nat)
    requires p <= q && forall i | p <= i < q :: f(i) == f(i + 1)
    ensures f(p) == f(q)
    decreases q - p
  {
    if p < q { Chain(f, p + 1, q); }
  }

  lemma SkipOne(raw: string, p: nat)
    requires p < |raw| && SlugAt(raw, p) == ""
    ensures ContentSlugFrom(raw, p) == ContentSlugFrom(raw, p + 1)
  {
  }

  lemma {:induction false} WholeRun(s: string)
    requires forall i | 0 <= i < |s| :: !EndsSlug(s[i])
    ensures SlugRun(s) == s
  {
    if s != "" { WholeRun(s[1..]); }
  }

  lemma PagePrefixShape()
    ensures |PAGE_PREFIX| == 37 && IsAscii(PAGE_PREFIX) && PAGE_PREFIX[0] == 'h'
    ensures PAGE_PREFIX[28] == '/' && PAGE_PREFIX[29..37] == "content/"
    ensures forall i | 0 <= i < 28 :: PAGE_PREFIX[i] == '/' ==> i == 6 || i == 7
    ensures PAGE_PREFIX[7] == '/' && PAGE_PREFIX[9] == 'l'
  {
  }

  lemma NotAMarker(raw: string, q: nat)
    requires q + 1 < |raw|
    requires LowerChar(raw[q]) != 'c' || LowerChar(raw[q + 1]) != 'o'
    ensures SlugAfterMarker(raw[q..]) == ""
  {
    if |raw[q..]| > 8 {
      var folded := AsciiLower(raw[q..][..8]);
      assert folded[0] == LowerChar(raw[q]) && folded[1] == LowerChar(raw[q + 1]);
    }
  }

  lemma TrimKeeps(s: string)
    requires s != "" && !IsSpace(s[0]) && !IsSpace(s[|s| - 1])
    ensures Trim(s) == s
  {
  }

  lemma PageUrlSlug(key: string)
    requires key != ""
    requires forall i | 0 <= i < |key| :: !EndsSlug(key[i])
    ensures ContentSlugFrom(ClassPageUrl(key), 0) == key
  {
    var url := ClassPageUrl(key);
    PagePrefixShape();
    forall i | 0 <= i < 28 ensures SlugAt(url, i) == "" {
      NotAMarker(url, 0);
      if url[i] == '/' { NotAMarker(url, i + 1); }
    }
    SkipTo(url, 0, 28);
    assert url[29..37] == "content/" && url[29..][..8] == url[29..37];
    assert AsciiLower("content/") == "content/";
    assert url[29..][8..] == key;
    WholeRun(key);
  }

  lemma CanonicalLowers(lower: string -> string, key: string)
    requires LowersAscii(lower) && IsCanonical(key)
    ensures NormalizeLowered(lower(key), true) == NormalizeLowered(lower(key), false) == Ok(key)
  {
    CanonicalChars(key);
    assert AsciiLower(key) == key;
  }

  lemma PageUrlText(key: string)
    requires IsCanonical(key)
    ensures var url := ClassPageUrl(key); Utf16Length(url) <= INPUT_MAX_LENGTH && Trim(url) == url
  {
    CanonicalLength(key);
    CanonicalChars(key);
    PagePrefixShape();
    Utf16LengthAscii(ClassPageUrl(key));
    TrimKeeps(ClassPageUrl(key));
  }

  /** The page URL of a key normalises to that key. */
  lemma UrlRoundTrip(lower: string -> string, key: string)
    requires LowersAscii(lower) && IsCanonical(key)
    ensures Normalize(lower, ClassPageUrl(key)) == Ok(key)
  {
    PageUrlText(key);
    CanonicalLength(key);
    CanonicalChars(key);
    PageUrlSlug(key);
    CanonicalLowers(lower, key);
  }

  // ----- the final check of the human form -----

  lemma AliasShape(token: string)
    requires AliasOf(token) != ""
    ensures token !in INHERITED ==> IsComponent(AliasOf(token))
    ensures token in INHERITED ==> ' ' in AliasOf(token)
  {
    if token in COMPONENT_ALIASES {
    } else if token in INHERITED {
      assert "function Object() { [native code] }"[8] == ' ' && "[object Object]"[7] == ' ';
    }
  }

  lemma ReadFieldsShape(tokens: seq<string>)
    requires ReadTokens(tokens).0 != []
    ensures |tokens| >= 6 && |ReadTokens(tokens).0| == 7
    ensures tokens[5] !in INHERITED ==> AreKeyFields(ReadTokens(tokens).0)
    ensures tokens[5] in INHERITED ==> ' ' in ReadTokens(tokens).0[5]
  {
    AliasShape(tokens[5]);
    IdentifierShape(tokens[4]);
    if |tokens| == 7 { IdentifierShape(tokens[6]); }
  }

  lemma IdentifierShape(raw: string)
    ensures CatalogIdentifier(raw) != "" ==> IsIdentifier(CatalogIdentifier(raw))
    ensures IsIdentifier(raw) ==> CatalogIdentifier(raw) == raw
  {
  }

  /**
   Whatever survives the token checks is canonical, except when the component token names an
   inherited property: those two names are all the final check ever catches.
   */
  lemma FinalCheckCatchesInheritedNames(tokens: seq<string>)
    requires ReadTokens(tokens).0 != []
    ensures IsCanonical(Join(ReadTokens(tokens).0, "-")) <==> tokens[5] !in INHERITED
  {
    var f := ReadTokens(tokens).0;
    ReadFieldsShape(tokens);
    if tokens[5] !in INHERITED {
      CanonicalIsJoinedFields(Join(f, "-"));
    } else if IsCanonical(Join(f, "-")) {
      PartInJoin(f, "-", 5, ' ');
      CanonicalChars(Join(f, "-"));
      assert false;
    }
  }

  // ----- the human form of a canonical key -----

  /** White space or commas: separators that cannot make the text look like a URL. */
  predicate IsSpacing(sep: string) {
    sep != "" && forall i | 0 <= i < |sep| :: IsSpace(sep[i]) || sep[i] == ','
  }

  lemma {:induction false} TokensSkip(sep: string, rest: string)
    requires forall i | 0 <= i < |sep| :: IsSeparator(sep[i])
    ensures Tokens(sep + rest) == Tokens(rest)
  {
    if sep == "" {
      assert sep + rest == rest;
    } else {
      TokensSkip(sep[1..], rest);
      assert (sep + rest)[1..] == sep[1..] + rest;
    }
  }

  lemma {:induction false} TokensOfJoin(f: seq<string>, sep: string)
    requires |f| >= 1 && IsSpacing(sep)
    requires forall i | 0 <= i < |f| :: f[i] != "" && AllAlnum(f[i])
    ensures Tokens(Join(f, sep)) == f
  {
    var s := Join(f, sep);
    if |f| == 1 {
      assert TokenLength(s) == |s| && s[..|s|] == s && s[|s|..] == "";
      assert Tokens(s) == [s] + Tokens("");
    } else {
      var rest := Join(f[1..], sep);
      assert s == f[0] + (sep + rest);
      TokenLengthIs(s, |f[0]|);
      assert s[..|f[0]|] == f[0] && s[|f[0]|..] == sep + rest;
      TokensSkip(sep, rest);
      TokensOfJoin(f[1..], sep);
    }
  }

  lemma TokenLengthIs(s: string, n: nat)
    requires n < |s| && IsSeparator(s[n])
    requires forall i | 0 <= i < n :: !IsSeparator(s[i])
    ensures TokenLength(s) == n
  {
  }

  lemma ReadKeyFields(f: seq<string>)
    requires AreKeyFields(f)
    ensures var g := f[5 := AliasOf(f[5])]; AreKeyFields(g) && ReadTokens(f).0 == g
  {
    IdentifierShape(f[4]);
    IdentifierShape(f[6]);
    AliasShape(f[5]);
  }

  lemma JoinIsInjective(f: seq<string>, g: seq<string>)
    requires AreKeyFields(f) && AreKeyFields(g) && Join(f, "-") == Join(g, "-")
    ensures f == g
  {
    FieldsHaveNoHyphen(f);
    FieldsHaveNoHyphen(g);
    SplitJoin(f, '-');
    SplitJoin(g, '-');
  }

  lemma SpacedIsHumanCode(f: seq<string>, sep: string)
    requires AreKeyFields(f) && IsSpacing(sep)
    ensures NormalizeLowered(Join(f, sep), false) == Ok(Join(f[5 := AliasOf(f[5])], "-"))
  {
    var s := Join(f, sep);
    TokensOfJoin(f, sep);
    ReadKeyFields(f);
    CanonicalIsJoinedFields(Join(f[5 := AliasOf(f[5])], "-"));
    assert s[|f[0]|] == sep[0];
    if IsCanonical(s) { CanonicalChars(s); }
  }

  lemma SpacedText(input: string, f: seq<string>, sep: string)
    requires AreKeyFields(f) && IsSpacing(sep) && AsciiLower(input) == Join(f, sep)
    ensures Trim(input) == input != "" && '/' !in input
  {
    var s := Join(f, sep);
    JoinEnds(f, sep);
    assert LowerChar(input[0]) == s[0] && LowerChar(input[|s| - 1]) == s[|s| - 1];
    TrimKeeps(input);
    forall i | 0 <= i < |input| ensures input[i] != '/' {
      assert LowerChar(input[i]) == s[i];
      JoinChars(f, sep, s[i]);
    }
  }

  /**
   Writing a canonical key with white space or commas between its fields, in any letter case,
   normalises back to the key, unless its component is a long alias: then, and only then, the
   answer is the key of the short component.
   */
  lemma HumanRoundTrip(lower: string -> string, input: string, f: seq<string>, sep: string)
    requires LowersAscii(lower) && AreKeyFields(f) && IsSpacing(sep)
    requires IsAscii(input) && |input| <= INPUT_MAX_LENGTH && AsciiLower(input) == Join(f, sep)
    ensures Normalize(lower, input) == Ok(Join(f[5 := AliasOf(f[5])], "-"))
    ensures Normalize(lower, input) == Ok(Join(f, "-")) <==>
            (f[5] in COMPONENT_ALIASES ==> COMPONENT_ALIASES[f[5]] == f[5])
  {
    SpacedReadsBack(lower, input, f, sep);
    var g := f[5 := AliasOf(f[5])];
    ReadKeyFields(f);
    if Join(g, "-") == Join(f, "-") { JoinIsInjective(f, g); }
    AliasKeeps(f[5]);
    assert f[5 := f[5]] == f;
  }

  lemma SpacedReadsBack(lower: string -> string, input: string, f: seq<string>, sep: string)
    requires LowersAscii(lower) && AreKeyFields(f) && IsSpacing(sep)
    requires IsAscii(input) && |input| <= INPUT_MAX_LENGTH && AsciiLower(input) == Join(f, sep)
    ensures Normalize(lower, input) == Ok(Join(f[5 := AliasOf(f[5])], "-"))
  {
    Utf16LengthAscii(input);
    SpacedText(input, f, sep);
    NoSlashNoSlug(input, 0);
    SpacedIsHumanCode(f, sep);
  }

  lemma AliasKeeps(token: string)
    requires IsComponent(token)
    ensures AliasOf(token) == token <==>
            (token in COMPONENT_ALIASES ==> COMPONENT_ALIASES[token] == token)
  {
    assert |"constructor"| == 11 && "__proto__"[0] == '_';
  }

  lemma {:induction false} JoinEnds(f: seq<string>, sep: string)
    requires |f| >= 1 && forall i | 0 <= i < |f| :: f[i] != ""
    ensures var s := Join(f, sep);
            s != "" && s[0] == f[0][0] && s[|s| - 1] == f[|f| - 1][|f[|f| - 1]| - 1]
  {
    if |f| > 1 { JoinEnds(f[1..], sep); }
  }
}

/**
 What a line of robots.txt says, character by character, and what a whole file makes of a path: the
 parser and the decision (src/scraper/fetch.ts) put together.
 */
module RobotsLines {
  import opened Text
  import opened RobotsOctets
  import opened RobotsPolicy

  // ----- trimming -----

  predicate IsBlank(s: string) { forall i | 0 <= i < |s| :: IsSpace(s[i]) }

  predicate IsTrimmed(s: string) { s != "" ==> !IsSpace(s[0]) && !IsSpace(s[|s| - 1]) }

  /** s with white space around it. */
  ghost predicate Surrounds(whole: string, s: string) {
    exists i, j :: 0 <= i <= j <= |whole| && whole[i..j] == s && IsBlank(whole[..i]) && IsBlank(whole[j..]) && IsTrimmed(s)
  }

  lemma {:induction false} TrimStartIs(s: string, i: nat)
    requires i <= |s| && IsBlank(s[..i]) && (i < |s| ==> !IsSpace(s[i]))
    ensures TrimStart(s) == s[i..]
  {
    if i > 0 {
      assert IsSpace(s[..i][0]);
      assert s[..i] == [s[0]] + s[1..][..i - 1];
      TrimStartIs(s[1..], i - 1);
    }
  }

  lemma {:induction false} TrimEndIs(s: string, j: nat)
    requires j <= |s| && IsBlank(s[j..]) && (j > 0 ==> !IsSpace(s[j - 1]))
    ensures TrimEnd(s) == s[..j]
    decreases |s|
  {
    var n := |s| - 1;
    if j < |s| {
      assert IsSpace(s[j..][n - j]);
      assert s[j..] == s[..n][j..] + [s[n]];
      TrimEndIs(s[..n], j);
    } else {
      assert s[..j] == s;
    }
  }

  /** Trimming finds exactly what white space surrounds. */
  lemma TrimIs(whole: string, s: string)
    ensures Surrounds(whole, s) <==> Trim(whole) == s
  {
    if Surrounds(whole, s) {
      var i, j :| 0 <= i <= j <= |whole| && whole[i..j] == s && IsBlank(whole[..i]) && IsBlank(whole[j..]) && IsTrimmed(s);
      SurroundedTrims(whole, i, j);
    }
    TrimSurrounds(whole);
  }

  lemma SurroundedTrims(whole: string, i: nat, j: nat)
    requires i <= j <= |whole| && IsBlank(whole[..i]) && IsBlank(whole[j..]) && IsTrimmed(whole[i..j])
    ensures Trim(whole) == whole[i..j]
  {
    if i == j {
      assert whole == whole[..i] + whole[i..];
      TrimStartIs(whole, |whole|);
    } else {
      assert whole[i..j][0] == whole[i] && whole[i..j][j - i - 1] == whole[j - 1];
      TrimStartIs(whole, i);
      assert whole[i..][j - i..] == whole[j..] && whole[i..][..j - i] == whole[i..j];
      TrimEndIs(whole[i..], j - i);
    }
  }

  lemma FirstNonSpace(s: string) returns (i: nat)
    ensures i <= |s| && IsBlank(s[..i]) && (i < |s| ==> !IsSpace(s[i]))
  {
    i := 0;
    while i < |s| && IsSpace(s[i])
      invariant i <= |s| && IsBlank(s[..i])
    {
      assert s[..i + 1] == s[..i] + [s[i]];
      i := i + 1;
    }
  }

  lemma LastNonSpace(s: string, from: nat) returns (j: nat)
    requires from < |s| && !IsSpace(s[from])
    ensures from < j <= |s| && IsBlank(s[j..]) && !IsSpace(s[j - 1])
  {
    j := |s|;
    while IsSpace(s[j - 1])
      invariant from < j <= |s| && IsBlank(s[j..])
      decreases j
    {
      assert s[j - 1..] == [s[j - 1]] + s[j..];
      j := j - 1;
    }
  }

  lemma TrimSurrounds(whole: string)
    ensures Surrounds(whole, Trim(whole))
  {
    var i := FirstNonSpace(whole);
    if i == |whole| {
      assert whole[..i] == whole && IsBlank(whole[i..]);
      SurroundedTrims(whole, i, i);
      assert Surrounds(whole, whole[i..i]);
    } else {
      var j := LastNonSpace(whole, i);
      assert whole[i..j][0] == whole[i] && whole[i..j][j - i - 1] == whole[j - 1];
      SurroundedTrims(whole, i, j);
      assert Surrounds(whole, whole[i..j]);
    }
  }

  // ----- one line -----

  /**
   The line is `key : value`, with white space around both and perhaps a comment behind: the key ends
   at the first colon, the value at the first `#` or at the end.
   */
  ghost predicate Spells(raw: string, key: string, value: string) {
    exists p, q :: 0 <= p < q <= |raw| && raw[p] == ':' && ':' !in raw[..p] && '#' !in raw[..q] && (q < |raw| ==> raw[q] == '#')
                   && Surrounds(raw[..p], key) && Surrounds(raw[p + 1..q], value)
  }

  /** Before any comment there is a colon. */
  predicate HasColon(raw: string) { IndexOf(raw, ':') < IndexOf(raw, '#') }

  lemma IndexIs(s: string, c: char, i: nat)
    requires i <= |s| && c !in s[..i] && (i < |s| ==> s[i] == c)
    ensures IndexOf(s, c) == i
  {
    forall k | 0 <= k < i ensures s[k] != c { assert s[k] in s[..i]; }
  }

  lemma TrimAtColon(s: string, p: nat)
    requires p < |s| && s[p] == ':'
    ensures Trim(s) == TrimStart(s[..p]) + ":" + TrimEnd(s[p + 1..])
  {
    var i := FirstNonSpace(s);
    var j := LastNonSpace(s, p);
    forall k | 0 <= k < i ensures IsSpace(s[k]) { assert s[k] == s[..i][k]; }
    assert s[i..j][0] == s[i] && s[i..j][j - i - 1] == s[j - 1];
    SurroundedTrims(s, i, j);
    assert s[..p][..i] == s[..i];
    TrimStartIs(s[..p], i);
    assert s[p + 1..][j - p - 1..] == s[j..];
    TrimEndIs(s[p + 1..], j - p - 1);
    assert s[..p][i..] == s[i..p] && s[p + 1..][..j - p - 1] == s[p + 1..j];
    assert s[i..j] == s[i..p] + [s[p]] + s[p + 1..j];
  }

  lemma {:induction false} StartTwice(s: string)
    ensures TrimStart(TrimStart(s)) == TrimStart(s)
  {
    if s != "" && IsSpace(s[0]) { StartTwice(s[1..]); }
  }

  lemma EndFirst(s: string)
    ensures Trim(TrimEnd(s)) == Trim(s)
  {
    var i := FirstNonSpace(s);
    if i == |s| {
      assert s[..|s|] == s && IsBlank(s[0..]);
      TrimEndIs(s, 0);
      SurroundedTrims(s, |s|, |s|);
    } else {
      EndFirstAt(s, i);
    }
  }

  lemma EndFirstAt(s: string, i: nat)
    requires i < |s| && IsBlank(s[..i]) && !IsSpace(s[i])
    ensures Trim(TrimEnd(s)) == Trim(s)
  {
    var j := LastNonSpace(s, i);
    var t := s[..j];
    TrimEndIs(s, j);
    assert t[..i] == s[..i] && t[i..j] == s[i..j] && t[j..] == "";
    assert s[i..j][0] == s[i] && s[i..j][j - i - 1] == s[j - 1];
    SurroundedTrims(s, i, j);
    SurroundedTrims(t, i, j);
  }

  /** What the reader makes of a line with a colon. */
  lemma ColonLine(lower: string -> string, raw: string, p: nat, q: nat)
    requires p < q <= |raw| && raw[p] == ':' && ':' !in raw[..p] && '#' !in raw[..q] && (q < |raw| ==> raw[q] == '#')
    ensures var key, value := lower(Trim(raw[..p])), Trim(raw[p + 1..q]);
            ReadLine(lower, raw) == if key == "user-agent" then Agent(value) else if key == "allow" then RuleLine(Allow, value)
                                    else if key == "disallow" then RuleLine(Disallow, value) else Ignored
  {
    IndexIs(raw, '#', q);
    var text := raw[..q];
    TrimAtColon(text, p);
    assert text[..p] == raw[..p] && text[p + 1..] == raw[p + 1..q];
    var line, left := Trim(text), TrimStart(raw[..p]);
    assert ':' !in left by { StartIn(raw[..p], ':'); }
    assert line[..|left|] == left && line[|left|] == ':' && line[|left| + 1..] == TrimEnd(raw[p + 1..q]);
    IndexIs(line, ':', |left|);
    StartTwice(raw[..p]);
    EndFirst(raw[p + 1..q]);
  }

  lemma {:induction false} StartIn(s: string, c: char)
    ensures c in TrimStart(s) ==> c in s
  {
    if s != "" && IsSpace(s[0]) { StartIn(s[1..], c); }
  }

  lemma {:induction false} EndIn(s: string, c: char)
    ensures c in TrimEnd(s) ==> c in s
    decreases |s|
  {
    if s != "" && IsSpace(s[|s| - 1]) { EndIn(s[..|s| - 1], c); }
  }

  /** A line is read as the directive its key spells in any letter case, with exactly its value; a line that spells none is ignored. */
  lemma LineIsExact(lower: string -> string, raw: string, key: string, value: string)
    ensures Spells(raw, key, value) ==>
              && (ReadLine(lower, raw) == Agent(value) <==> lower(key) == "user-agent")
              && (ReadLine(lower, raw) == RuleLine(Allow, value) <==> lower(key) == "allow")
              && (ReadLine(lower, raw) == RuleLine(Disallow, value) <==> lower(key) == "disallow")
              && (ReadLine(lower, raw) == Ignored <==> lower(key) != "user-agent" && lower(key) != "allow" && lower(key) != "disallow")
    ensures HasColon(raw) <==> exists k, v :: Spells(raw, k, v)
    ensures !HasColon(raw) ==> ReadLine(lower, raw) == Ignored
  {
    if Spells(raw, key, value) {
      var p, q :| 0 <= p < q <= |raw| && raw[p] == ':' && ':' !in raw[..p] && '#' !in raw[..q] && (q < |raw| ==> raw[q] == '#')
                  && Surrounds(raw[..p], key) && Surrounds(raw[p + 1..q], value);
      ColonLine(lower, raw, p, q);
      TrimIs(raw[..p], key);
      TrimIs(raw[p + 1..q], value);
    }
    ColonIsSpelt(raw);
    if !HasColon(raw) { NoColonIsIgnored(lower, raw); }
  }

  lemma ColonIsSpelt(raw: string)
    ensures HasColon(raw) <==> exists k, v :: Spells(raw, k, v)
  {
    var p, q := IndexOf(raw, ':'), IndexOf(raw, '#');
    if p < q {
      TrimSurrounds(raw[..p]);
      TrimSurrounds(raw[p + 1..q]);
      assert Spells(raw, Trim(raw[..p]), Trim(raw[p + 1..q]));
    }
    if k, v :| Spells(raw, k, v) { SpeltHasColon(raw, k, v); }
  }

  lemma SpeltHasColon(raw: string, key: string, value: string)
    requires Spells(raw, key, value)
    ensures HasColon(raw)
  {
    var p, q :| 0 <= p < q <= |raw| && raw[p] == ':' && ':' !in raw[..p] && '#' !in raw[..q] && (q < |raw| ==> raw[q] == '#')
                && Surrounds(raw[..p], key) && Surrounds(raw[p + 1..q], value);
    IndexIs(raw, ':', p);
    IndexIs(raw, '#', q);
  }

  lemma NoColonIsIgnored(lower: string -> string, raw: string)
    requires !HasColon(raw)
    ensures ReadLine(lower, raw) == Ignored
  {
    var text := raw[..IndexOf(raw, '#')];
    StartIn(text, ':');
    EndIn(TrimStart(text), ':');
    assert ':' !in text;
    assert IndexOf(Trim(text), ':') == |Trim(text)|;
  }

  // ----- a whole file -----

  /** The line gives this directive this value, its name in any letter case. */
  ghost predicate Directs(lower: string -> string, raw: string, name: string, value: string) {
    exists key :: Spells(raw, key, value) && lower(key) == name
  }

  lemma DirectsIsRead(lower: string -> string, raw: string, value: string)
    ensures Directs(lower, raw, "user-agent", value) <==> ReadLine(lower, raw) == Agent(value)
    ensures Directs(lower, raw, "allow", value) <==> ReadLine(lower, raw) == RuleLine(Allow, value)
    ensures Directs(lower, raw, "disallow", value) <==> ReadLine(lower, raw) == RuleLine(Disallow, value)
  {
    forall key, v ensures Spells(raw, key, v) ==>
      && (ReadLine(lower, raw) == Agent(v) <==> lower(key) == "user-agent")
      && (ReadLine(lower, raw) == RuleLine(Allow, v) <==> lower(key) == "allow")
      && (ReadLine(lower, raw) == RuleLine(Disallow, v) <==> lower(key) == "disallow")
      && (ReadLine(lower, raw) == Ignored <==> lower(key) != "user-agent" && lower(key) != "allow" && lower(key) != "disallow")
    {
      LineIsExact(lower, raw, key, v);
    }
    LineIsExact(lower, raw, "", value);
  }

  ghost predicate IsAgentLine(lower: string -> string, raw: string) { exists a :: Directs(lower, raw, "user-agent", a) }

  ghost predicate IsRuleLine(lower: string -> string, raw: string) {
    exists v :: Directs(lower, raw, "allow", v) || Directs(lower, raw, "disallow", v)
  }

  /** The line names the agent, in at most 256 code units. */
  ghost predicate NamesAgent(lower: string -> string, raw: string, name: string) {
    exists a :: Directs(lower, raw, "user-agent", a) && a != "" && Utf16Length(a) <= 256 && lower(a) == name
  }

  /** An agent line for the name comes before line i, with no rule followed by another agent line in between. */
  ghost predicate IsFor(lower: string -> string, raws: seq<string>, i: nat, name: string)
    requires i < |raws|
  {
    exists j :: 0 <= j < i && NamesAgent(lower, raws[j], name)
                && forall r, k | j < r < k < i :: IsRuleLine(lower, raws[r]) ==> !IsAgentLine(lower, raws[k])
  }

  /** Line i belongs to a group of the agent, or, if no line names it, to a group for everyone. */
  ghost predicate Governed(lower: string -> string, raws: seq<string>, i: nat, agentName: string)
    requires i < |raws|
  {
    if exists j :: 0 <= j < |raws| && NamesAgent(lower, raws[j], agentName) then IsFor(lower, raws, i, agentName) else IsFor(lower, raws, i, "*")
  }

  lemma NamesIsRead(lower: string -> string, raw: string, name: string)
    ensures NamesAgent(lower, raw, name) <==> Names(lower, ReadLine(lower, raw), name)
  {
    forall a ensures Directs(lower, raw, "user-agent", a) <==> ReadLine(lower, raw) == Agent(a) { DirectsIsRead(lower, raw, a); }
    if ReadLine(lower, raw).Agent? { assert Directs(lower, raw, "user-agent", ReadLine(lower, raw).value); }
  }

  lemma KindIsRead(lower: string -> string, raw: string)
    ensures IsAgentLine(lower, raw) <==> ReadLine(lower, raw).Agent?
    ensures IsRuleLine(lower, raw) <==> ReadLine(lower, raw).RuleLine?
  {
    forall v ensures (Directs(lower, raw, "user-agent", v) <==> ReadLine(lower, raw) == Agent(v))
                  && (Directs(lower, raw, "allow", v) <==> ReadLine(lower, raw) == RuleLine(Allow, v))
                  && (Directs(lower, raw, "disallow", v) <==> ReadLine(lower, raw) == RuleLine(Disallow, v))
    {
      DirectsIsRead(lower, raw, v);
    }
    match ReadLine(lower, raw)
    case Agent(v) => assert Directs(lower, raw, "user-agent", v);
    case RuleLine(Allow, v) => assert Directs(lower, raw, "allow", v);
    case RuleLine(Disallow, v) => assert Directs(lower, raw, "disallow", v);
    case Ignored =>
  }

  lemma ForIsSpokenTo(lower: string -> string, content: string, i: nat, name: string)
    requires i < |Split(content, '\n')|
    ensures IsFor(lower, Split(content, '\n'), i, name) <==> SpeaksTo(lower, Lines(lower, content), i, name)
  {
    var raws, lines := Split(content, '\n'), Lines(lower, content);
    forall j | 0 <= j < |raws|
      ensures NamesAgent(lower, raws[j], name) <==> Names(lower, lines[j], name)
      ensures (IsAgentLine(lower, raws[j]) <==> lines[j].Agent?) && (IsRuleLine(lower, raws[j]) <==> lines[j].RuleLine?)
    {
      NamesIsRead(lower, raws[j], name);
      KindIsRead(lower, raws[j]);
    }
    forall j | 0 <= j < i && Names(lower, lines[j], name)
      ensures Governs(lines, j, i) <==> forall r, k | j < r < k < i :: IsRuleLine(lower, raws[r]) ==> !IsAgentLine(lower, raws[k])
    {
    }
  }

  ghost function Selected(lower: string -> string, content: string, agentName: string): string {
    if Named(lower, Lines(lower, content), |Lines(lower, content)|, agentName) then agentName else "*"
  }

  lemma GovernedIsSelected(lower: string -> string, content: string, i: nat, agentName: string)
    requires i < |Split(content, '\n')|
    ensures Governed(lower, Split(content, '\n'), i, agentName) <==>
            SpeaksTo(lower, Lines(lower, content), i, Selected(lower, content, agentName))
  {
    var raws, lines := Split(content, '\n'), Lines(lower, content);
    forall j | 0 <= j < |raws| ensures NamesAgent(lower, raws[j], agentName) <==> Names(lower, lines[j], agentName) {
      NamesIsRead(lower, raws[j], agentName);
    }
    ForIsSpokenTo(lower, content, i, agentName);
    ForIsSpokenTo(lower, content, i, "*");
  }

  ghost predicate IsRuleAt(lower: string -> string, lines: seq<Line>, i: nat, name: string, r: Rule)
    requires i < |lines|
  {
    Kept(lines, i) && SpeaksTo(lower, lines, i, name) && r == Rule(lines[i].directive, lines[i].value)
  }

  /** What each step adds is all there is. */
  lemma {:induction false} AddedBefore(holds: nat -> bool, added: nat -> bool, n: nat)
    requires !holds(0) && forall m | 0 <= m < n :: holds(m + 1) <==> holds(m) || added(m)
    ensures holds(n) <==> exists i :: 0 <= i < n && added(i)
  {
    if n > 0 { AddedBefore(holds, added, n - 1); }
  }

  lemma RulesAreLines(lower: string -> string, lines: seq<Line>, name: string, r: Rule)
    ensures r in RulesFor(lower, lines, |lines|, name) <==> exists i :: 0 <= i < |lines| && IsRuleAt(lower, lines, i, name, r)
  {
    var holds := (m: nat) => m <= |lines| && r in RulesFor(lower, lines, m, name);
    var added := (m: nat) => m < |lines| && IsRuleAt(lower, lines, m, name, r);
    forall m | 0 <= m < |lines| ensures holds(m + 1) <==> holds(m) || added(m) { LastRule(lower, lines, m + 1, name, r); }
    AddedBefore(holds, added, |lines|);
    assert forall i | 0 <= i < |lines| :: added(i) <==> IsRuleAt(lower, lines, i, name, r);
  }

  lemma LastRule(lower: string -> string, lines: seq<Line>, n: nat, name: string, r: Rule)
    requires 0 < n <= |lines|
    ensures r in RulesFor(lower, lines, n, name) <==> r in RulesFor(lower, lines, n - 1, name) || IsRuleAt(lower, lines, n - 1, name, r)
  {
  }

  /** Line i is a governing one that gives this rule. */
  ghost predicate Gives(lower: string -> string, raws: seq<string>, i: nat, agentName: string, r: Rule)
    requires i < |raws|
  {
    Directs(lower, raws[i], if r.directive.Allow? then "allow" else "disallow", r.pattern) && r.pattern != "" && Governed(lower, raws, i, agentName)
  }

  /** A governing disallow line matches the path, and every governing allow line that does is less specific. */
  ghost predicate Forbids(lower: string -> string, raws: seq<string>, i: nat, agentName: string, path: string)
    requires i < |raws|
  {
    exists v :: Gives(lower, raws, i, agentName, Rule(Disallow, v)) && PatternMatches(v, path)
      && forall k, w | 0 <= k < |raws| && Gives(lower, raws, k, agentName, Rule(Allow, w)) && PatternMatches(w, path) ::
           PatternSpecificity(w) < PatternSpecificity(v)
  }

  lemma GivesIsRule(lower: string -> string, content: string, i: nat, agentName: string, r: Rule)
    requires i < |Split(content, '\n')|
    ensures var lines := Lines(lower, content);
            Gives(lower, Split(content, '\n'), i, agentName, r) <==>
            lines[i] == RuleLine(r.directive, r.pattern) && r.pattern != "" && SpeaksTo(lower, lines, i, Selected(lower, content, agentName))
  {
    var raw := Split(content, '\n')[i];
    assert Lines(lower, content)[i] == ReadLine(lower, raw);
    assert Directs(lower, raw, if r.directive.Allow? then "allow" else "disallow", r.pattern) <==>
           ReadLine(lower, raw) == RuleLine(r.directive, r.pattern) by { DirectsIsRead(lower, raw, r.pattern); }
    assert Governed(lower, Split(content, '\n'), i, agentName) <==>
           SpeaksTo(lower, Lines(lower, content), i, Selected(lower, content, agentName)) by { GovernedIsSelected(lower, content, i, agentName); }
  }

  lemma KeptOrDropped(lower: string -> string, lines: seq<Line>, i: nat, name: string, r: Rule)
    requires i < |lines|
    ensures var given := lines[i] == RuleLine(r.directive, r.pattern) && r.pattern != "" && SpeaksTo(lower, lines, i, name);
            (IsRuleAt(lower, lines, i, name, r) ==> given) && (given ==> IsRuleAt(lower, lines, i, name, r) || Dropped(lines, i))
  {
    if SpeaksTo(lower, lines, i, name) {
      var j :| 0 <= j < i && Governs(lines, j, i) && Names(lower, lines[j], name);
      assert InSomeGroup(lines, i);
    }
  }

  /** Some governing line gives the rule. */
  ghost predicate IsGiven(lower: string -> string, raws: seq<string>, agentName: string, r: Rule) {
    exists i :: 0 <= i < |raws| && Gives(lower, raws, i, agentName, r)
  }

  ghost predicate NothingLost(lines: seq<Line>) { forall i | 0 <= i < |lines| :: !Dropped(lines, i) }

  /** The rules of the policy are given by governing lines; without a drop, every governing line with a value gives one. */
  lemma PolicyIsLines(lower: string -> string, content: string, agentName: string, r: Rule)
    ensures var raws, lines := Split(content, '\n'), Lines(lower, content);
            && (r in PolicyFor(lower, lines, agentName) ==> IsGiven(lower, raws, agentName, r))
            && (NothingLost(lines) && IsGiven(lower, raws, agentName, r) ==> r in PolicyFor(lower, lines, agentName))
  {
    var raws, lines, name := Split(content, '\n'), Lines(lower, content), Selected(lower, content, agentName);
    RulesAreLines(lower, lines, name, r);
    if r in PolicyFor(lower, lines, agentName) {
      var i :| 0 <= i < |lines| && IsRuleAt(lower, lines, i, name, r);
      GivesIsRule(lower, content, i, agentName, r);
      KeptOrDropped(lower, lines, i, name, r);
    }
    if NothingLost(lines) && IsGiven(lower, raws, agentName, r) {
      var i :| 0 <= i < |raws| && Gives(lower, raws, i, agentName, r);
      GivesIsRule(lower, content, i, agentName, r);
      KeptOrDropped(lower, lines, i, name, r);
    }
  }

  // ----- the decision -----

  /** A matching disallow rule that outweighs every matching allow rule. */
  ghost predicate Outweighs(rules: seq<Rule>, d: Rule, path: string) {
    d in rules && d.directive.Disallow? && PatternMatches(d.pattern, path)
    && forall a | a in rules && a.directive.Allow? && PatternMatches(a.pattern, path) :: PatternSpecificity(a.pattern) < PatternSpecificity(d.pattern)
  }

  lemma {:induction false} Heaviest(rules: seq<Rule>, path: string) returns (d: Rule)
    requires exists r :: r in rules && r.directive.Disallow? && PatternMatches(r.pattern, path)
    ensures d in rules && d.directive.Disallow? && PatternMatches(d.pattern, path)
    ensures forall r | r in rules && r.directive.Disallow? && PatternMatches(r.pattern, path) :: PatternSpecificity(r.pattern) <= PatternSpecificity(d.pattern)
    decreases |rules|
  {
    var last, rest := rules[|rules| - 1], rules[..|rules| - 1];
    assert rules == rest + [last];
    if r :| r in rest && r.directive.Disallow? && PatternMatches(r.pattern, path) {
      d := Heaviest(rest, path);
      if last.directive.Disallow? && PatternMatches(last.pattern, path) && PatternSpecificity(last.pattern) > PatternSpecificity(d.pattern) { d := last; }
    } else {
      d := last;
    }
  }

  /** A policy refuses a path exactly when some rule of it outweighs what allows the path. */
  lemma RefusalOutweighs(rules: seq<Rule>, path: string)
    ensures !Permits((set r | r in rules), path) <==> exists d :: Outweighs(rules, d, path)
  {
    var all := set r | r in rules;
    if !Permits(all, path) {
      if a :| a in all && a.directive.Allow? && PatternMatches(a.pattern, path) {
        var b :| b in all && b.directive.Disallow? && PatternMatches(b.pattern, path) && PatternSpecificity(a.pattern) < PatternSpecificity(b.pattern);
        assert b in rules;
      } else {
        var b :| b in all && PatternMatches(b.pattern, path);
        assert b in rules && b.directive.Disallow?;
      }
      var d := Heaviest(rules, path);
      assert Outweighs(rules, d, path);
    }
  }

  ghost predicate IsForbidden(lower: string -> string, raws: seq<string>, agentName: string, path: string) {
    exists i :: 0 <= i < |raws| && Forbids(lower, raws, i, agentName, path)
  }

  ghost predicate AreGiven(lower: string -> string, raws: seq<string>, agentName: string, rules: seq<Rule>) {
    forall r :: r in rules <==> IsGiven(lower, raws, agentName, r)
  }

  /** If no rule is dropped, a file refuses a path exactly when some line of it forbids the path. */
  lemma RefusalIsForbidden(lower: string -> string, content: string, agentName: string, path: string)
    requires NothingLost(Lines(lower, content))
    ensures var rules := PolicyFor(lower, Lines(lower, content), agentName);
            !Permits((set r | r in rules), path) <==> IsForbidden(lower, Split(content, '\n'), agentName, path)
  {
    var raws, rules := Split(content, '\n'), PolicyFor(lower, Lines(lower, content), agentName);
    RefusalOutweighs(rules, path);
    assert AreGiven(lower, raws, agentName, rules) by { GivenRules(lower, content, agentName); }
    if d :| Outweighs(rules, d, path) { OutweighingForbids(lower, raws, rules, d, agentName, path); }
    if IsForbidden(lower, raws, agentName, path) { ForbiddingOutweighs(lower, raws, rules, agentName, path); }
  }

  lemma GivenRules(lower: string -> string, content: string, agentName: string)
    requires NothingLost(Lines(lower, content))
    ensures AreGiven(lower, Split(content, '\n'), agentName, PolicyFor(lower, Lines(lower, content), agentName))
  {
    forall r ensures r in PolicyFor(lower, Lines(lower, content), agentName) <==> IsGiven(lower, Split(content, '\n'), agentName, r) {
      PolicyIsLines(lower, content, agentName, r);
    }
  }

  lemma OutweighingForbids(lower: string -> string, raws: seq<string>, rules: seq<Rule>, d: Rule, agentName: string, path: string)
    requires Outweighs(rules, d, path) && AreGiven(lower, raws, agentName, rules)
    ensures IsForbidden(lower, raws, agentName, path)
  {
    var i :| 0 <= i < |raws| && Gives(lower, raws, i, agentName, d);
    assert d == Rule(Disallow, d.pattern);
    forall k, w | 0 <= k < |raws| && Gives(lower, raws, k, agentName, Rule(Allow, w)) && PatternMatches(w, path)
      ensures PatternSpecificity(w) < PatternSpecificity(d.pattern)
    {
      assert IsGiven(lower, raws, agentName, Rule(Allow, w));
    }
    assert Forbids(lower, raws, i, agentName, path);
  }

  lemma ForbiddingOutweighs(lower: string -> string, raws: seq<string>, rules: seq<Rule>, agentName: string, path: string)
    requires IsForbidden(lower, raws, agentName, path) && AreGiven(lower, raws, agentName, rules)
    ensures exists d :: Outweighs(rules, d, path)
  {
    var i :| 0 <= i < |raws| && Forbids(lower, raws, i, agentName, path);
    var v :| Gives(lower, raws, i, agentName, Rule(Disallow, v)) && PatternMatches(v, path)
      && forall k, w | 0 <= k < |raws| && Gives(lower, raws, k, agentName, Rule(Allow, w)) && PatternMatches(w, path) ::
           PatternSpecificity(w) < PatternSpecificity(v);
    assert IsGiven(lower, raws, agentName, Rule(Disallow, v));
    forall a | a in rules && a.directive.Allow? && PatternMatches(a.pattern, path) ensures PatternSpecificity(a.pattern) < PatternSpecificity(v) {
      var k :| 0 <= k < |raws| && Gives(lower, raws, k, agentName, a);
      assert a == Rule(Allow, a.pattern);
    }
    assert Outweighs(rules, Rule(Disallow, v), path);
  }

  /** A rule of a group that is too long, or comes after 1024 others, is lost. */
  lemma LostIsBeyond(lines: seq<Line>, i: nat)
    requires i < |lines|
    ensures Dropped(lines, i) <==>
              && lines[i].RuleLine? && lines[i].value != "" && (exists j :: 0 <= j < i && lines[j].Agent?)
              && (Utf16Length(lines[i].value) > 2048 || KeptBefore(lines, i) >= 1024)
  {
  }

  /** `getRobotsEntry` and `checkRobots` on a file that was read: a rule lost to the bounds refuses everything. */
  method DecideFor(lower: string -> string, content: string, agentName: string, path: string) returns (decision: Decision)
    ensures !NothingLost(Lines(lower, content)) ==> decision.RefusedBySkip?
    ensures NothingLost(Lines(lower, content)) ==>
              !decision.RefusedBySkip? && (decision.Allowed? <==> !IsForbidden(lower, Split(content, '\n'), agentName, path))
    ensures decision.RefusedByRule? ==> IsGiven(lower, Split(content, '\n'), agentName, Rule(Disallow, decision.pattern))
  {
    var rules, exceeded := ParseRobotsTxt(lower, content, agentName);
    if exceeded { return RefusedBySkip("policy exceeds parser safety bounds"); }
    decision := CheckRobots(Policy(rules), path);
    RefusalIsForbidden(lower, content, agentName, path);
    if decision.RefusedByRule? { PolicyIsLines(lower, content, agentName, Rule(Disallow, decision.pattern)); }
  }
}

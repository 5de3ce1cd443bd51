/**
 The robots.txt group parser and the longest-match decision (src/scraper/fetch.ts), sections
 2.2.1 and 2.2.2 of RFC 9309.
 */
module RobotsPolicy {
  import opened Text
  import opened RobotsOctets

  datatype Directive = Allow | Disallow
  datatype Rule = Rule(directive: Directive, pattern: string)

  // ----- the decision -----

  datatype Entry = Skipped(reason: string) | Policy(rules: seq<Rule>)
  datatype Decision = Allowed | RefusedBySkip(reason: string) | RefusedByRule(pattern: string)

  function Weight(r: Rule): nat { PatternSpecificity(r.pattern) }

  /** What the comparator answers: does l sort no later than r? */
  predicate SortsBefore(weight: Rule -> nat, l: Rule, r: Rule) {
    || weight(l) > weight(r)
    || (weight(l) == weight(r) && (l.directive.Allow? || r.directive.Disallow?))
  }

  ghost predicate IsSorted(weight: Rule -> nat, rules: seq<Rule>) {
    forall i, j | 0 <= i < j < |rules| :: SortsBefore(weight, rules[i], rules[j])
  }

  function Insert(weight: Rule -> nat, r: Rule, sorted: seq<Rule>): seq<Rule> {
    if sorted == [] then [r]
    else if SortsBefore(weight, sorted[0], r) then [sorted[0]] + Insert(weight, r, sorted[1..])
    else [r] + sorted
  }

  /** A stable sort by the comparator, as `Array.prototype.sort` is. */
  function Sort(weight: Rule -> nat, rules: seq<Rule>): seq<Rule> {
    if rules == [] then []
    else Insert(weight, rules[|rules| - 1], Sort(weight, rules[..|rules| - 1]))
  }

  /** The rule set allows the path: nothing matches, or an allow no disallow outweighs does. */
  ghost predicate Permits(rules: set<Rule>, path: string) {
    || (forall r | r in rules :: !PatternMatches(r.pattern, path))
    || exists a | a in rules && a.directive.Allow? && PatternMatches(a.pattern, path) ::
         forall d | d in rules && d.directive.Disallow? && PatternMatches(d.pattern, path) ::
           PatternSpecificity(a.pattern) >= PatternSpecificity(d.pattern)
  }

  lemma PrependSorted(weight: Rule -> nat, first: Rule, rest: seq<Rule>)
    requires IsSorted(weight, rest) && forall x | x in rest :: SortsBefore(weight, first, x)
    ensures IsSorted(weight, [first] + rest)
  {
  }

  lemma {:induction false} InsertKeeps(weight: Rule -> nat, r: Rule, sorted: seq<Rule>)
    ensures multiset(Insert(weight, r, sorted)) == multiset(sorted) + multiset{r}
  {
    if sorted != [] && SortsBefore(weight, sorted[0], r) {
      InsertKeeps(weight, r, sorted[1..]);
      assert sorted == [sorted[0]] + sorted[1..];
    }
  }

  lemma {:induction false} InsertSorts(weight: Rule -> nat, r: Rule, sorted: seq<Rule>)
    requires IsSorted(weight, sorted)
    ensures IsSorted(weight, Insert(weight, r, sorted))
  {
    if sorted == [] {
    } else if SortsBefore(weight, sorted[0], r) {
      var rest := Insert(weight, r, sorted[1..]);
      InsertSorts(weight, r, sorted[1..]);
      InsertKeeps(weight, r, sorted[1..]);
      forall x | x in rest ensures SortsBefore(weight, sorted[0], x) {
        assert x in multiset(rest);
      }
      PrependSorted(weight, sorted[0], rest);
    } else {
      forall x | x in sorted ensures SortsBefore(weight, r, x) {
        assert x == sorted[0] || SortsBefore(weight, sorted[0], x);
      }
      PrependSorted(weight, r, sorted);
    }
  }

  lemma {:induction false} SortKeeps(weight: Rule -> nat, rules: seq<Rule>)
    ensures multiset(Sort(weight, rules)) == multiset(rules)
  {
    if rules != [] {
      var last, before := rules[|rules| - 1], rules[..|rules| - 1];
      SortKeeps(weight, before);
      InsertKeeps(weight, last, Sort(weight, before));
      assert rules == before + [last];
    }
  }

  lemma {:induction false} SortSorts(weight: Rule -> nat, rules: seq<Rule>)
    ensures IsSorted(weight, Sort(weight, rules))
  {
    if rules != [] {
      SortSorts(weight, rules[..|rules| - 1]);
      InsertSorts(weight, rules[|rules| - 1], Sort(weight, rules[..|rules| - 1]));
    }
  }

  lemma FirstIsHeaviest(weight: Rule -> nat, rules: seq<Rule>, sorted: seq<Rule>)
    requires IsSorted(weight, sorted) && multiset(sorted) == multiset(rules) && sorted != []
    ensures sorted[0] in rules
    ensures forall r | r in rules && r != sorted[0] :: SortsBefore(weight, sorted[0], r)
  {
    assert sorted[0] in multiset(rules);
    forall r | r in rules && r != sorted[0] ensures SortsBefore(weight, sorted[0], r) {
      assert r in multiset(sorted);
      var i :| 0 <= i < |sorted| && sorted[i] == r;
    }
  }

  /**
   However the matching rules are sorted by the comparator, the first one is an allow exactly
   when the rule set permits the path: neither their order nor the choice of sort matters.
   */
  lemma FirstSortedDecides(rules: seq<Rule>, matching: seq<Rule>, sorted: seq<Rule>, path: string)
    requires forall r :: r in matching <==> r in rules && PatternMatches(r.pattern, path)
    requires IsSorted(Weight, sorted) && multiset(sorted) == multiset(matching) && sorted != []
    ensures sorted[0].directive.Allow? <==> Permits((set r | r in rules), path)
  {
    var w := sorted[0];
    FirstIsHeaviest(Weight, matching, sorted);
    if w.directive.Allow? {
      forall d | d in rules && d.directive.Disallow? && PatternMatches(d.pattern, path)
        ensures PatternSpecificity(w.pattern) >= PatternSpecificity(d.pattern)
      {
        assert d in matching && SortsBefore(Weight, w, d) && Weight(w) >= Weight(d);
      }
    } else {
      forall a | a in rules && a.directive.Allow? && PatternMatches(a.pattern, path)
        ensures PatternSpecificity(w.pattern) > PatternSpecificity(a.pattern)
      {
        assert a in matching && SortsBefore(Weight, w, a) && Weight(w) > Weight(a);
      }
    }
  }

  lemma SortedWinner(rules: seq<Rule>, matching: seq<Rule>, path: string)
    requires forall r :: r in matching <==> r in rules && PatternMatches(r.pattern, path)
    requires matching != []
    ensures var sorted := Sort(Weight, matching);
            && sorted != [] && sorted[0] in matching
            && (sorted[0].directive.Allow? <==> Permits((set r | r in rules), path))
            && forall r | r in matching :: Weight(r) <= Weight(sorted[0])
  {
    var sorted := Sort(Weight, matching);
    SortSorts(Weight, matching);
    SortKeeps(Weight, matching);
    assert matching[0] in multiset(sorted);
    FirstSortedDecides(rules, matching, sorted, path);
    FirstIsHeaviest(Weight, matching, sorted);
    assert sorted[0] in multiset(sorted);
  }

  method MatchingRules(rules: seq<Rule>, path: string) returns (matching: seq<Rule>)
    ensures forall r :: r in matching <==> r in rules && PatternMatches(r.pattern, path)
  {
    matching := [];
    for i := 0 to |rules|
      invariant forall r :: r in matching <==> r in rules[..i] && PatternMatches(r.pattern, path)
    {
      assert rules[..i + 1] == rules[..i] + [rules[i]];
      var matches := RobotsPatternMatches(rules[i].pattern, path);
      if matches { matching := matching + [rules[i]]; }
    }
    assert rules[..|rules|] == rules;
  }

  /** `checkRobots`: a refusal names a matching disallow that no matching rule outweighs. */
  method CheckRobots(entry: Entry, path: string) returns (decision: Decision)
    ensures entry.Skipped? ==> decision == RefusedBySkip(entry.reason)
    ensures entry.Policy? ==> !decision.RefusedBySkip?
    ensures entry.Policy? ==> (decision.Allowed? <==> Permits((set r | r in entry.rules), path))
    ensures decision.RefusedByRule? ==>
              Rule(Disallow, decision.pattern) in entry.rules && PatternMatches(decision.pattern, path)
    ensures decision.RefusedByRule? ==>
              forall r | r in entry.rules && PatternMatches(r.pattern, path) ::
                PatternSpecificity(r.pattern) <= PatternSpecificity(decision.pattern)
  {
    if entry.Skipped? { return RefusedBySkip(entry.reason); }
    var matching := MatchingRules(entry.rules, path);
    if matching == [] { return Allowed; }
    SortedWinner(entry.rules, matching, path);
    var winner := Sort(Weight, matching)[0];
    assert winner.directive.Disallow? ==> winner == Rule(Disallow, winner.pattern);
    decision := if winner.directive.Allow? then Allowed else RefusedByRule(winner.pattern);
  }

  // ----- reading the lines -----

  const MAX_RULES := 1024
  const MAX_PATTERN_LENGTH := 2048
  const MAX_AGENT_LENGTH := 256

  datatype Line = Ignored | Agent(value: string) | RuleLine(directive: Directive, value: string)

  function ReadLine(lower: string -> string, rawLine: string): Line {
    var line := Trim(rawLine[..IndexOf(rawLine, '#')]);
    var separator := IndexOf(line, ':');
    if separator == |line| then Ignored
    else
      var key := lower(Trim(line[..separator]));
      var value := Trim(line[separator + 1..]);
      if key == "user-agent" then Agent(value)
      else if key == "allow" then RuleLine(Allow, value)
      else if key == "disallow" then RuleLine(Disallow, value)
      else Ignored
  }

  function Lines(lower: string -> string, content: string): (lines: seq<Line>) {
    var raw := Split(content, '\n');
    seq(|raw|, i requires 0 <= i < |raw| => ReadLine(lower, raw[i]))
  }

  // ----- which rules belong to which agents -----

  /** The agent line names the agent. */
  predicate Names(lower: string -> string, line: Line, name: string) {
    line.Agent? && line.value != "" && Utf16Length(line.value) <= MAX_AGENT_LENGTH && lower(line.value) == name
  }

  /** Agent line j speaks for line i: between them no rule is followed by another agent line. */
  ghost predicate Governs(lines: seq<Line>, j: int, i: int)
    requires i <= |lines|
  {
    && 0 <= j < i && lines[j].Agent?
    && forall r, a | j < r < a < i :: lines[r].RuleLine? ==> !lines[a].Agent?
  }

  ghost predicate InSomeGroup(lines: seq<Line>, i: int)
    requires i <= |lines|
  {
    exists j :: 0 <= j < i && lines[j].Agent?
  }

  ghost predicate Kept(lines: seq<Line>, i: nat)
    requires i < |lines|
    decreases i, 1
  {
    && lines[i].RuleLine? && InSomeGroup(lines, i)
    && lines[i].value != "" && Utf16Length(lines[i].value) <= MAX_PATTERN_LENGTH
    && KeptBefore(lines, i) < MAX_RULES
  }

  ghost function KeptBefore(lines: seq<Line>, i: nat): nat
    requires i <= |lines|
    decreases i, 0
  {
    if i == 0 then 0 else KeptBefore(lines, i - 1) + if Kept(lines, i - 1) then 1 else 0
  }

  /** A non-empty rule of some group that the bounds made the parser drop. */
  ghost predicate Dropped(lines: seq<Line>, i: nat)
    requires i < |lines|
  {
    lines[i].RuleLine? && InSomeGroup(lines, i) && lines[i].value != "" && !Kept(lines, i)
  }

  ghost predicate SpeaksTo(lower: string -> string, lines: seq<Line>, i: int, name: string)
    requires i <= |lines|
  {
    exists j :: 0 <= j < i && Governs(lines, j, i) && Names(lower, lines[j], name)
  }

  /** The kept rules among the first n lines, in order, of every group that names the agent. */
  ghost function RulesFor(lower: string -> string, lines: seq<Line>, n: nat, name: string): seq<Rule>
    requires n <= |lines|
  {
    if n == 0 then []
    else
      RulesFor(lower, lines, n - 1, name) +
      if Kept(lines, n - 1) && SpeaksTo(lower, lines, n - 1, name)
      then [Rule(lines[n - 1].directive, lines[n - 1].value)] else []
  }

  ghost predicate Named(lower: string -> string, lines: seq<Line>, n: nat, name: string)
    requires n <= |lines|
  {
    exists j :: 0 <= j < n && Names(lower, lines[j], name)
  }

  // ----- the parser -----

  datatype Group = Group(agents: seq<string>, rules: seq<Rule>, rulesStarted: bool)

  /** `groups.filter(names the agent).flatMap(rules)` */
  function Select(groups: seq<Group>, name: string): seq<Rule> {
    if groups == [] then []
    else
      var last := groups[|groups| - 1];
      Select(groups[..|groups| - 1], name) + if name in last.agents then last.rules else []
  }

  predicate AnyNames(groups: seq<Group>, name: string) {
    exists g | g in groups :: name in g.agents
  }

  datatype Progress = Progress(groups: seq<Group>, ruleCount: nat, exceeded: bool)

  function AddAgent(lower: string -> string, agents: seq<string>, value: string): seq<string> {
    if value != "" && Utf16Length(value) <= MAX_AGENT_LENGTH then agents + [lower(value)] else agents
  }

  /** An agent line opens a new group unless the current one has no rules yet. */
  function AfterAgent(lower: string -> string, groups: seq<Group>, value: string): seq<Group> {
    var base := if groups == [] || groups[|groups| - 1].rulesStarted then groups + [Group([], [], false)] else groups;
    var last := base[|base| - 1];
    base[|base| - 1 := last.(agents := AddAgent(lower, last.agents, value))]
  }

  function AfterRule(p: Progress, directive: Directive, value: string): Progress {
    if p.groups == [] then p
    else
      var last := p.groups[|p.groups| - 1].(rulesStarted := true);
      if value == "" || Utf16Length(value) > MAX_PATTERN_LENGTH || p.ruleCount >= MAX_RULES then
        p.(groups := p.groups[|p.groups| - 1 := last], exceeded := p.exceeded || value != "")
      else
        p.(groups := p.groups[|p.groups| - 1 := last.(rules := last.rules + [Rule(directive, value)])],
           ruleCount := p.ruleCount + 1)
  }

  function AfterLine(lower: string -> string, p: Progress, line: Line): Progress {
    match line
    case Ignored => p
    case Agent(value) => p.(groups := AfterAgent(lower, p.groups, value))
    case RuleLine(directive, value) => AfterRule(p, directive, value)
  }

  // ----- the parser's state after n lines -----

  /** The groups read from the first n lines agree with the lines about one agent name. */
  ghost predicate Tracks(lower: string -> string, lines: seq<Line>, n: nat, groups: seq<Group>, name: string)
    requires n <= |lines|
  {
    && Select(groups, name) == RulesFor(lower, lines, n, name)
    && (AnyNames(groups, name) <==> Named(lower, lines, n, name))
    && (groups != [] ==> (name in groups[|groups| - 1].agents <==> SpeaksTo(lower, lines, n, name)))
  }

  /** The open group, the last agent line, and whether rules came since. */
  ghost predicate OpenGroup(lines: seq<Line>, n: nat, groups: seq<Group>, lastAgent: int)
    requires n <= |lines|
  {
    && (groups == [] <==> lastAgent == -1)
    && -1 <= lastAgent < n
    && (forall j | lastAgent < j < n :: !lines[j].Agent?)
    && (lastAgent >= 0 ==> lines[lastAgent].Agent?)
    && (groups != [] ==>
          var last := groups[|groups| - 1];
          && (last.rulesStarted <==> exists r :: lastAgent < r < n && lines[r].RuleLine?)
          && (!last.rulesStarted ==> last.rules == []))
  }

  ghost predicate Counts(lines: seq<Line>, n: nat, p: Progress)
    requires n <= |lines|
  {
    && p.ruleCount == KeptBefore(lines, n)
    && (p.exceeded <==> exists i :: 0 <= i < n && Dropped(lines, i))
  }

  /** A line that is no agent line leaves the agents spoken for as they were. */
  lemma SpeaksOn(lower: string -> string, lines: seq<Line>, n: nat, name: string)
    requires n < |lines| && !lines[n].Agent?
    ensures SpeaksTo(lower, lines, n + 1, name) <==> SpeaksTo(lower, lines, n, name)
    ensures Named(lower, lines, n + 1, name) <==> Named(lower, lines, n, name)
  {
    forall j | 0 <= j < n ensures Governs(lines, j, n + 1) <==> Governs(lines, j, n) { }
  }

  /** After an agent line, the earlier lines that still speak are those of an unstarted group. */
  lemma AgentSpeaks(lower: string -> string, lines: seq<Line>, n: nat, groups: seq<Group>, lastAgent: int, name: string)
    requires n < |lines| && lines[n].Agent? && OpenGroup(lines, n, groups, lastAgent)
    ensures SpeaksTo(lower, lines, n + 1, name) <==>
            || Names(lower, lines[n], name)
            || (groups != [] && !groups[|groups| - 1].rulesStarted && SpeaksTo(lower, lines, n, name))
  {
    var opens := groups == [] || groups[|groups| - 1].rulesStarted;
    assert Governs(lines, n, n + 1);
    forall j | 0 <= j < n
      ensures Governs(lines, j, n + 1) <==> !opens && Governs(lines, j, n)
    {
      if opens && lines[j].Agent? {
        var r :| lastAgent < r < n && lines[r].RuleLine?;
        assert j <= lastAgent;
      }
    }
  }

  lemma AgentGroups(lower: string -> string, groups: seq<Group>, value: string, name: string)
    requires groups != [] && !groups[|groups| - 1].rulesStarted ==> groups[|groups| - 1].rules == []
    ensures var after := AfterAgent(lower, groups, value);
            && Select(after, name) == Select(groups, name)
            && (AnyNames(after, name) <==> AnyNames(groups, name) || Names(lower, Agent(value), name))
  {
    var after := AfterAgent(lower, groups, value);
    var front, last := after[..|after| - 1], after[|after| - 1];
    assert after == front + [last];
    if groups == [] || groups[|groups| - 1].rulesStarted {
      assert front == groups;
    } else {
      assert front == groups[..|groups| - 1] && groups == front + [groups[|groups| - 1]];
    }
  }

  lemma AgentLine(lower: string -> string, lines: seq<Line>, n: nat, groups: seq<Group>, lastAgent: int, name: string)
    requires n < |lines| && lines[n].Agent?
    requires Tracks(lower, lines, n, groups, name) && OpenGroup(lines, n, groups, lastAgent)
    ensures Tracks(lower, lines, n + 1, AfterAgent(lower, groups, lines[n].value), name)
  {
    AgentSpeaks(lower, lines, n, groups, lastAgent, name);
    AgentGroups(lower, groups, lines[n].value, name);
  }

  lemma RuleGroups(p: Progress, directive: Directive, value: string, name: string)
    requires p.groups != []
    ensures var after := AfterRule(p, directive, value);
            var last := p.groups[|p.groups| - 1];
            && after.groups != [] && after.groups[|after.groups| - 1].agents == last.agents
            && (AnyNames(after.groups, name) <==> AnyNames(p.groups, name))
            && Select(after.groups, name) == Select(p.groups, name) +
                 if after.ruleCount > p.ruleCount && name in last.agents then [Rule(directive, value)] else []
  {
    var groups, after := p.groups, AfterRule(p, directive, value).groups;
    var front := groups[..|groups| - 1];
    assert after[..|after| - 1] == front;
    assert groups == front + [groups[|groups| - 1]] && after == front + [after[|after| - 1]];
  }

  /** The rule counter moves exactly when the line is kept. */
  lemma RuleCounts(lines: seq<Line>, n: nat, p: Progress, lastAgent: int)
    requires n < |lines| && lines[n].RuleLine? && OpenGroup(lines, n, p.groups, lastAgent)
    requires p.ruleCount == KeptBefore(lines, n)
    ensures var after := AfterRule(p, lines[n].directive, lines[n].value);
            && after.ruleCount == p.ruleCount + (if Kept(lines, n) then 1 else 0)
            && (after.exceeded <==> p.exceeded || Dropped(lines, n))
  {
    assert p.groups != [] <==> InSomeGroup(lines, n);
  }

  lemma OtherLine(lower: string -> string, lines: seq<Line>, n: nat, p: Progress, lastAgent: int, name: string)
    requires n < |lines| && !lines[n].Agent?
    requires Tracks(lower, lines, n, p.groups, name) && OpenGroup(lines, n, p.groups, lastAgent)
    requires p.ruleCount == KeptBefore(lines, n)
    ensures Tracks(lower, lines, n + 1, AfterLine(lower, p, lines[n]).groups, name)
  {
    SpeaksOn(lower, lines, n, name);
    if lines[n].RuleLine? {
      RuleCounts(lines, n, p, lastAgent);
      if p.groups != [] { RuleGroups(p, lines[n].directive, lines[n].value, name); }
    }
  }

  lemma LineCounts(lower: string -> string, lines: seq<Line>, n: nat, p: Progress, lastAgent: int)
    requires n < |lines| && OpenGroup(lines, n, p.groups, lastAgent) && Counts(lines, n, p)
    ensures Counts(lines, n + 1, AfterLine(lower, p, lines[n]))
  {
    if lines[n].RuleLine? { RuleCounts(lines, n, p, lastAgent); }
    assert (exists i :: 0 <= i < n + 1 && Dropped(lines, i)) <==>
           (exists i :: 0 <= i < n && Dropped(lines, i)) || Dropped(lines, n);
  }

  lemma LineOpens(lower: string -> string, lines: seq<Line>, n: nat, p: Progress, lastAgent: int)
    requires n < |lines| && OpenGroup(lines, n, p.groups, lastAgent)
    ensures OpenGroup(lines, n + 1, AfterLine(lower, p, lines[n]).groups, if lines[n].Agent? then n else lastAgent)
  {
  }

  ghost predicate ParsedTo(lower: string -> string, lines: seq<Line>, n: nat, p: Progress, agentName: string, lastAgent: int)
    requires n <= |lines|
  {
    && Counts(lines, n, p) && OpenGroup(lines, n, p.groups, lastAgent)
    && Tracks(lower, lines, n, p.groups, agentName) && Tracks(lower, lines, n, p.groups, "*")
  }

  lemma LineKeeps(lower: string -> string, lines: seq<Line>, n: nat, p: Progress, agentName: string, lastAgent: int)
    requires n < |lines| && ParsedTo(lower, lines, n, p, agentName, lastAgent)
    ensures ParsedTo(lower, lines, n + 1, AfterLine(lower, p, lines[n]), agentName,
                     if lines[n].Agent? then n else lastAgent)
  {
    LineCounts(lower, lines, n, p, lastAgent);
    LineOpens(lower, lines, n, p, lastAgent);
    if lines[n].Agent? {
      AgentLine(lower, lines, n, p.groups, lastAgent, agentName);
      AgentLine(lower, lines, n, p.groups, lastAgent, "*");
    } else {
      OtherLine(lower, lines, n, p, lastAgent, agentName);
      OtherLine(lower, lines, n, p, lastAgent, "*");
    }
  }

  function Parse(lower: string -> string, lines: seq<Line>, n: nat): Progress
    requires n <= |lines|
  {
    if n == 0 then Progress([], 0, false) else AfterLine(lower, Parse(lower, lines, n - 1), lines[n - 1])
  }

  ghost function LastAgent(lines: seq<Line>, n: nat): int
    requires n <= |lines|
  {
    if n == 0 then -1 else if lines[n - 1].Agent? then n - 1 else LastAgent(lines, n - 1)
  }

  lemma {:induction false} ParseKeeps(lower: string -> string, lines: seq<Line>, n: nat, agentName: string)
    requires n <= |lines|
    ensures ParsedTo(lower, lines, n, Parse(lower, lines, n), agentName, LastAgent(lines, n))
  {
    if n > 0 {
      ParseKeeps(lower, lines, n - 1, agentName);
      LineKeeps(lower, lines, n - 1, Parse(lower, lines, n - 1), agentName, LastAgent(lines, n - 1));
    }
  }

  /** What the groups collected from all the lines select, in terms of the lines alone. */
  lemma ParsedPolicy(lower: string -> string, lines: seq<Line>, agentName: string)
    ensures var p := Parse(lower, lines, |lines|);
            var name := if AnyNames(p.groups, agentName) then agentName else "*";
            && Select(p.groups, name) == PolicyFor(lower, lines, agentName)
            && (p.exceeded <==> exists i :: 0 <= i < |lines| && Dropped(lines, i))
  {
    ParseKeeps(lower, lines, |lines|, agentName);
  }

  /** The rules of every group naming the agent, or of the `*` groups when none does. */
  ghost function PolicyFor(lower: string -> string, lines: seq<Line>, agentName: string): seq<Rule> {
    RulesFor(lower, lines, |lines|, if Named(lower, lines, |lines|, agentName) then agentName else "*")
  }

  /** The parser's loop: one line at a time into the open group. */
  method ReadGroups(lower: string -> string, lines: seq<Line>)
    returns (groups: seq<Group>, ruleCount: nat, safetyLimitExceeded: bool)
    ensures Progress(groups, ruleCount, safetyLimitExceeded) == Parse(lower, lines, |lines|)
  {
    groups, ruleCount, safetyLimitExceeded := [], 0, false;
    for n := 0 to |lines|
      invariant Progress(groups, ruleCount, safetyLimitExceeded) == Parse(lower, lines, n)
    {
      match lines[n]
      case Ignored =>
      case Agent(value) =>
        if groups == [] || groups[|groups| - 1].rulesStarted {
          groups := groups + [Group([], [], false)];
        }
        var last := groups[|groups| - 1];
        if value != "" && Utf16Length(value) <= MAX_AGENT_LENGTH {
          last := last.(agents := last.agents + [lower(value)]);
        }
        groups := groups[|groups| - 1 := last];
      case RuleLine(directive, value) =>
        if groups != [] {
          var last := groups[|groups| - 1].(rulesStarted := true);
          if value == "" || Utf16Length(value) > MAX_PATTERN_LENGTH || ruleCount >= MAX_RULES {
            if value != "" { safetyLimitExceeded := true; }
          } else {
            last := last.(rules := last.rules + [Rule(directive, value)]);
            ruleCount := ruleCount + 1;
          }
          groups := groups[|groups| - 1 := last];
        }
    }
  }

  /**
   The parser returns every kept rule of every group that names the agent, or of the `*` groups
   when none does, and raises its safety flag exactly when a non-empty rule of a group is lost.
   */
  method ParseRobotsTxt(lower: string -> string, content: string, agentName: string)
    returns (rules: seq<Rule>, safetyLimitExceeded: bool)
    ensures rules == PolicyFor(lower, Lines(lower, content), agentName)
    ensures safetyLimitExceeded <==>
            exists i :: 0 <= i < |Lines(lower, content)| && Dropped(Lines(lower, content), i)
  {
    var lines := Lines(lower, content);
    var groups, ruleCount, exceeded := ReadGroups(lower, lines);
    ParsedPolicy(lower, lines, agentName);
    assert Parse(lower, lines, |lines|) == Progress(groups, ruleCount, exceeded);
    return Select(groups, if AnyNames(groups, agentName) then agentName else "*"), exceeded;
  }
}

/**
 Matching one robots.txt pattern against a path (src/scraper/fetch.ts), sections 2.2.2 and
 2.2.3 of RFC 9309.
 */
module RobotsGlob {

  // ----- what a pattern means -----

  /** A star stands for any text; every other character stands for itself. */
  ghost predicate Glob(p: string, s: string)
    decreases |p|
  {
    if p == "" then s == ""
    else if p[0] == '*' then exists k | 0 <= k <= |s| :: Glob(p[1..], s[k..])
    else s != "" && s[0] == p[0] && Glob(p[1..], s[1..])
  }

  /** A final `$` anchors the pattern at the end of the path; otherwise a prefix is enough. */
  ghost predicate RuleMatches(p: string, s: string) {
    if p != "" && p[|p| - 1] == '$' then Glob(p[..|p| - 1], s)
    else exists k | 0 <= k <= |s| :: Glob(p, s[..k])
  }

  // ----- the iterative matcher -----

  /** The pattern the loop runs on: the anchor dropped, or a star added for prefix matching. */
  function Body(p: string): string {
    if p != "" && p[|p| - 1] == '$' then p[..|p| - 1] else p + "*"
  }

  /**
   The loop's state after a star at `star`: the literal run since then, body[star + 1..pi], lies
   on path[sm..si].
   */
  ghost predicate Segment(body: string, path: string, star: int, pi: int, sm: int, si: int) {
    && 0 <= star < pi <= |body| && 0 <= sm <= si <= |path| && body[star] == '*'
    && si - sm == pi - (star + 1)
    && '*' !in body[star + 1..pi]
    && body[star + 1..pi] == path[sm..si]
  }

  lemma {:induction false} GlobLiteral(l: string, r: string, s: string)
    requires '*' !in l
    ensures Glob(l + r, s) <==> l <= s && Glob(r, s[|l|..])
  {
    if l == "" {
      assert l + r == r && s[0..] == s;
    } else {
      assert (l + r)[0] == l[0] && (l + r)[1..] == l[1..] + r;
      if s != "" {
        GlobLiteral(l[1..], r, s[1..]);
        assert l <= s <==> l[0] == s[0] && l[1..] <= s[1..];
        if l <= s { assert s[1..][|l[1..]|..] == s[|l|..]; }
      }
    }
  }

  /** The pattern from the star on matches when some later place holds the literal run. */
  lemma StarMeans(body: string, path: string, star: int, pi: int, from: nat)
    requires 0 <= star < pi <= |body| && body[star] == '*' && '*' !in body[star + 1..pi]
    requires from <= |path|
    ensures Glob(body[star..], path[from..]) <==>
            exists k | from <= k <= |path| :: HoldsAt(body, path, star, pi, k)
  {
    var l, r := body[star + 1..pi], body[pi..];
    assert body[star..][1..] == l + r;
    forall k | from <= k <= |path|
      ensures HoldsAt(body, path, star, pi, k) <==> Glob(body[star..][1..], path[from..][k - from..])
    {
      assert path[from..][k - from..] == path[k..];
      GlobLiteral(l, r, path[k..]);
    }
    if Glob(body[star..], path[from..]) {
      var j :| 0 <= j <= |path[from..]| && Glob(body[star..][1..], path[from..][j..]);
      assert HoldsAt(body, path, star, pi, from + j);
    }
  }

  ghost predicate HoldsAt(body: string, path: string, star: int, pi: int, k: nat)
    requires 0 <= star < pi <= |body| && k <= |path|
  {
    var l := body[star + 1..pi];
    l <= path[k..] && Glob(body[pi..], path[k..][|l|..])
  }

  lemma NewStar(body: string, path: string, star: int, pi: int, sm: int, si: int)
    requires Segment(body, path, star, pi, sm, si)
    requires pi < |body| && body[pi] == '*'
    ensures Glob(body[star..], path[sm..]) <==> Glob(body[pi..], path[si..])
  {
    StarMeans(body, path, star, pi, sm);
    if k :| sm <= k <= |path| && HoldsAt(body, path, star, pi, k) {
      var later := path[k..][pi - (star + 1)..];
      var j :| 0 <= j <= |later| && Glob(body[pi..][1..], later[j..]);
      assert later[j..] == path[si..][k - sm + j..];
    }
    if Glob(body[pi..], path[si..]) {
      assert path[sm..][si - sm..] == path[si..];
      assert path[sm..si] <= path[sm..];
      assert HoldsAt(body, path, star, pi, sm);
    }
  }

  lemma StarTakesOneMore(body: string, path: string, star: int, pi: int, sm: int, si: int)
    requires Segment(body, path, star, pi, sm, si) && si < |path|
    requires pi == |body| || (body[pi] != '*' && body[pi] != path[si])
    ensures Glob(body[star..], path[sm..]) <==> Glob(body[star..], path[sm + 1..])
  {
    StarMeans(body, path, star, pi, sm);
    StarMeans(body, path, star, pi, sm + 1);
    assert path[sm..][si - sm..] == path[si..];
    assert !HoldsAt(body, path, star, pi, sm);
  }

  lemma PathExhausted(body: string, path: string, star: int, pi: int, sm: int)
    requires Segment(body, path, star, pi, sm, |path|)
    ensures Glob(body[star..], path[sm..]) <==> Glob(body[pi..], "")
  {
    StarMeans(body, path, star, pi, sm);
    assert path[sm..][|path| - sm..] == "" && path[sm..|path|] <= path[sm..];
    assert HoldsAt(body, path, star, pi, sm) <==> Glob(body[pi..], "");
    forall k | sm < k <= |path| ensures !HoldsAt(body, path, star, pi, k) {
      assert |path[k..]| < pi - (star + 1);
    }
  }

  lemma LiteralExtends(body: string, path: string, star: int, pi: int, sm: int, si: int)
    requires Segment(body, path, star, pi, sm, si) && pi < |body| && si < |path|
    requires body[pi] != '*' && body[pi] == path[si]
    ensures Segment(body, path, star, pi + 1, sm, si + 1)
  {
    assert body[star + 1..pi + 1] == body[star + 1..pi] + [body[pi]];
    assert path[sm..si + 1] == path[sm..si] + [path[si]];
  }

  lemma LiteralMatches(body: string, path: string, pi: int, si: int)
    requires 0 <= pi < |body| && 0 <= si < |path| && body[pi] != '*' && body[pi] == path[si]
    ensures Glob(body[pi..], path[si..]) <==> Glob(body[pi + 1..], path[si + 1..])
  {
    assert body[pi..][1..] == body[pi + 1..] && path[si..][1..] == path[si + 1..];
  }

  /** The loop over the stars that remain once the path has run out. */
  method OnlyStarsLeft(body: string, from: nat) returns (only: bool)
    requires from <= |body|
    ensures only <==> Glob(body[from..], "")
  {
    var pi := from;
    while pi < |body| && body[pi] == '*'
      invariant from <= pi <= |body|
      invariant Glob(body[from..], "") <==> Glob(body[pi..], "")
    {
      assert ""[0..] == "" && body[pi..][1..] == body[pi + 1..];
      pi := pi + 1;
    }
    return pi == |body|;
  }

  /** The greedy loop with one remembered star decides the pattern. */
  method MatchBody(body: string, path: string) returns (matches: bool)
    ensures matches <==> Glob(body, path)
  {
    var pi, si := 0, 0;
    var latestStar, latestStarMatch := -1, 0;
    assert body[0..] == body && path[0..] == path;
    while si < |path|
      invariant 0 <= pi <= |body| && 0 <= si <= |path| && -1 <= latestStar
      invariant latestStar == -1 ==> latestStarMatch == 0 && (Glob(body, path) <==> Glob(body[pi..], path[si..]))
      invariant latestStar >= 0 ==>
                  && Segment(body, path, latestStar, pi, latestStarMatch, si)
                  && (Glob(body, path) <==> Glob(body[latestStar..], path[latestStarMatch..]))
      decreases |body| - latestStar, |path| - latestStarMatch, |path| - si
    {
      if pi < |body| && body[pi] != '*' && body[pi] == path[si] {
        if latestStar >= 0 {
          LiteralExtends(body, path, latestStar, pi, latestStarMatch, si);
        } else {
          LiteralMatches(body, path, pi, si);
        }
        pi, si := pi + 1, si + 1;
        continue;
      }
      if pi < |body| && body[pi] == '*' {
        if latestStar >= 0 { NewStar(body, path, latestStar, pi, latestStarMatch, si); }
        latestStar, latestStarMatch := pi, si;
        pi := pi + 1;
        continue;
      }
      if latestStar >= 0 {
        StarTakesOneMore(body, path, latestStar, pi, latestStarMatch, si);
        pi := latestStar + 1;
        latestStarMatch := latestStarMatch + 1;
        si := latestStarMatch;
        continue;
      }
      return false;
    }
    if latestStar >= 0 { PathExhausted(body, path, latestStar, pi, latestStarMatch); }
    assert path[si..] == "";
    matches := OnlyStarsLeft(body, pi);
  }

  // ----- prefix matching by an added star -----

  lemma {:induction false} AddedStar(p: string, s: string)
    ensures Glob(p + "*", s) <==> exists k | 0 <= k <= |s| :: Glob(p, s[..k])
    decreases |p|, |s|
  {
    if p == "" {
      assert p + "*" == "*" && s[|s|..] == "" && "*"[1..] == "";
      assert Glob("*", s);
      assert Glob(p, s[..0]);
    } else if p[0] == '*' {
      AddedStarAfterStar(p, s);
    } else {
      assert (p + "*")[1..] == p[1..] + "*";
      if s == "" {
        assert s[..0] == "";
      } else {
        AddedStar(p[1..], s[1..]);
        forall k | 1 <= k <= |s| ensures s[1..][..k - 1] == s[..k][1..] { }
        if k :| 0 <= k <= |s[1..]| && Glob(p[1..], s[1..][..k]) && s[0] == p[0] {
          assert Glob(p, s[..k + 1]);
        }
        if k :| 0 <= k <= |s| && Glob(p, s[..k]) {
          assert Glob(p[1..], s[1..][..k - 1]);
        }
      }
    }
  }

  lemma {:induction false} AddedStarAfterStar(p: string, s: string)
    requires p != "" && p[0] == '*'
    ensures Glob(p + "*", s) <==> exists k | 0 <= k <= |s| :: Glob(p, s[..k])
    decreases |p|, |s|, 0
  {
    assert (p + "*")[1..] == p[1..] + "*";
    if Glob(p + "*", s) {
      var j :| 0 <= j <= |s| && Glob(p[1..] + "*", s[j..]);
      AddedStar(p[1..], s[j..]);
      var k :| 0 <= k <= |s[j..]| && Glob(p[1..], s[j..][..k]);
      assert s[..j + k][j..] == s[j..][..k];
      assert Glob(p, s[..j + k]);
    }
    if k :| 0 <= k <= |s| && Glob(p, s[..k]) {
      var j :| 0 <= j <= |s[..k]| && Glob(p[1..], s[..k][j..]);
      assert s[..k][j..] == s[j..][..k - j];
      AddedStar(p[1..], s[j..]);
    }
  }

  /** The body handed to the loop means what the rule means. */
  lemma BodyMeansRule(p: string, s: string)
    ensures Glob(Body(p), s) <==> RuleMatches(p, s)
  {
    if p == "" || p[|p| - 1] != '$' { AddedStar(p, s); }
  }
}

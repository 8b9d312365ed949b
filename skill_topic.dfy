/** The topic a skill's notifications are published to:
    `skill_` followed by the skill lower-cased, with every maximal run of
    whitespace replaced by a single underscore. */
module SkillTopic {
  import opened Ascii

  const TopicPrefix: string := "skill_"

  /** What one match of `\s+` is replaced with. */
  const RunReplacement: char := '_'

  predicate NoWhitespace(s: string) {
    forall i :: 0 <= i < |s| ==> !IsWhitespace(s[i])
  }

  predicate NoUpper(s: string) {
    forall i :: 0 <= i < |s| ==> !IsUpper(s[i])
  }

  predicate AllWhitespace(s: string) {
    forall i :: 0 <= i < |s| ==> IsWhitespace(s[i])
  }

  /** `l` is `skill` lower-cased, character by character. */
  predicate LowerCaseOf(l: string, skill: string) {
    |l| == |skill| && forall k :: 0 <= k < |skill| ==> l[k] == ToLower(skill[k])
  }

  /** Lower-casing of a whole string, character by character. */
  function LowerCase(s: string): (r: string)
    ensures |r| == |s|
    ensures LowerCaseOf(r, s)
    ensures NoUpper(r)
    ensures forall i :: 0 <= i < |s| ==> (IsWhitespace(r[i]) <==> IsWhitespace(s[i]))
    ensures NoUpper(s) ==> r == s
  {
    seq(|s|, i requires 0 <= i < |s| => ToLower(s[i]))
  }

  /** The length of the whitespace run at the front of `s`: what one
      leftmost-longest match of `\s+` consumes there (0 when there is none).
      `LeadingRunSpec` says which characters it covers. */
  function LeadingRun(s: string): (k: nat)
    ensures k <= |s|
    ensures s != [] && IsWhitespace(s[0]) ==> k > 0
  {
    if s != [] && IsWhitespace(s[0]) then 1 + LeadingRun(s[1..]) else 0
  }

  /** The leading run is maximal: every character it covers is whitespace
      and the character after it, if any, is not. */
  lemma {:induction false} LeadingRunSpec(s: string)
    ensures forall j :: 0 <= j < LeadingRun(s) ==> IsWhitespace(s[j])
    ensures LeadingRun(s) < |s| ==> !IsWhitespace(s[LeadingRun(s)])
  {
    if s != [] && IsWhitespace(s[0]) {
      LeadingRunSpec(s[1..]);
      forall j | 1 <= j < LeadingRun(s)
        ensures IsWhitespace(s[j])
      {
        assert s[j] == s[1..][j - 1];
      }
    }
  }

  /** The global replacement of `\s+` by `_`: scanning from the left, each
      maximal run of whitespace is replaced by one underscore and every other
      character is copied. */
  function CollapseRuns(s: string): (r: string)
    ensures |r| <= |s|
    decreases |s|
  {
    if s == [] then []
    else if IsWhitespace(s[0]) then [RunReplacement] + CollapseRuns(s[LeadingRun(s)..])
    else [s[0]] + CollapseRuns(s[1..])
  }

  /** Every whitespace character is consumed by some run, so none is left. */
  lemma {:induction false} CollapseRemovesWhitespace(s: string)
    ensures NoWhitespace(CollapseRuns(s))
    decreases |s|
  {
    if s != [] {
      var rest := if IsWhitespace(s[0]) then s[LeadingRun(s)..] else s[1..];
      CollapseRemovesWhitespace(rest);
    }
  }

  /** Replacing runs introduces no upper-case letter. */
  lemma {:induction false} CollapseKeepsNoUpper(s: string)
    requires NoUpper(s)
    ensures NoUpper(CollapseRuns(s))
    decreases |s|
  {
    if s != [] {
      var rest := if IsWhitespace(s[0]) then s[LeadingRun(s)..] else s[1..];
      assert NoUpper(rest) by {
        forall i | 0 <= i < |rest|
          ensures !IsUpper(rest[i])
        {
          var off := if IsWhitespace(s[0]) then LeadingRun(s) else 1;
          assert rest[i] == s[off + i];
        }
      }
      CollapseKeepsNoUpper(rest);
    }
  }

  /** Text without whitespace is left unchanged by replacing runs. */
  lemma {:induction false} CollapseFixesNoWhitespace(s: string)
    requires NoWhitespace(s)
    ensures CollapseRuns(s) == s
    decreases |s|
  {
    if s != [] {
      assert !IsWhitespace(s[0]);
      assert NoWhitespace(s[1..]) by {
        forall i | 0 <= i < |s[1..]|
          ensures !IsWhitespace(s[1..][i])
        {
          assert s[1..][i] == s[i + 1];
        }
      }
      CollapseFixesNoWhitespace(s[1..]);
      assert [s[0]] + s[1..] == s;
    }
  }

  /** The formatted skill: lower-cased first, then each whitespace run
      replaced by one underscore. */
  function FormatSkill(skill: string): (r: string)
    ensures |r| <= |skill|
    ensures NoWhitespace(r) && NoUpper(r)
  {
    CollapseKeepsNoUpper(LowerCase(skill));
    CollapseRemovesWhitespace(LowerCase(skill));
    CollapseRuns(LowerCase(skill))
  }

  /** The topic: the formatted skill behind the fixed prefix. */
  function TopicFor(skill: string): (t: string)
    ensures |t| >= |TopicPrefix| && t[..|TopicPrefix|] == TopicPrefix
    ensures t[|TopicPrefix|..] == FormatSkill(skill)
    ensures |t| <= |TopicPrefix| + |skill|
    ensures NoWhitespace(t) && NoUpper(t)
  {
    TopicPrefix + FormatSkill(skill)
  }

  // ---------------------------------------------------------------------
  // A position-by-position reference for the formatting step.

  /** What position `i` of `skill` contributes to the formatted skill: a
      non-whitespace character its lower-case form, the first character of a
      whitespace run one underscore, any later character of that run nothing. */
  function Contribution(skill: string, i: nat): string
    requires i < |skill|
  {
    if !IsWhitespace(skill[i]) then [ToLower(skill[i])]
    else if i > 0 && IsWhitespace(skill[i - 1]) then []
    else [RunReplacement]
  }

  /** The contributions of positions `i`, `i + 1`, ... of `skill`, in order. */
  function ContributionsFrom(skill: string, i: nat): string
    requires i <= |skill|
    decreases |skill| - i
  {
    if i == |skill| then [] else Contribution(skill, i) + ContributionsFrom(skill, i + 1)
  }

  /** Position `i` does not fall strictly inside a whitespace run. */
  predicate NotInsideRun(s: string, i: nat)
    requires i <= |s|
  {
    i == 0 || i == |s| || !IsWhitespace(s[i - 1]) || !IsWhitespace(s[i])
  }

  /** Positions `i + 1 .. j` all continue the run that contains `i`, so they
      contribute nothing. */
  lemma {:induction false} RunTailContributesNothing(s: string, i: nat, j: nat)
    requires i < j <= |s|
    requires forall k :: i <= k < j ==> IsWhitespace(s[k])
    ensures ContributionsFrom(s, i + 1) == ContributionsFrom(s, j)
    decreases j - i
  {
    if i + 1 < j {
      var rest := ContributionsFrom(s, i + 2);
      assert ContributionsFrom(s, i + 1) == rest by {
        assert IsWhitespace(s[i]) && IsWhitespace(s[i + 1]);
        assert Contribution(s, i + 1) == [];
        assert [] + rest == rest;
      }
      RunTailContributesNothing(s, i + 1, j);
    }
  }

  lemma {:induction false} ContributionsMatchCollapse(s: string, l: string, i: nat)
    requires LowerCaseOf(l, s)
    requires i <= |s| && NotInsideRun(s, i)
    ensures ContributionsFrom(s, i) == CollapseRuns(l[i..])
    decreases |s| - i
  {
    if i < |s| {
      if !IsWhitespace(s[i]) {
        CollapseStepAtChar(s, l, i);
        ContributionsMatchCollapse(s, l, i + 1);
      } else {
        var j := CollapseStepAtRun(s, l, i);
        ContributionsMatchCollapse(s, l, j);
      }
    } else {
      assert l[i..] == [];
    }
  }

  /** At a non-whitespace position both sides emit its lower-case form and
      move on by one. */
  lemma CollapseStepAtChar(s: string, l: string, i: nat)
    requires LowerCaseOf(l, s)
    requires i < |s| && !IsWhitespace(s[i])
    ensures ContributionsFrom(s, i) == [ToLower(s[i])] + ContributionsFrom(s, i + 1)
    ensures CollapseRuns(l[i..]) == [ToLower(s[i])] + CollapseRuns(l[i + 1..])
  {
    assert l[i..][0] == l[i];
    assert l[i..][1..] == l[i + 1..];
  }

  /** At the first position of a run both sides emit one underscore and
      resume at the end `j` of the run. */
  lemma CollapseStepAtRun(s: string, l: string, i: nat) returns (j: nat)
    requires LowerCaseOf(l, s)
    requires i < |s| && NotInsideRun(s, i) && IsWhitespace(s[i])
    ensures i < j <= |s| && NotInsideRun(s, j)
    ensures ContributionsFrom(s, i) == [RunReplacement] + ContributionsFrom(s, j)
    ensures CollapseRuns(l[i..]) == [RunReplacement] + CollapseRuns(l[j..])
  {
    var k := LeadingRun(l[i..]);
    j := i + k;
    assert CollapseRuns(l[i..]) == [RunReplacement] + CollapseRuns(l[j..]) by {
      assert l[i..][0] == l[i];
      assert l[i..][k..] == l[j..];
    }
    LeadingRunSpec(l[i..]);
    forall m | i <= m < j
      ensures IsWhitespace(s[m])
    {
      assert l[i..][m - i] == l[m];
    }
    assert j < |s| ==> l[i..][k] == l[j];
    RunTailContributesNothing(s, i, j);
  }

  /** The formatted skill is exactly the position-by-position contributions:
      lower-cased non-whitespace characters in their original order, and one
      underscore per maximal whitespace run. */
  lemma FormatSkillByPosition(skill: string)
    ensures FormatSkill(skill) == ContributionsFrom(skill, 0)
  {
    var l := LowerCase(skill);
    ContributionsMatchCollapse(skill, l, 0);
    assert l[0..] == l;
  }

  // ---------------------------------------------------------------------
  // Run collapsing, stated compositionally.

  /** The leading run is determined by where the first non-whitespace
      character is. */
  lemma LeadingRunIs(s: string, k: nat)
    requires k <= |s|
    requires forall j :: 0 <= j < k ==> IsWhitespace(s[j])
    requires k < |s| ==> !IsWhitespace(s[k])
    ensures LeadingRun(s) == k
  {
    LeadingRunSpec(s);
  }

  /** A run that ends inside `x` is not lengthened by what follows `x`. */
  lemma {:induction false} LeadingRunAppend(x: string, y: string)
    requires x != [] && !IsWhitespace(x[|x| - 1])
    ensures LeadingRun(x + y) == LeadingRun(x)
    decreases |x|
  {
    assert (x + y)[0] == x[0];
    if IsWhitespace(x[0]) {
      assert (x + y)[1..] == x[1..] + y;
      assert x[1..][|x[1..]| - 1] == x[|x| - 1];
      LeadingRunAppend(x[1..], y);
    }
  }

  /** Replacing runs distributes over a split that does not cut a run. */
  lemma {:induction false} CollapseAppend(x: string, y: string)
    requires x == [] || !IsWhitespace(x[|x| - 1])
    ensures CollapseRuns(x + y) == CollapseRuns(x) + CollapseRuns(y)
    decreases |x|
  {
    if x == [] {
      assert x + y == y;
    } else if IsWhitespace(x[0]) {
      var k := LeadingRun(x);
      LeadingRunSpec(x);
      assert x[k..][|x[k..]| - 1] == x[|x| - 1];
      CollapseAppend(x[k..], y);
      UnfoldRunBeforeAppend(x, y);
      Associative([RunReplacement], CollapseRuns(x[k..]), CollapseRuns(y));
    } else {
      assert x[1..] == [] || x[1..][|x[1..]| - 1] == x[|x| - 1];
      CollapseAppend(x[1..], y);
      UnfoldCharBeforeAppend(x, y);
      Associative([x[0]], CollapseRuns(x[1..]), CollapseRuns(y));
    }
  }

  /** One step of the replacement on `x + y` when `x` starts with a run
      that ends inside `x`. */
  lemma UnfoldRunBeforeAppend(x: string, y: string)
    requires x != [] && IsWhitespace(x[0]) && !IsWhitespace(x[|x| - 1])
    ensures CollapseRuns(x + y) == [RunReplacement] + CollapseRuns(x[LeadingRun(x)..] + y)
  {
    LeadingRunAppend(x, y);
    assert (x + y)[0] == x[0];
    assert (x + y)[LeadingRun(x)..] == x[LeadingRun(x)..] + y;
  }

  /** One step of the replacement on `x + y` when `x` starts with a
      non-whitespace character. */
  lemma UnfoldCharBeforeAppend(x: string, y: string)
    requires x != [] && !IsWhitespace(x[0])
    ensures CollapseRuns(x + y) == [x[0]] + CollapseRuns(x[1..] + y)
  {
    assert (x + y)[0] == x[0];
    assert (x + y)[1..] == x[1..] + y;
  }

  lemma Associative(a: string, b: string, c: string)
    ensures a + (b + c) == a + b + c
  {
  }

  lemma LowerCaseAppend(x: string, y: string)
    ensures LowerCase(x + y) == LowerCase(x) + LowerCase(y)
  {
  }

  /** A whole run followed by text that does not continue it collapses to
      one underscore in front of that text. */
  lemma CollapseWholeRun(w: string, b: string)
    requires w != [] && AllWhitespace(w)
    requires b == [] || !IsWhitespace(b[0])
    ensures CollapseRuns(w + b) == [RunReplacement] + CollapseRuns(b)
  {
    assert LeadingRun(w + b) == |w| by {
      LeadingRunIs(w + b, |w|);
    }
    assert (w + b)[|w|..] == b;
    assert (w + b)[0] == w[0];
  }

  /** `CollapseWholeRun` with text in front that does not continue the run. */
  lemma CollapseRunBetween(x: string, w: string, y: string)
    requires x == [] || !IsWhitespace(x[|x| - 1])
    requires w != [] && AllWhitespace(w)
    requires y == [] || !IsWhitespace(y[0])
    ensures CollapseRuns(x + w + y) == CollapseRuns(x) + [RunReplacement] + CollapseRuns(y)
  {
    Associative(x, w, y);
    CollapseAppend(x, w + y);
    CollapseWholeRun(w, y);
    Associative(CollapseRuns(x), [RunReplacement], CollapseRuns(y));
  }

  /** A maximal whitespace run `w`, whatever its length, becomes exactly one
      underscore, and the text on either side is formatted independently. */
  lemma RunBecomesOneUnderscore(a: string, w: string, b: string)
    requires a == [] || !IsWhitespace(a[|a| - 1])
    requires w != [] && AllWhitespace(w)
    requires b == [] || !IsWhitespace(b[0])
    ensures FormatSkill(a + w + b) == FormatSkill(a) + [RunReplacement] + FormatSkill(b)
  {
    var la, lw, lb := LowerCase(a), LowerCase(w), LowerCase(b);
    assert LowerCase(a + w + b) == la + lw + lb by {
      LowerCaseAppend(a + w, b);
      LowerCaseAppend(a, w);
    }
    assert la == [] || !IsWhitespace(la[|la| - 1]);
    assert AllWhitespace(lw);
    assert lb == [] || !IsWhitespace(lb[0]);
    CollapseRunBetween(la, lw, lb);
  }

  /** Formatting is idempotent: its output has no whitespace and no upper
      case, so neither step changes it again. */
  lemma FormatIdempotent(skill: string)
    ensures FormatSkill(FormatSkill(skill)) == FormatSkill(skill)
  {
    var f := FormatSkill(skill);
    assert LowerCase(f) == f;
    CollapseFixesNoWhitespace(f);
  }

  /** A formatted skill routes to the same topic as the skill itself. */
  lemma TopicOfFormattedSkill(skill: string)
    ensures TopicFor(FormatSkill(skill)) == TopicFor(skill)
  {
    FormatIdempotent(skill);
  }

  /** Without whitespace, formatting is lower-casing alone. */
  lemma FormatWithoutWhitespace(skill: string)
    requires NoWhitespace(skill)
    ensures FormatSkill(skill) == LowerCase(skill)
  {
    CollapseFixesNoWhitespace(LowerCase(skill));
  }

  /** Two words separated by one space: the topic joins their lower-case
      forms with an underscore. */
  lemma TwoWordTopic(first: string, second: string)
    requires first != [] && NoWhitespace(first)
    requires second != [] && NoWhitespace(second)
    ensures TopicFor(first + " " + second) == TopicPrefix + LowerCase(first) + "_" + LowerCase(second)
  {
    assert AllWhitespace(" ");
    RunBecomesOneUnderscore(first, " ", second);
    FormatWithoutWhitespace(first);
    FormatWithoutWhitespace(second);
  }

  /** The worked example: "Water Rescue" is published to `skill_water_rescue`. */
  lemma WaterRescueTopic(skill: string)
    requires skill == "Water Rescue"
    ensures TopicFor(skill) == "skill_water_rescue"
  {
    var first, second := "Water", "Rescue";
    var parts := TopicPrefix + "water" + "_" + "rescue";
    assert TopicFor(skill) == parts by {
      assert skill == first + " " + second;
      LowerCaseWords(first, second);
      TwoWordTopic(first, second);
    }
    assert parts == "skill_water_rescue";
  }

  lemma LowerCaseWords(first: string, second: string)
    requires first == "Water" && second == "Rescue"
    ensures first != [] && NoWhitespace(first) && LowerCase(first) == "water"
    ensures second != [] && NoWhitespace(second) && LowerCase(second) == "rescue"
  {
    assert LowerCase(first)[0] == 'w';
    assert LowerCase(second)[0] == 'r';
  }
}

/**
 * The user-type classifier and the fixed-template table of
 * app/services/plan_rule_engine.py.
 *
 * Scores are integers. The source divides the sum of the positive scores by
 * their number to get a float average; every comparison with that average is
 * restated here exactly, by multiplying through by the (positive) count:
 * `max - avg >= 20` is `n * max - sum >= 20 * n`, `avg < c` is `sum < c * n`.
 * AverageBelow (rules 3 and 4) and GapAtLeast (rule 1) show that each
 * restatement agrees with the real-valued average.
 */
module PlanRuleEngine {
  import opened Constants

  // ---------------------------------------------------------------------------
  // Statistics over a sequence of scores
  // ---------------------------------------------------------------------------

  function Sum(s: seq<int>): (r: int)
  {
    if s == [] then 0 else s[0] + Sum(s[1..])
  }

  /** The largest element (Python's `max` on a non-empty collection). */
  function Max(s: seq<int>): (r: int)
    requires s != []
    ensures r in s
    ensures forall x :: x in s ==> x <= r
  {
    if |s| == 1 then s[0]
    else
      var m := Max(s[1..]);
      assert forall x :: x in s ==> x == s[0] || x in s[1..];
      if s[0] >= m then s[0] else m
  }

  /** The smallest element (Python's `min` on a non-empty collection). */
  function Min(s: seq<int>): (r: int)
    requires s != []
    ensures r in s
    ensures forall x :: x in s ==> r <= x
  {
    if |s| == 1 then s[0]
    else
      var m := Min(s[1..]);
      assert forall x :: x in s ==> x == s[0] || x in s[1..];
      if s[0] <= m then s[0] else m
  }

  /** How many elements satisfy `f` (a generator-expression count). */
  function CountWhere(s: seq<int>, f: int -> bool): (r: nat)
    ensures r <= |s|
  {
    if s == [] then 0 else (if f(s[0]) then 1 else 0) + CountWhere(s[1..], f)
  }

  /** A score counted by the Advantage rule (plan_rule_engine.py:40). */
  predicate IsHigh(x: int) { x >= 150 }

  /** A score counted by the Potential rule (plan_rule_engine.py:46). */
  predicate IsMid(x: int) { 80 <= x < 110 }

  /** The positive elements, in order (the dict comprehension at line 24). */
  function Positive(s: seq<int>): (r: seq<int>)
    ensures |r| <= |s|
    ensures forall x :: x in r ==> x > 0
    ensures forall x :: multiset(r)[x] == if x > 0 then multiset(s)[x] else 0
  {
    if s == [] then []
    else
      var rest := Positive(s[1..]);
      assert s == [s[0]] + s[1..];
      assert multiset(s) == multiset{s[0]} + multiset(s[1..]);
      if s[0] > 0 then [s[0]] + rest else rest
  }

  // ---------------------------------------------------------------------------
  // The classifier
  // ---------------------------------------------------------------------------

  /** A profile record: a missing key reads as 0. */
  type Profile = map<string, int>

  const PerceptionKey: string := "perception_score"
  const ExecKey: string := "exec_score"
  const AttentionKey: string := "attention"
  const MemoryKey: string := "memory"

  /** `profile.get(key, 0)` */
  function ScoreOf(p: Profile, key: string): (r: int)
    ensures key !in p ==> r == 0
    ensures key in p ==> r == p[key]
  {
    if key in p then p[key] else 0
  }

  /** The four level-1 scores, in the order the classifier builds them. */
  function Scores(p: Profile): (r: seq<int>)
  {
    [ScoreOf(p, PerceptionKey), ScoreOf(p, ExecKey), ScoreOf(p, AttentionKey), ScoreOf(p, MemoryKey)]
  }

  /** Rule 1: the top score is at least 110 and at least 20 above the average. */
  predicate SpecialRule(vs: seq<int>)
  {
    vs != [] && Max(vs) >= 110 && |vs| * Max(vs) - Sum(vs) >= 20 * |vs|
  }

  /** Rule 2: at least two scores of 150 or more. */
  predicate AdvantageRule(vs: seq<int>)
  {
    CountWhere(vs, IsHigh) >= 2
  }

  /** Rule 3: at least two scores in [80, 110) and an average below 120. */
  predicate PotentialRule(vs: seq<int>)
  {
    CountWhere(vs, IsMid) >= 2 && Sum(vs) < 120 * |vs|
  }

  /** Rule 4: an average below 80 or a lowest score below 60. */
  predicate GrowthRule(vs: seq<int>)
  {
    vs != [] && (Sum(vs) < 80 * |vs| || Min(vs) < 60)
  }

  /** The ordered cascade over the positive scores `vs`; every result is
      justified by its own rule. */
  function Classify(vs: seq<int>): (r: UserType)
    ensures vs == [] ==> r == Growth
    ensures r == Special ==> SpecialRule(vs)
    ensures r == Advantage ==> AdvantageRule(vs) && !SpecialRule(vs)
    ensures r == Potential ==> vs != [] && (PotentialRule(vs) || !GrowthRule(vs))
    ensures r == Growth ==> vs == [] || GrowthRule(vs)
  {
    if vs == [] then Growth
    else if Max(vs) >= 110 && |vs| * Max(vs) - Sum(vs) >= 20 * |vs| then Special
    else if CountWhere(vs, IsHigh) >= 2 then Advantage
    else if CountWhere(vs, IsMid) >= 2 && Sum(vs) < 120 * |vs| then Potential
    else if Sum(vs) < 80 * |vs| || Min(vs) < 60 then Growth
    else Potential
  }

  /** calc_user_type: classify a profile by its positive level-1 scores. */
  function CalcUserType(p: Profile): (r: UserType)
    ensures Positive(Scores(p)) == [] ==> r == Growth
    ensures r == Special ==> SpecialRule(Positive(Scores(p)))
  {
    Classify(Positive(Scores(p)))
  }

  // ---------------------------------------------------------------------------
  // Properties of the classifier
  // ---------------------------------------------------------------------------

  /** The exact restatement of an average comparison agrees with real division. */
  lemma AverageBelow(sum: int, n: int, c: int)
    requires n > 0
    ensures (sum < c * n) <==> ((sum as real) / (n as real) < c as real)
  {
    var avg := (sum as real) / (n as real);
    assert avg * (n as real) == sum as real;
    if sum < c * n {
      assert avg * (n as real) < (c as real) * (n as real);
    } else {
      assert avg * (n as real) >= (c as real) * (n as real);
    }
  }

  /** The restatement of rule 1's `max - avg >= 20` agrees with real division. */
  lemma GapAtLeast(sum: int, n: int, m: int)
    requires n > 0
    ensures (n * m - sum >= 20 * n) <==> ((m as real) - (sum as real) / (n as real) >= 20.0)
  {
    AverageBelow(sum, n, m - 20);
    assert (m - 20) * n == n * m - 20 * n;
  }

  /** With no positive score at all (missing keys count as 0) the result is Growth. */
  lemma NoDataIsGrowth(p: Profile)
    requires ScoreOf(p, PerceptionKey) <= 0 && ScoreOf(p, ExecKey) <= 0
    requires ScoreOf(p, AttentionKey) <= 0 && ScoreOf(p, MemoryKey) <= 0
    ensures CalcUserType(p) == Growth
  {
    PositiveOfNonPositive(Scores(p));
  }

  lemma PositiveOfNonPositive(s: seq<int>)
    requires forall i :: 0 <= i < |s| ==> s[i] <= 0
    ensures Positive(s) == []
  {
  }

  /** The positive scores of two profiles are equal when they differ only in one
      key whose score is non-positive (or missing) in both. */
  lemma {:induction false} PositiveScoresIgnoreNonPositive(p: Profile, q: Profile, key: string)
    requires key in {PerceptionKey, ExecKey, AttentionKey, MemoryKey}
    requires ScoreOf(p, key) <= 0 && ScoreOf(q, key) <= 0
    requires forall k :: k in {PerceptionKey, ExecKey, AttentionKey, MemoryKey} && k != key ==>
               ScoreOf(p, k) == ScoreOf(q, k)
    ensures Positive(Scores(p)) == Positive(Scores(q))
  {
    var a, b := Scores(p), Scores(q);
    assert forall i :: 0 <= i < 4 ==> (a[i] == b[i] || (a[i] <= 0 && b[i] <= 0));
    PositivePointwise(a, b);
  }

  lemma {:induction false} PositivePointwise(a: seq<int>, b: seq<int>)
    requires |a| == |b|
    requires forall i :: 0 <= i < |a| ==> (a[i] == b[i] || (a[i] <= 0 && b[i] <= 0))
    ensures Positive(a) == Positive(b)
  {
    if a != [] {
      PositivePointwise(a[1..], b[1..]);
    }
  }

  /** Non-positive scores are invisible: setting a non-positive score to any other
      non-positive value, or removing its key, never changes the user type. */
  lemma NonPositiveIsInvisible(p: Profile, key: string, v: int)
    requires key in {PerceptionKey, ExecKey, AttentionKey, MemoryKey}
    requires ScoreOf(p, key) <= 0 && v <= 0
    ensures CalcUserType(p[key := v]) == CalcUserType(p)
    ensures CalcUserType(p - {key}) == CalcUserType(p)
  {
    PositiveScoresIgnoreNonPositive(p[key := v], p, key);
    PositiveScoresIgnoreNonPositive(p - {key}, p, key);
  }

  // --- Permutation invariance of the statistics ---

  lemma {:induction false} SumConcat(a: seq<int>, b: seq<int>)
    ensures Sum(a + b) == Sum(a) + Sum(b)
  {
    if a != [] {
      assert (a + b)[0] == a[0];
      assert (a + b)[1..] == a[1..] + b;
      SumConcat(a[1..], b);
    } else {
      assert a + b == b;
    }
  }

  lemma {:induction false} CountConcat(a: seq<int>, b: seq<int>, f: int -> bool)
    ensures CountWhere(a + b, f) == CountWhere(a, f) + CountWhere(b, f)
  {
    if a != [] {
      assert (a + b)[0] == a[0];
      assert (a + b)[1..] == a[1..] + b;
      CountConcat(a[1..], b, f);
    } else {
      assert a + b == b;
    }
  }

  /** Removing the element at `i` from `t`, and what that does to its multiset. */
  lemma SplitAt(t: seq<int>, i: int)
    requires 0 <= i < |t|
    ensures t == t[..i] + [t[i]] + t[i + 1..]
    ensures multiset(t) == multiset(t[..i] + t[i + 1..]) + multiset{t[i]}
  {
    assert t == t[..i] + [t[i]] + t[i + 1..];
  }

  lemma SumRemove(t: seq<int>, i: int)
    requires 0 <= i < |t|
    ensures Sum(t) == t[i] + Sum(t[..i] + t[i + 1..])
  {
    var a, x, b := t[..i], t[i], t[i + 1..];
    assert t == a + ([x] + b);
    assert ([x] + b)[0] == x && ([x] + b)[1..] == b;
    SumConcat(a, [x] + b);
    SumConcat(a, b);
  }

  lemma CountRemove(t: seq<int>, i: int, f: int -> bool)
    requires 0 <= i < |t|
    ensures CountWhere(t, f) == (if f(t[i]) then 1 else 0) + CountWhere(t[..i] + t[i + 1..], f)
  {
    var a, x, b := t[..i], t[i], t[i + 1..];
    assert t == a + ([x] + b);
    assert ([x] + b)[0] == x && ([x] + b)[1..] == b;
    CountConcat(a, [x] + b, f);
    CountConcat(a, b, f);
  }

  /** A permutation of a non-empty `s` is some element equal to s[0] followed,
      once it is removed, by a permutation of the rest. */
  lemma PickHead(s: seq<int>, t: seq<int>) returns (i: int)
    requires s != [] && multiset(s) == multiset(t)
    ensures 0 <= i < |t| && t[i] == s[0]
    ensures multiset(s[1..]) == multiset(t[..i] + t[i + 1..])
  {
    assert s == [s[0]] + s[1..];
    assert multiset(s) == multiset{s[0]} + multiset(s[1..]);
    assert s[0] in multiset(t);
    i :| 0 <= i < |t| && t[i] == s[0];
    SplitAt(t, i);
    assert multiset(s[1..]) == multiset(s) - multiset{s[0]};
    assert multiset(t[..i] + t[i + 1..]) == multiset(t) - multiset{t[i]};
  }

  lemma {:induction false} SumPermutation(s: seq<int>, t: seq<int>)
    requires multiset(s) == multiset(t)
    ensures Sum(s) == Sum(t)
  {
    if s != [] {
      var i := PickHead(s, t);
      SumPermutation(s[1..], t[..i] + t[i + 1..]);
      SumRemove(t, i);
    }
  }

  lemma {:induction false} CountPermutation(s: seq<int>, t: seq<int>, f: int -> bool)
    requires multiset(s) == multiset(t)
    ensures CountWhere(s, f) == CountWhere(t, f)
  {
    if s != [] {
      var i := PickHead(s, t);
      CountPermutation(s[1..], t[..i] + t[i + 1..], f);
      CountRemove(t, i, f);
    }
  }

  lemma ExtremaPermutation(s: seq<int>, t: seq<int>)
    requires s != [] && multiset(s) == multiset(t)
    ensures t != [] && Max(s) == Max(t) && Min(s) == Min(t)
  {
    assert s[0] in multiset(s);
    assert t != [];
    var a, b := Max(s), Max(t);
    assert a in multiset(t) && b in multiset(s);
    assert a in t && b in s;
    var c, d := Min(s), Min(t);
    assert c in multiset(t) && d in multiset(s);
    assert c in t && d in s;
  }

  /** The cascade depends only on the multiset of scores it is given. */
  lemma ClassifyPermutation(s: seq<int>, t: seq<int>)
    requires multiset(s) == multiset(t)
    ensures Classify(s) == Classify(t)
  {
    assert |s| == |multiset(s)| == |t|;
    SumPermutation(s, t);
    CountPermutation(s, t, IsHigh);
    CountPermutation(s, t, IsMid);
    if s != [] {
      ExtremaPermutation(s, t);
    }
  }

  /** Symmetry: two profiles with the same multiset of positive level-1 scores get
      the same user type, whichever abilities those scores belong to. */
  lemma CalcUserTypeSymmetric(p: Profile, q: Profile)
    requires multiset(Positive(Scores(p))) == multiset(Positive(Scores(q)))
    ensures CalcUserType(p) == CalcUserType(q)
  {
    ClassifyPermutation(Positive(Scores(p)), Positive(Scores(q)));
  }

  /** In particular, permuting the four scores among the four abilities does not
      change the user type. */
  lemma PermutedScoresSameType(p: Profile, q: Profile)
    requires multiset(Scores(p)) == multiset(Scores(q))
    ensures CalcUserType(p) == CalcUserType(q)
  {
    PositivePermutation(Scores(p), Scores(q));
    CalcUserTypeSymmetric(p, q);
  }

  lemma PositivePermutation(s: seq<int>, t: seq<int>)
    requires multiset(s) == multiset(t)
    ensures multiset(Positive(s)) == multiset(Positive(t))
  {
    var a, b := Positive(s), Positive(t);
    forall x ensures multiset(a)[x] == multiset(b)[x] { }
  }

  // --- The cascade, rule by rule ---

  /** Rule 1 has top precedence: it wins even when rule 2 also holds. */
  lemma SpecialHasPrecedence(p: Profile)
    requires SpecialRule(Positive(Scores(p)))
    ensures CalcUserType(p) == Special
  {
  }

  /** Advantage exactly when rule 1 fails and at least two positive scores are
      150 or more. */
  lemma AdvantageExactly(p: Profile)
    ensures var vs := Positive(Scores(p));
      CalcUserType(p) == Advantage <==> !SpecialRule(vs) && AdvantageRule(vs)
  {
    var vs := Positive(Scores(p));
    if vs == [] {
      assert CountWhere(vs, IsHigh) == 0;
    }
  }

  /** Growth exactly when there is no positive score, or rules 1 to 3 fail and
      rule 4 holds. */
  lemma GrowthExactly(p: Profile)
    ensures var vs := Positive(Scores(p));
      CalcUserType(p) == Growth <==>
        vs == [] || (!SpecialRule(vs) && !AdvantageRule(vs) && !PotentialRule(vs) && GrowthRule(vs))
  {
  }

  /** Potential exactly when there is a positive score, rules 1 and 2 fail, and
      either rule 3 holds or all four rules fail (the default). */
  lemma PotentialExactly(p: Profile)
    ensures var vs := Positive(Scores(p));
      CalcUserType(p) == Potential <==>
        vs != [] && !SpecialRule(vs) && !AdvantageRule(vs) && (PotentialRule(vs) || !GrowthRule(vs))
  {
  }

  /** Special exactly when rule 1 holds. */
  lemma SpecialExactly(p: Profile)
    ensures CalcUserType(p) == Special <==> SpecialRule(Positive(Scores(p)))
  {
  }

  /** A single positive score equals the average, so rule 1 can only fire with
      at least two positive scores. */
  lemma SpecialNeedsTwoScores(p: Profile)
    requires CalcUserType(p) == Special
    ensures |Positive(Scores(p))| >= 2
  {
    SingleScore(Positive(Scores(p)));
  }

  lemma SingleScore(vs: seq<int>)
    ensures |vs| == 1 ==> Sum(vs) == vs[0] && Max(vs) == vs[0]
  {
  }

  /** When Potential comes from the default, every positive score is at least 60
      and the average is at least 80. */
  lemma DefaultPotentialBounds(p: Profile)
    requires var vs := Positive(Scores(p));
      vs != [] && !SpecialRule(vs) && !AdvantageRule(vs) && !PotentialRule(vs)
    requires CalcUserType(p) == Potential
    ensures var vs := Positive(Scores(p));
      (forall x :: x in vs ==> x >= 60) && Sum(vs) >= 80 * |vs|
  {
  }

  // ---------------------------------------------------------------------------
  // The fixed-template table (get_fixed_templates)
  // ---------------------------------------------------------------------------

  /**
   * One entry of the table. The prose is abstracted: each string below is a
   * short tag naming the passage (`<user type>/<field>[/<index>]`), and passages
   * that are identical in the source share one tag.
   */
  datatype Template = Template(
    overview: string,
    trainingPlanIntro: string,
    homeAdvice: seq<string>,
    trackingAndAdjustment: seq<string>)

  const SharedRetellNews: string := "shared/home-advice/retell-news"
  const SharedMonitoring: string := "shared/tracking/monitoring"
  const SharedIterationRule: string := "shared/tracking/iteration-rule"

  /** The literal table, keyed by exactly the four user-type strings; every
      entry has two tracking items ending with the shared iteration rule, and
      two or three home-advice items. */
  function Templates(): (r: map<string, Template>)
    ensures r.Keys == {Label(Advantage), Label(Potential), Label(Special), Label(Growth)}
    ensures forall k :: k in r ==>
      |r[k].trackingAndAdjustment| == 2 && r[k].trackingAndAdjustment[1] == SharedIterationRule &&
      2 <= |r[k].homeAdvice| <= 3
  {
    map[
      "优势倾向型" := Template(
        "advantage/overview",
        "advantage/training-plan-intro",
        [SharedRetellNews, "advantage/home-advice/1", "advantage/home-advice/2"],
        ["advantage/tracking/monitoring", SharedIterationRule]),
      "潜能倾向型" := Template(
        "potential/overview",
        "potential/training-plan-intro",
        ["potential/home-advice/0", "potential/home-advice/1", "potential/home-advice/2"],
        [SharedMonitoring, SharedIterationRule]),
      "专项优势型" := Template(
        "special/overview",
        "special/training-plan-intro",
        ["special/home-advice/0", "special/home-advice/1"],
        [SharedMonitoring, SharedIterationRule]),
      "蓄力成长型" := Template(
        "growth/overview",
        "growth/training-plan-intro",
        [SharedRetellNews, "growth/home-advice/1", "growth/home-advice/2"],
        [SharedMonitoring, SharedIterationRule])
    ]
  }

  /** `templates.get(user_type, templates[<Potential>])` */
  function GetFixedTemplates(userType: string): (r: Template)
    ensures Parse(userType).Some? ==> userType in Templates() && r == Templates()[userType]
    ensures Parse(userType).None? ==> r == Templates()[Label(Potential)]
    ensures |r.trackingAndAdjustment| == 2 && 2 <= |r.homeAdvice| <= 3
  {
    var m := Templates();
    if userType in m then m[userType] else m[Label(Potential)]
  }

  /** The four entries are pairwise different, so a lookup by a known type never
      lands on another type's entry. */
  lemma TemplatesDistinct(t: UserType, u: UserType)
    requires t != u
    ensures GetFixedTemplates(Label(t)) != GetFixedTemplates(Label(u))
  {
    ParseLabel(t);
    ParseLabel(u);
  }

  /** The record shape of every entry: Special has two home-advice items, the
      others three; every entry has two tracking items, the last of which is the
      same iteration rule. */
  lemma TemplateShape(t: UserType)
    ensures var r := GetFixedTemplates(Label(t));
      |r.homeAdvice| == (if t == Special then 2 else 3) &&
      |r.trackingAndAdjustment| == 2 &&
      r.trackingAndAdjustment[1] == SharedIterationRule
  {
    ParseLabel(t);
  }

  /** The template the service picks for a profile is the entry of its user type. */
  lemma TemplateForProfile(p: Profile)
    ensures GetFixedTemplates(Label(CalcUserType(p))) == Templates()[Label(CalcUserType(p))]
  {
    ParseLabel(CalcUserType(p));
  }
}

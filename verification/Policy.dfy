/**
 The deny-overrides policy engine: rules are sorted by priority once, then evaluated in order
 until one denies or fails. Rule expressions are an oracle over compiled programs.
 */
module Policy {
  import opened Common

  datatype Effect = Allow | Deny | Unknown(text: string)

  datatype Rule = Rule(id: string, priority: int, effect: Effect, program: nat)

  datatype Evaluation = EvalError | NotBoolean | Boolean(value: bool)

  /** What each program yields for the request at hand. */
  type Oracle = nat -> Evaluation

  datatype Verdict =
    | InvalidResourceType
    | EvaluationFailed(ruleID: string)
    | DeniedBy(ruleID: string)
    | Allowed
    | DefaultDeny

  datatype DecisionLog = DecisionLog(ruleID: string, effect: Effect)

  predicate ValidResourceType(t: string) {
    t in {"route", "mcp_tool", "llm_model", "db_query", "a2a_skill"}
  }

  // ---------------------------------------------------------------- the stable sort

  ghost predicate Descending(rules: seq<Rule>) {
    forall i, j | 0 <= i < j < |rules| :: rules[i].priority >= rules[j].priority
  }

  /** The rules of one priority, in order. */
  ghost function OfPriority(rules: seq<Rule>, p: int): seq<Rule> {
    if |rules| == 0 then []
    else
      var n := |rules| - 1;
      OfPriority(rules[..n], p) + if rules[n].priority == p then [rules[n]] else []
  }

  /** Same rules, highest priority first, and rules of equal priority in their original order. */
  ghost predicate StablySorted(rules: seq<Rule>, sorted: seq<Rule>) {
    && multiset(sorted) == multiset(rules)
    && Descending(sorted)
    && forall p :: OfPriority(sorted, p) == OfPriority(rules, p)
  }

  /** Inserting behind all rules of at least its priority appends to the rules of that priority. */
  lemma {:induction false} InsertedOfPriority(a: seq<Rule>, b: seq<Rule>, r: Rule, p: int)
    requires forall i | 0 <= i < |b| :: b[i].priority != r.priority
    ensures OfPriority(a + [r] + b, p) == OfPriority(a + b, p) + if r.priority == p then [r] else []
  {
    if |b| == 0 {
      assert a + [r] + b == a + [r] && a + b == a && (a + [r])[..|a|] == a;
    } else {
      var n := |b| - 1;
      assert (a + [r] + b)[..|a| + 1 + n] == a + [r] + b[..n];
      assert (a + b)[..|a| + n] == a + b[..n];
      InsertedOfPriority(a, b[..n], r, p);
    }
  }

  lemma InsertionIsDescending(a: seq<Rule>, b: seq<Rule>, r: Rule)
    requires Descending(a + b)
    requires a == [] || a[|a| - 1].priority >= r.priority
    requires forall i | 0 <= i < |b| :: b[i].priority < r.priority
    ensures Descending(a + [r] + b)
  {
    var s, t := a + b, a + [r] + b;
    forall i, j | 0 <= i < j < |t|
      ensures t[i].priority >= t[j].priority
    {
      if j < |a| {
        assert t[i] == s[i] && t[j] == s[j];
      } else if j == |a| {
        assert t[i] == s[i] && s[|a| - 1] == a[|a| - 1];
        assert i < |a| - 1 ==> s[i].priority >= s[|a| - 1].priority;
      } else {
        assert t[j] == s[j - 1] == b[j - |a| - 1];
        assert i < |a| ==> t[i] == s[i];
        assert i > |a| ==> t[i] == s[i - 1];
      }
    }
  }

  /** The rules of one priority after an insertion. */
  lemma InsertionKeepsOrder(rules: seq<Rule>, a: seq<Rule>, b: seq<Rule>, r: Rule, p: int)
    requires OfPriority(a + b, p) == OfPriority(rules, p)
    requires forall i | 0 <= i < |b| :: b[i].priority != r.priority
    ensures OfPriority(a + [r] + b, p) == OfPriority(rules + [r], p)
  {
    InsertedOfPriority(a, b, r, p);
    InsertedOfPriority(rules, [], r, p);
    assert rules + [r] + [] == rules + [r] && rules + [] == rules;
  }

  lemma InsertionIsPermutation(rules: seq<Rule>, a: seq<Rule>, b: seq<Rule>, r: Rule)
    requires multiset(a + b) == multiset(rules)
    ensures multiset(a + [r] + b) == multiset(rules + [r])
  {
  }

  lemma InsertionIsStable(rules: seq<Rule>, sorted: seq<Rule>, k: nat, r: Rule)
    requires StablySorted(rules, sorted) && k <= |sorted|
    requires k == 0 || sorted[k - 1].priority >= r.priority
    requires forall i | k <= i < |sorted| :: sorted[i].priority < r.priority
    ensures StablySorted(rules + [r], sorted[..k] + [r] + sorted[k..])
  {
    var a, b := sorted[..k], sorted[k..];
    assert sorted == a + b;
    forall p
      ensures OfPriority(a + [r] + b, p) == OfPriority(rules + [r], p)
    {
      InsertionKeepsOrder(rules, a, b, r, p);
    }
    InsertionIsDescending(a, b, r);
    InsertionIsPermutation(rules, a, b, r);
  }

  /** The place behind all rules of at least the given priority. */
  method PlaceFor(sorted: seq<Rule>, priority: int) returns (k: nat)
    ensures k <= |sorted|
    ensures k == 0 || sorted[k - 1].priority >= priority
    ensures forall i | k <= i < |sorted| :: sorted[i].priority < priority
  {
    k := |sorted|;
    while k > 0 && sorted[k - 1].priority < priority
      invariant k <= |sorted|
      invariant forall i | k <= i < |sorted| :: sorted[i].priority < priority
    {
      k := k - 1;
    }
  }

  method SortByPriority(rules: seq<Rule>) returns (sorted: seq<Rule>)
    ensures StablySorted(rules, sorted)
  {
    sorted := [];
    for i := 0 to |rules|
      invariant StablySorted(rules[..i], sorted)
    {
      var k := PlaceFor(sorted, rules[i].priority);
      InsertionIsStable(rules[..i], sorted, k, rules[i]);
      assert rules[..i + 1] == rules[..i] + [rules[i]];
      sorted := sorted[..k] + [rules[i]] + sorted[k..];
    }
    assert rules[..|rules|] == rules;
  }

  // ---------------------------------------------------------------- evaluation

  predicate Matches(eval: Oracle, r: Rule) {
    eval(r.program) == Boolean(true)
  }

  /** A rule that ends the evaluation: it fails, or it denies. */
  predicate Blocks(eval: Oracle, r: Rule) {
    eval(r.program).EvalError? || (Matches(eval, r) && r.effect.Deny?)
  }

  predicate Grants(eval: Oracle, r: Rule) {
    Matches(eval, r) && r.effect.Allow?
  }

  /** No rule fails, none denies, and some rule allows. */
  ghost predicate Permits(eval: Oracle, rules: seq<Rule>) {
    (forall r | r in rules :: !Blocks(eval, r)) && exists r :: r in rules && Grants(eval, r)
  }

  /** The first non-empty id among the granting rules; empty if they have none. */
  ghost function LoggedID(eval: Oracle, rules: seq<Rule>): string {
    if |rules| == 0 then ""
    else
      var n := |rules| - 1;
      var before := LoggedID(eval, rules[..n]);
      if before == "" && Grants(eval, rules[n]) then rules[n].id else before
  }

  datatype Question = Blocking | Granting

  predicate Answers(eval: Oracle, q: Question, r: Rule) {
    if q.Blocking? then Blocks(eval, r) else Grants(eval, r)
  }

  /** The first rule of a list that answers the question. */
  ghost function First(eval: Oracle, q: Question, rules: seq<Rule>): Option<Rule> {
    if |rules| == 0 then None
    else
      var n := |rules| - 1;
      var before := First(eval, q, rules[..n]);
      if before.Some? then before
      else if Answers(eval, q, rules[n]) then Some(rules[n])
      else None
  }

  lemma {:induction false} FirstSplit(eval: Oracle, q: Question, a: seq<Rule>, b: seq<Rule>)
    ensures First(eval, q, a + b) == if First(eval, q, a).Some? then First(eval, q, a) else First(eval, q, b)
  {
    if |b| == 0 {
      assert a + b == a;
    } else {
      var n := |b| - 1;
      assert (a + b)[..|a| + n] == a + b[..n];
      FirstSplit(eval, q, a, b[..n]);
    }
  }

  lemma {:induction false} FirstMeaning(eval: Oracle, q: Question, rules: seq<Rule>)
    ensures var f := First(eval, q, rules);
            && (f.None? <==> forall r | r in rules :: !Answers(eval, q, r))
            && (f.Some? ==> exists i :: 0 <= i < |rules| && rules[i] == f.value && Answers(eval, q, f.value)
                                        && forall j | 0 <= j < i :: !Answers(eval, q, rules[j]))
  {
    if |rules| > 0 {
      var n := |rules| - 1;
      FirstMeaning(eval, q, rules[..n]);
      assert rules == rules[..n] + [rules[n]];
      var f := First(eval, q, rules[..n]);
      if f.Some? {
        var i :| 0 <= i < n && rules[..n][i] == f.value && forall j | 0 <= j < i :: !Answers(eval, q, rules[..n][j]);
        assert rules[i] == f.value && forall j | 0 <= j < i :: !Answers(eval, q, rules[j]);
      } else {
        assert forall j | 0 <= j < n :: rules[j] == rules[..n][j] && rules[..n][j] in rules[..n];
      }
    }
  }

  /** Later rules do not change the first one found. */
  lemma FirstStays(eval: Oracle, q: Question, rules: seq<Rule>, i: nat)
    requires i < |rules| && First(eval, q, rules[..i]).None? && Answers(eval, q, rules[i])
    ensures First(eval, q, rules) == Some(rules[i])
  {
    assert rules == rules[..i + 1] + rules[i + 1..];
    FirstSplit(eval, q, rules[..i + 1], rules[i + 1..]);
    assert rules[..i + 1][..i] == rules[..i];
  }

  lemma SameRule(a: seq<Rule>, b: seq<Rule>, r: Rule)
    requires multiset(a) == multiset(b)
    ensures r in a <==> r in b
  {
    assert r in a <==> r in multiset(a);
    assert r in b <==> r in multiset(b);
  }

  lemma NobodyElse(a: seq<Rule>, b: seq<Rule>)
    requires multiset(a) == multiset(b)
    ensures forall r | r in a :: r in b
  {
    forall r | r in a
      ensures r in b
    {
      SameRule(a, b, r);
    }
  }

  /** Permission does not depend on the order in which the rules are given. */
  lemma SameVerdict(eval: Oracle, a: seq<Rule>, b: seq<Rule>)
    requires multiset(a) == multiset(b)
    ensures Permits(eval, a) <==> Permits(eval, b)
  {
    NobodyElse(a, b);
    NobodyElse(b, a);
  }

  /** The given rules permit exactly when in engine order none blocks and some grants. */
  lemma PermitsIff(eval: Oracle, given: seq<Rule>, sorted: seq<Rule>)
    requires StablySorted(given, sorted)
    ensures Permits(eval, given) <==> First(eval, Blocking, sorted).None? && First(eval, Granting, sorted).Some?
  {
    SameVerdict(eval, given, sorted);
    FirstMeaning(eval, Blocking, sorted);
    FirstMeaning(eval, Granting, sorted);
  }

  class PolicyEngine {
    const rules: seq<Rule>
    ghost const given: seq<Rule>

    ghost predicate Valid() {
      StablySorted(given, rules)
    }

    constructor (rules: seq<Rule>)
      ensures Valid() && given == rules
    {
      var sorted := SortByPriority(rules);
      this.rules, given := sorted, rules;
    }

    /** Access is allowed exactly when the resource type is known and the rules as given permit
        it; a refusal names the first rule in priority order that failed or denied, if any. */
    method Evaluate(resourceType: string, eval: Oracle) returns (v: Verdict, entry: DecisionLog)
      requires Valid()
      ensures v.InvalidResourceType? <==> !ValidResourceType(resourceType)
      ensures v.Allowed? <==> ValidResourceType(resourceType) && Permits(eval, given)
      ensures v.EvaluationFailed? || v.DeniedBy? <==>
                ValidResourceType(resourceType) && First(eval, Blocking, rules).Some?
      ensures v.EvaluationFailed? || v.DeniedBy? ==>
                var r := First(eval, Blocking, rules).value;
                v == (if eval(r.program).EvalError? then EvaluationFailed(r.id) else DeniedBy(r.id)) && entry.ruleID == r.id
      ensures v.Allowed? ==> entry.ruleID == LoggedID(eval, rules)
      ensures v.DefaultDeny? ==> entry.ruleID == "default_deny"
      ensures v.InvalidResourceType? ==> entry.ruleID == ""
      ensures entry.effect == if v.Allowed? then Allow else Deny
    {
      PermitsIff(eval, given, rules);
      if !ValidResourceType(resourceType) {
        return InvalidResourceType, DecisionLog("", Deny);
      }
      var hasAllow, matchingAllowRuleID := false, "";
      for i := 0 to |rules|
        invariant First(eval, Blocking, rules[..i]).None?
        invariant hasAllow <==> First(eval, Granting, rules[..i]).Some?
        invariant matchingAllowRuleID == LoggedID(eval, rules[..i])
      {
        var cr := rules[i];
        assert rules[..i + 1][..i] == rules[..i];
        var out := eval(cr.program);
        if Blocks(eval, cr) {
          FirstStays(eval, Blocking, rules, i);
        }
        if out.EvalError? {
          return EvaluationFailed(cr.id), DecisionLog(cr.id, Deny);
        }
        if out.Boolean? && out.value {
          if cr.effect.Deny? {
            return DeniedBy(cr.id), DecisionLog(cr.id, Deny);
          } else if cr.effect.Allow? {
            hasAllow := true;
            if matchingAllowRuleID == "" {
              matchingAllowRuleID := cr.id;
            }
          }
        }
      }
      assert rules[..|rules|] == rules;
      if hasAllow {
        return Allowed, DecisionLog(matchingAllowRuleID, Allow);
      }
      return DefaultDeny, DecisionLog("default_deny", Deny);
    }
  }

  // ---------------------------------------------------------------- which rule is named

  /** In a descending list the first answer has the highest priority of all answers, and is the
      first one among the rules of its priority. */
  lemma {:induction false} FirstOfItsPriority(eval: Oracle, q: Question, sorted: seq<Rule>)
    requires Descending(sorted)
    ensures var f := First(eval, q, sorted);
            f.Some? ==>
              && (forall r | r in sorted && Answers(eval, q, r) :: r.priority <= f.value.priority)
              && First(eval, q, OfPriority(sorted, f.value.priority)) == f
  {
    var n := |sorted| - 1;
    var f := First(eval, q, sorted);
    if f.Some? {
      assert sorted == sorted[..n] + [sorted[n]];
      FirstOfItsPriority(eval, q, sorted[..n]);
      FirstMeaning(eval, q, sorted[..n]);
      var before := First(eval, q, sorted[..n]);
      var p := f.value.priority;
      var last := if sorted[n].priority == p then [sorted[n]] else [];
      FirstSplit(eval, q, OfPriority(sorted[..n], p), last);
      if before.None? {
        NoneAnswers(eval, q, sorted[..n], p);
        FirstSplit(eval, q, [], [sorted[n]]);
        assert [sorted[n]][..0] == [];
        assert First(eval, q, [sorted[n]]) == Some(sorted[n]);
      }
    }
  }

  lemma {:induction false} NoneAnswers(eval: Oracle, q: Question, rules: seq<Rule>, p: int)
    requires First(eval, q, rules).None?
    ensures First(eval, q, OfPriority(rules, p)).None?
  {
    if |rules| > 0 {
      var n := |rules| - 1;
      NoneAnswers(eval, q, rules[..n], p);
      var last := if rules[n].priority == p then [rules[n]] else [];
      FirstSplit(eval, q, OfPriority(rules[..n], p), last);
      assert |last| == 1 ==> last[..0] == [];
    }
  }

  /** The first rule in engine order that blocks (or grants), in terms of the rules as given:
      highest priority, and earliest among those of its priority. */
  lemma FirstInGivenRules(eval: Oracle, q: Question, given: seq<Rule>, sorted: seq<Rule>)
    requires StablySorted(given, sorted)
    ensures var f := First(eval, q, sorted);
            f.Some? ==>
              && (forall r | r in given && Answers(eval, q, r) :: r.priority <= f.value.priority)
              && First(eval, q, OfPriority(given, f.value.priority)) == f
  {
    FirstOfItsPriority(eval, q, sorted);
    NobodyElse(given, sorted);
  }

  lemma {:induction false} LoggedMeaning(eval: Oracle, rules: seq<Rule>)
    ensures LoggedID(eval, rules) == "" <==> forall r | r in rules && Grants(eval, r) :: r.id == ""
    ensures var f := First(eval, Granting, rules);
            f.Some? && f.value.id != "" ==> LoggedID(eval, rules) == f.value.id
    ensures First(eval, Granting, rules).None? ==> LoggedID(eval, rules) == ""
  {
    if |rules| > 0 {
      var n := |rules| - 1;
      LoggedMeaning(eval, rules[..n]);
      FirstMeaning(eval, Granting, rules[..n]);
      assert rules == rules[..n] + [rules[n]];
    }
  }

  /** The log names the first granting rule exactly when that rule has an id or no granting rule
      has one: a first grant without an id is passed over for a later one that has an id. */
  lemma LogNamesFirstGrantIff(eval: Oracle, rules: seq<Rule>)
    requires First(eval, Granting, rules).Some?
    ensures LoggedID(eval, rules) == First(eval, Granting, rules).value.id
            <==> First(eval, Granting, rules).value.id != "" || forall r | r in rules && Grants(eval, r) :: r.id == ""
  {
    LoggedMeaning(eval, rules);
  }

  /** Such a log: the rule without an id grants first, the log names the other one. */
  lemma LogSkipsRuleWithoutID(eval: Oracle, first: Rule, second: Rule)
    requires Grants(eval, first) && Grants(eval, second)
    requires first.id == "" && second.id != ""
    ensures First(eval, Granting, [first, second]) == Some(first)
    ensures LoggedID(eval, [first, second]) == second.id
  {
    var both := [first, second];
    assert both[..1] == [first] && [first][..0] == [];
    assert LoggedID(eval, [first]) == "";
    assert First(eval, Granting, [first]) == Some(first);
  }
}

/**
 The rule-based policy engine (platform/security/policy.py): a stable sort and a
 first match, which together pick the best-ranked matching rule.
 */
module Policy {
  import opened Prelude
  import opened Text
  import opened StableSorting

  datatype Effect = ALLOW | DENY | REQUIRE_APPROVAL

  datatype Request = Request(action: string, resourceType: string)
  datatype Rule = Rule(policyId: string, action: string, resourceType: string, effect: Effect, priority: int,
                       reason: Option<string>)
  datatype Decision = Decision(effect: Effect, reason: Option<string>, policyId: Option<string>)

  /** A rule as its constructor completes it; None where it raises. */
  function NewRule(policyId: string, action: string, resourceType: string, effect: Effect, priority: int,
                   reason: Option<string>): Option<Rule>
  {
    var (id, act, kind) := (Strip(policyId), Strip(action), Strip(resourceType));
    if id == "" || act == "" || kind == "" || (reason.Some? && Strip(reason.value) == "") then None
    else Some(Rule(id, act, kind, effect, priority, if reason.Some? then Some(Strip(reason.value)) else None))
  }

  /** A made rule is stripped and complete: making it again from its own fields changes nothing. */
  lemma RuleIsNormalized(policyId: string, action: string, resourceType: string, effect: Effect, priority: int,
                         reason: Option<string>)
    ensures var made := NewRule(policyId, action, resourceType, effect, priority, reason);
            && (made.None? <==> Strip(policyId) == "" || Strip(action) == "" || Strip(resourceType) == ""
                                || (reason.Some? && Strip(reason.value) == ""))
            && (made.Some? ==>
                 var r := made.value;
                 && r.policyId == Strip(policyId) && r.action == Strip(action) && r.resourceType == Strip(resourceType)
                 && r.effect == effect && r.priority == priority
                 && (reason.None? <==> r.reason.None?) && (reason.Some? ==> r.reason == Some(Strip(reason.value)))
                 && r.policyId != "" && r.action != "" && r.resourceType != "" && r.reason != Some("")
                 && NewRule(r.policyId, r.action, r.resourceType, r.effect, r.priority, r.reason) == Some(r))
  {
    hide Strip;
    StripTwice(policyId);
    StripTwice(action);
    StripTwice(resourceType);
    if reason.Some? { StripTwice(reason.value); }
  }

  lemma StripTwice(s: string)
    ensures Strip(Strip(s)) == Strip(s)
  {
    StripStrips(s);
    StrippedStays(Strip(s));
  }

  predicate Matches(rule: Rule, req: Request) {
    && (rule.action == "*" || rule.action == req.action)
    && (rule.resourceType == "*" || rule.resourceType == req.resourceType)
  }

  /** Ascending (-priority, policy_id). */
  predicate Ranks(a: Rule, b: Rule) {
    a.priority > b.priority || (a.priority == b.priority && TextLe(a.policyId, b.policyId))
  }

  lemma RanksIsPreorder()
    ensures Preorder(Ranks)
  {
    forall a: Rule, b: Rule ensures Ranks(a, b) || Ranks(b, a) {
      TextLeTotal(a.policyId, b.policyId);
    }
    forall a: Rule, b: Rule, c: Rule | Ranks(a, b) && Ranks(b, c) ensures Ranks(a, c) {
      if a.priority == b.priority == c.priority {
        TextLeTrans(a.policyId, b.policyId, c.policyId);
      }
    }
  }

  /** The rules as the engine stores them. */
  function Engine(rules: seq<Rule>): seq<Rule> {
    SortBy(rules, Ranks)
  }

  function FirstMatch(rules: seq<Rule>, req: Request): Option<Rule> {
    if rules == [] then None
    else
      var (n, earlier) := (|rules| - 1, FirstMatch(rules[..|rules| - 1], req));
      if earlier.Some? then earlier else if Matches(rules[n], req) then Some(rules[n]) else None
  }

  function DecisionOf(rule: Rule): Decision {
    Decision(rule.effect, rule.reason, Some(rule.policyId))
  }

  const DEFAULT_DENY := Decision(DENY, Some("no policy rule matched this operation"), Some("default-deny"))

  /** `decide` of an engine made from these rules. */
  function Decide(rules: seq<Rule>, req: Request): Decision {
    var winner := FirstMatch(Engine(rules), req);
    if winner.Some? then DecisionOf(winner.value) else DEFAULT_DENY
  }

  // ----- first match of a sorted list -----

  lemma {:induction false} FirstMatchBest(rules: seq<Rule>, req: Request)
    requires Sorted(rules, Ranks)
    ensures var w := FirstMatch(rules, req);
            && (w.Some? ==> w.value in rules && Matches(w.value, req))
            && (forall r :: r in rules && Matches(r, req) ==> w.Some? && Ranks(w.value, r))
  {
    if rules != [] {
      var n := |rules| - 1;
      FirstMatchBest(rules[..n], req);
      assert rules == rules[..n] + [rules[n]];
      assert forall i :: 0 <= i < n ==> Ranks(rules[i], rules[n]);
      assert Ranks(rules[n], rules[n]);
    }
  }

  lemma FirstMatchAppend(s: seq<Rule>, r: Rule, req: Request)
    ensures FirstMatch(s + [r], req) == if FirstMatch(s, req).Some? then FirstMatch(s, req)
                                        else if Matches(r, req) then Some(r) else None
  {
    assert (s + [r])[..|s|] == s;
  }

  /** Among rules of the winner's rank the first match is the winner. */
  lemma {:induction false} FirstMatchInTies(rules: seq<Rule>, req: Request, w: Rule)
    requires FirstMatch(rules, req) == Some(w) && Same(w, w, Ranks)
    ensures FirstMatch(Ties(rules, w, Ranks), req) == Some(w)
  {
    var (n, ties) := (|rules| - 1, Ties(rules[..|rules| - 1], w, Ranks));
    if FirstMatch(rules[..n], req).Some? {
      FirstMatchInTies(rules[..n], req, w);
    } else {
      NoMatchInTies(rules[..n], req, w);
    }
    FirstMatchAppend(ties, rules[n], req);
    assert ties + [] == ties;
  }

  lemma {:induction false} NoMatchInTies(rules: seq<Rule>, req: Request, w: Rule)
    requires FirstMatch(rules, req).None?
    ensures FirstMatch(Ties(rules, w, Ranks), req).None?
  {
    if rules != [] {
      var (n, ties) := (|rules| - 1, Ties(rules[..|rules| - 1], w, Ranks));
      NoMatchInTies(rules[..n], req, w);
      FirstMatchAppend(ties, rules[n], req);
      assert ties + [] == ties;
    }
  }

  lemma InEngine(rules: seq<Rule>)
    ensures Sorted(Engine(rules), Ranks)
    ensures forall r :: r in Engine(rules) <==> r in rules
  {
    RanksIsPreorder();
    SortSorts(rules, Ranks);
    assert forall r :: r in Engine(rules) <==> r in multiset(Engine(rules));
    assert forall r :: r in rules <==> r in multiset(rules);
  }

  // ----- main results -----

  /** Matches, and no matching rule of the list ranks ahead of it. */
  ghost predicate Top(rules: seq<Rule>, rule: Rule, req: Request) {
    rule in rules && Matches(rule, req) && forall r :: r in rules && Matches(r, req) ==> Ranks(rule, r)
  }

  /**
   The deciding rule is the best-ranked match, and among equals the one supplied
   first; there is none exactly when no rule matches.
   */
  lemma WinnerExact(rules: seq<Rule>, req: Request)
    ensures var w := FirstMatch(Engine(rules), req);
            && (w.None? <==> forall r :: r in rules ==> !Matches(r, req))
            && (w.Some? ==> Top(rules, w.value, req) && FirstMatch(Ties(rules, w.value, Ranks), req) == w)
  {
    var w := FirstMatch(Engine(rules), req);
    InEngine(rules);
    FirstMatchBest(Engine(rules), req);
    if w.Some? {
      RanksIsPreorder();
      SortKeepsTies(rules, w.value, Ranks);
      FirstMatchInTies(Engine(rules), req, w.value);
    }
  }

  /** The rule names the request's action, or any, and its resource type, or any. */
  ghost predicate Covers(rule: Rule, req: Request) {
    rule.action in {"*", req.action} && rule.resourceType in {"*", req.resourceType}
  }

  /**
   The decision in the rules' own columns: that of a covering rule of the highest priority,
   among those of the first id, with its effect, reason and id; without one, the default denial.
   */
  lemma DecideExact(rules: seq<Rule>, req: Request)
    ensures (exists r :: r in rules && Covers(r, req)) ==>
              exists w :: w in rules && Covers(w, req)
                && Decide(rules, req) == Decision(w.effect, w.reason, Some(w.policyId))
                && forall r :: r in rules && Covers(r, req) ==>
                     w.priority > r.priority || (w.priority == r.priority && TextLe(w.policyId, r.policyId))
    ensures (forall r :: r in rules ==> !Covers(r, req)) ==>
              Decide(rules, req)
              == Decision(DENY, Some("no policy rule matched this operation"), Some("default-deny"))
  {
    WinnerExact(rules, req);
    forall r: Rule ensures Covers(r, req) == Matches(r, req) {
    }
    var w := FirstMatch(Engine(rules), req);
    if w.Some? {
      assert Top(rules, w.value, req);
      assert w.value in rules && Covers(w.value, req);
    }
  }

  /** Fail closed: without a matching rule that says otherwise the answer is DENY. */
  lemma DeniedUnlessAllowed(rules: seq<Rule>, req: Request)
    ensures Decide(rules, req).effect != DENY ==>
              exists r :: Top(rules, r, req) && r.effect == Decide(rules, req).effect
    ensures (forall r :: r in rules ==> !Matches(r, req)) ==> Decide(rules, req) == DEFAULT_DENY
  {
    WinnerExact(rules, req);
  }

  lemma {:induction false} FirstTieFirst(a: Rule, s: seq<Rule>, w: Rule)
    requires Same(a, w, Ranks)
    ensures Ties([a] + s, w, Ranks) == [a] + Ties(s, w, Ranks)
  {
    hide Ranks;
    if s == [] {
      assert [a] + s == [] + [a];
      TiesAppend([], a, w, Ranks);
    } else {
      var (front, last) := (s[..|s| - 1], s[|s| - 1]);
      assert s == front + [last] && [a] + s == ([a] + front) + [last];
      FirstTieFirst(a, front, w);
      TiesAppend([a] + front, last, w, Ranks);
      TiesAppend(front, last, w, Ranks);
    }
  }

  lemma {:induction false} FirstMatchFirst(a: Rule, s: seq<Rule>, req: Request)
    requires Matches(a, req)
    ensures FirstMatch([a] + s, req) == Some(a)
  {
    hide Matches;
    if s == [] {
      assert [a] + s == [] + [a];
      FirstMatchAppend([], a, req);
    } else {
      var (front, last) := (s[..|s| - 1], s[|s| - 1]);
      assert [a] + s == ([a] + front) + [last];
      FirstMatchFirst(a, front, req);
      FirstMatchAppend([a] + front, last, req);
    }
  }

  /** A top rule that is supplied first decides. */
  lemma SuppliedFirstDecides(rest: seq<Rule>, a: Rule, req: Request)
    requires Top([a] + rest, a, req)
    ensures Decide([a] + rest, req) == DecisionOf(a)
  {
    WinnerExact([a] + rest, req);
    var w := FirstMatch(Engine([a] + rest), req).value;
    assert Top([a] + rest, w, req);
    FirstTieFirst(a, rest, w);
    FirstMatchFirst(a, Ties(rest, w, Ranks), req);
  }

  lemma MovedToFront(rules: seq<Rule>, a: Rule, req: Request) returns (other: seq<Rule>)
    requires Top(rules, a, req)
    ensures multiset(other) == multiset(rules) && Decide(other, req) == DecisionOf(a)
  {
    var i :| 0 <= i < |rules| && rules[i] == a;
    var rest := rules[..i] + rules[i + 1..];
    other := [a] + rest;
    assert rules == rules[..i] + [a] + rules[i + 1..];
    SameMembers(other, rules);
    SuppliedFirstDecides(rest, a, req);
  }

  lemma SameMembers(a: seq<Rule>, b: seq<Rule>)
    requires multiset(a) == multiset(b)
    ensures forall r :: r in a <==> r in b
  {
    assert forall r :: r in a <==> r in multiset(a);
    assert forall r :: r in b <==> r in multiset(b);
  }

  /** A decision does not depend on the order of the rules exactly when all top rules say the same. */
  lemma OrderExact(rules: seq<Rule>, req: Request)
    ensures (forall other :: multiset(other) == multiset(rules) ==> Decide(other, req) == Decide(rules, req))
            <==> (forall a, b :: Top(rules, a, req) && Top(rules, b, req) ==> DecisionOf(a) == DecisionOf(b))
  {
    if forall a, b :: Top(rules, a, req) && Top(rules, b, req) ==> DecisionOf(a) == DecisionOf(b) {
      forall other | multiset(other) == multiset(rules) ensures Decide(other, req) == Decide(rules, req) {
        SameMembers(other, rules);
        WinnerExact(rules, req);
        WinnerExact(other, req);
        var w := FirstMatch(Engine(other), req);
        assert w.Some? ==> Top(rules, w.value, req);
      }
    }
    if forall other :: multiset(other) == multiset(rules) ==> Decide(other, req) == Decide(rules, req) {
      forall a, b | Top(rules, a, req) && Top(rules, b, req) ensures DecisionOf(a) == DecisionOf(b) {
        var first := MovedToFront(rules, a, req);
        var second := MovedToFront(rules, b, req);
      }
    }
  }

  /** With distinct ids the order never matters. */
  lemma DistinctIdsDecide(rules: seq<Rule>, other: seq<Rule>, req: Request)
    requires forall i, j :: 0 <= i < j < |rules| ==> rules[i].policyId != rules[j].policyId
    requires multiset(other) == multiset(rules)
    ensures Decide(other, req) == Decide(rules, req)
  {
    forall a, b | Top(rules, a, req) && Top(rules, b, req) ensures DecisionOf(a) == DecisionOf(b) {
      TextLeAntisym(a.policyId, b.policyId);
    }
    OrderExact(rules, req);
  }

  lemma {:induction false} InsertedMatch(rule: Rule, rules: seq<Rule>, req: Request)
    requires Sorted(rules, Ranks)
    ensures var w := FirstMatch(rules, req);
            FirstMatch(Insert(rule, rules, Ranks), req)
              == if Matches(rule, req) && (w.None? || !Ranks(w.value, rule)) then Some(rule) else w
  {
    if rules == [] || Ranks(rules[|rules| - 1], rule) {
      RanksIsPreorder();
      FirstMatchBest(rules, req);
      assert (rules + [rule])[..|rules|] == rules;
      var w := FirstMatch(rules, req);
      if w.Some? {
        var i :| 0 <= i < |rules| && rules[i] == w.value;
        assert Ranks(rules[i], rules[|rules| - 1]);
        assert Ranks(w.value, rule);
      }
    } else {
      var n := |rules| - 1;
      InsertedMatch(rule, rules[..n], req);
      var inserted := Insert(rule, rules[..n], Ranks);
      assert (inserted + [rules[n]])[..|inserted|] == inserted;
    }
  }

  /** A rule added last takes over exactly when it matches and the present winner does not rank ahead of it. */
  lemma AddRuleExact(rules: seq<Rule>, rule: Rule, req: Request)
    ensures var w := FirstMatch(Engine(rules), req);
            FirstMatch(Engine(rules + [rule]), req)
              == if Matches(rule, req) && (w.None? || !Ranks(w.value, rule)) then Some(rule) else w
  {
    InEngine(rules);
    assert (rules + [rule])[..|rules|] == rules;
    InsertedMatch(rule, Engine(rules), req);
  }
}

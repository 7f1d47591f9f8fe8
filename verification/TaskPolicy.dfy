/** Exclusion policies of the task scheduler: the rules a group or an entry consults before it runs. */
module TaskPolicy {

  /** A task entry: the tasks of one (task id, instance) pair. Instance -1 is the wildcard instance. */
  datatype EntryId = EntryId(group: int, instance: int)

  /** One element of a configured policy: exclude a task id, or one instance of it. */
  datatype Rule = Rule(matchId: int, matchInstance: int)

  /** The configured rule lists, in the order in which they were pushed. */
  datatype Policy = Policy(groups: map<int, seq<int>>, entries: map<EntryId, seq<EntryId>>)

  /** The entry that holds what is enqueued while the scheduler is stopped. */
  const STOP: EntryId := EntryId(-1, -1)

  const NO_POLICY: Policy := Policy(map[], map[])

  /** policy_ of a group. */
  function GroupRules(p: Policy, g: int): seq<int> {
    if g in p.groups then p.groups[g] else []
  }

  function Configured(p: Policy, e: EntryId): seq<EntryId> {
    if e in p.entries then p.entries[e] else []
  }

  /** policyq_ of an entry: a numbered instance starts with the implicit rule that excludes itself. */
  function EntryRules(p: Policy, e: EntryId): seq<EntryId> {
    (if e.instance != -1 then [e] else []) + Configured(p, e)
  }

  function AddGroupRule(p: Policy, g: int, h: int): Policy {
    p.(groups := p.groups[g := GroupRules(p, g) + [h]])
  }

  function AddEntryRule(p: Policy, e: EntryId, f: EntryId): Policy {
    p.(entries := p.entries[e := Configured(p, e) + [f]])
  }

  /** The body of the loop in SetPolicy. */
  function AddRule(p: Policy, id: int, rule: Rule): Policy {
    if rule.matchInstance == -1 then
      AddGroupRule(AddGroupRule(p, id, rule.matchId), rule.matchId, id)
    else
      var own := EntryId(id, rule.matchInstance);
      var other := EntryId(rule.matchId, rule.matchInstance);
      var wildcard := EntryId(id, -1);
      var p1 := AddEntryRule(AddEntryRule(p, own, other), other, own);
      AddEntryRule(AddEntryRule(p1, wildcard, other), other, wildcard)
  }

  function SetPolicy(p: Policy, id: int, rules: seq<Rule>): Policy
    decreases |rules|
  {
    if rules == [] then p else SetPolicy(AddRule(p, id, rules[0]), id, rules[1..])
  }

  /** Every policy a program can set up: SetPolicy called for a sequence of task ids. */
  function Configure(calls: seq<(int, seq<Rule>)>): Policy {
    if calls == [] then NO_POLICY
    else
      var last := calls[|calls| - 1];
      SetPolicy(Configure(calls[..|calls| - 1]), last.0, last.1)
  }

  /** Task ids are at least 0; an instance is -1 or a number. */
  predicate ValidRules(id: int, rules: seq<Rule>) {
    id >= 0 && forall i :: 0 <= i < |rules| ==> rules[i].matchId >= 0 && rules[i].matchInstance >= -1
  }

  predicate ValidCalls(calls: seq<(int, seq<Rule>)>) {
    forall i :: 0 <= i < |calls| ==> ValidRules(calls[i].0, calls[i].1)
  }

  ghost predicate GroupSymmetric(p: Policy) {
    forall g, h {:trigger h in GroupRules(p, g)} :: h in GroupRules(p, g) <==> g in GroupRules(p, h)
  }

  ghost predicate EntrySymmetric(p: Policy) {
    forall e, f {:trigger f in Configured(p, e)} :: f in Configured(p, e) <==> e in Configured(p, f)
  }

  /** A wildcard entry is related to numbered entries only, and no rule mentions a negative task id. */
  ghost predicate Shape(p: Policy) {
    && (forall e, f {:trigger f in Configured(p, e)} :: f in Configured(p, e) ==> e.group >= 0 && f.group >= 0)
    && (forall e, f {:trigger f in Configured(p, e)} :: f in Configured(p, e) ==> e.instance != -1 || f.instance != -1)
  }

  ghost predicate WellFormed(p: Policy) {
    GroupSymmetric(p) && EntrySymmetric(p) && Shape(p)
  }

  // ---- What the configured rules exclude ----

  /** Task id `id` was given this rule, and it makes group g exclude group h. */
  predicate NamesGroups(id: int, rule: Rule, g: int, h: int) {
    rule.matchInstance == -1 && g == id && h == rule.matchId
  }

  /** The same for entries: the numbered instance and the wildcard instance of `id` exclude the one named. */
  predicate NamesEntries(id: int, rule: Rule, e: EntryId, f: EntryId) {
    && rule.matchInstance != -1
    && f == EntryId(rule.matchId, rule.matchInstance)
    && e.group == id && (e.instance == rule.matchInstance || e.instance == -1)
  }

  predicate RelatesGroups(id: int, rule: Rule, g: int, h: int) {
    NamesGroups(id, rule, g, h) || NamesGroups(id, rule, h, g)
  }

  predicate RelatesEntries(id: int, rule: Rule, e: EntryId, f: EntryId) {
    NamesEntries(id, rule, e, f) || NamesEntries(id, rule, f, e)
  }

  /** One rule adds the pairs that it relates, and no others. */
  lemma AddRuleGroups(p: Policy, id: int, rule: Rule, g: int, h: int)
    ensures h in GroupRules(AddRule(p, id, rule), g) <==>
      h in GroupRules(p, g) || RelatesGroups(id, rule, g, h)
  {
  }

  lemma AddRuleEntries(p: Policy, id: int, rule: Rule, e: EntryId, f: EntryId)
    ensures f in Configured(AddRule(p, id, rule), e) <==>
      f in Configured(p, e) || RelatesEntries(id, rule, e, f)
  {
  }

  predicate GroupsIn(id: int, rules: seq<Rule>, g: int, h: int) {
    exists rule :: rule in rules && RelatesGroups(id, rule, g, h)
  }

  predicate EntriesIn(id: int, rules: seq<Rule>, e: EntryId, f: EntryId) {
    exists rule :: rule in rules && RelatesEntries(id, rule, e, f)
  }

  lemma {:induction false} SetPolicyGroups(p: Policy, id: int, rules: seq<Rule>, g: int, h: int)
    ensures h in GroupRules(SetPolicy(p, id, rules), g) <==> h in GroupRules(p, g) || GroupsIn(id, rules, g, h)
    decreases |rules|
  {
    if rules != [] {
      assert forall rule :: rule in rules <==> rule == rules[0] || rule in rules[1..];
      AddRuleGroups(p, id, rules[0], g, h);
      SetPolicyGroups(AddRule(p, id, rules[0]), id, rules[1..], g, h);
    }
  }

  lemma {:induction false} SetPolicyEntries(p: Policy, id: int, rules: seq<Rule>, e: EntryId, f: EntryId)
    ensures f in Configured(SetPolicy(p, id, rules), e) <==> f in Configured(p, e) || EntriesIn(id, rules, e, f)
    decreases |rules|
  {
    if rules != [] {
      assert forall rule :: rule in rules <==> rule == rules[0] || rule in rules[1..];
      AddRuleEntries(p, id, rules[0], e, f);
      SetPolicyEntries(AddRule(p, id, rules[0]), id, rules[1..], e, f);
    }
  }

  /** Some call of SetPolicy has a rule that relates the two groups, in one direction or the other. */
  predicate GroupsRuled(calls: seq<(int, seq<Rule>)>, g: int, h: int) {
    exists c :: c in calls && GroupsIn(c.0, c.1, g, h)
  }

  predicate EntriesRuled(calls: seq<(int, seq<Rule>)>, e: EntryId, f: EntryId) {
    exists c :: c in calls && EntriesIn(c.0, c.1, e, f)
  }

  /** The group rules in force are the configured ones: each rule and its mirror image, nothing else. */
  lemma {:induction false} ConfigureGroups(calls: seq<(int, seq<Rule>)>, g: int, h: int)
    ensures h in GroupRules(Configure(calls), g) <==> GroupsRuled(calls, g, h)
  {
    if calls != [] {
      var last, before := calls[|calls| - 1], calls[..|calls| - 1];
      assert forall c :: c in calls <==> c in before || c == last;
      ConfigureGroups(before, g, h);
      SetPolicyGroups(Configure(before), last.0, last.1, g, h);
    }
  }

  /** The same for the entry rules. */
  lemma {:induction false} ConfigureEntries(calls: seq<(int, seq<Rule>)>, e: EntryId, f: EntryId)
    ensures f in Configured(Configure(calls), e) <==> EntriesRuled(calls, e, f)
  {
    if calls != [] {
      var last, before := calls[|calls| - 1], calls[..|calls| - 1];
      assert forall c :: c in calls <==> c in before || c == last;
      ConfigureEntries(before, e, f);
      SetPolicyEntries(Configure(before), last.0, last.1, e, f);
    }
  }

  lemma AddRuleKeeps(p: Policy, id: int, rule: Rule)
    requires WellFormed(p)
    requires id >= 0 && rule.matchId >= 0 && rule.matchInstance >= -1
    ensures WellFormed(AddRule(p, id, rule))
  {
    var q := AddRule(p, id, rule);
    forall g, h ensures h in GroupRules(q, g) <==> h in GroupRules(p, g) || RelatesGroups(id, rule, g, h) {
      AddRuleGroups(p, id, rule, g, h);
    }
    forall e, f ensures f in Configured(q, e) <==> f in Configured(p, e) || RelatesEntries(id, rule, e, f) {
      AddRuleEntries(p, id, rule, e, f);
    }
  }

  lemma {:induction false} SetPolicyKeeps(p: Policy, id: int, rules: seq<Rule>)
    requires WellFormed(p) && ValidRules(id, rules)
    ensures WellFormed(SetPolicy(p, id, rules))
    decreases |rules|
  {
    if rules != [] {
      AddRuleKeeps(p, id, rules[0]);
      SetPolicyKeeps(AddRule(p, id, rules[0]), id, rules[1..]);
    }
  }

  /** Whatever policies are set, exclusion is symmetric and relates no wildcard entry to a wildcard entry. */
  lemma {:induction false} ConfigureWellFormed(calls: seq<(int, seq<Rule>)>)
    requires ValidCalls(calls)
    ensures WellFormed(Configure(calls))
  {
    if calls != [] {
      var last := calls[|calls| - 1];
      ConfigureWellFormed(calls[..|calls| - 1]);
      SetPolicyKeeps(Configure(calls[..|calls| - 1]), last.0, last.1);
    }
  }

  lemma NonEmpty(es: seq<EntryId>)
    ensures es == [] || exists e :: e in es
  {
    if es != [] { assert es[0] in es; }
  }

  lemma NoRulesForNegative(p: Policy, e: EntryId)
    requires WellFormed(p) && e.group < 0
    ensures Configured(p, e) == []
  {
    NonEmpty(Configured(p, e));
  }

  /** The exclusion relation of entries is symmetric, and only numbered entries exclude themselves. */
  lemma EntryRulesSymmetric(p: Policy)
    requires WellFormed(p)
    ensures forall e, f {:trigger f in EntryRules(p, e)} :: f in EntryRules(p, e) <==> e in EntryRules(p, f)
    ensures forall e :: e in EntryRules(p, e) <==> e.instance != -1
    ensures EntryRules(p, STOP) == []
  {
    forall e, f | f in EntryRules(p, e) ensures e in EntryRules(p, f) {
      if f in Configured(p, e) { assert e in Configured(p, f); }
    }
    NoRulesForNegative(p, STOP);
  }
}

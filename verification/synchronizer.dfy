/** The translation of the rule state into the filter engine's descriptor
    list, and the synchronisation step that installs it. */
module Synchronizer {
  import opened Rules
  import opened FilterEngine

  /** The rules whose own switch is on, in list order. */
  function EnabledRules(rules: seq<Rule>): (r: seq<Rule>)
    ensures |r| <= |rules|
    ensures forall k :: 0 <= k < |r| ==> r[k].enabled && r[k] in rules
  {
    if |rules| == 0 then []
    else
      var rest := EnabledRules(rules[1..]);
      if rules[0].enabled then [rules[0]] + rest else rest
  }

  /** Selecting enabled rules distributes over concatenation, so the order
      of the list is the order of the selection. */
  lemma {:induction false} EnabledRulesConcat(a: seq<Rule>, b: seq<Rule>)
    ensures EnabledRules(a + b) == EnabledRules(a) + EnabledRules(b)
  {
    if |a| == 0 {
      assert a + b == b;
    } else {
      assert (a + b)[0] == a[0];
      assert (a + b)[1..] == a[1..] + b;
      EnabledRulesConcat(a[1..], b);
    }
  }

  /** Every enabled rule is selected. */
  lemma {:induction false} EnabledRulesComplete(rules: seq<Rule>)
    ensures forall x :: x in rules && x.enabled ==> x in EnabledRules(rules)
  {
    if |rules| > 0 {
      EnabledRulesComplete(rules[1..]);
      assert rules == [rules[0]] + rules[1..];
    }
  }

  /** The descriptor a selected rule becomes under engine id `n`. */
  function Describe(rule: Rule, n: int): (d: Descriptor)
    ensures d.id == DescriptorId(n) && d.priority == 1
    ensures d.action.regexSubstitution == rule.replacement
    ensures d.condition.regexFilter == rule.pattern
    ensures |d.condition.resourceTypes| == 12
  {
    Descriptor(DescriptorId(n), RulePriority, Redirect(rule.replacement),
               Condition(rule.pattern, AllResourceTypes))
  }

  /** The descriptors for `rules`, numbered from `next`: the enabled rules,
      selected in order, and the k-th of them described under id next + k. */
  function Translate(rules: seq<Rule>, next: int): (r: seq<Descriptor>)
    ensures |r| == |EnabledRules(rules)|
    ensures forall k :: 0 <= k < |r| ==> r[k] == Describe(EnabledRules(rules)[k], next + k)
  {
    if |rules| == 0 then []
    else if rules[0].enabled then [Describe(rules[0], next)] + Translate(rules[1..], next + 1)
    else Translate(rules[1..], next)
  }

  /** The descriptor list the engine should hold for state `s`. */
  function Desired(s: State): seq<Descriptor> {
    if s.globalEnabled then Translate(s.rules, 1) else []
  }

  /** The synchronisation step, in the worker's order: enumerate the
      installed ids and remove them if there are any; stop if the master
      switch is off; otherwise add the translated descriptors if there are
      any. The outcome is the desired list whatever was installed before. */
  function Sync(installed: seq<Descriptor>, s: State): (r: seq<Descriptor>)
    ensures r == Desired(s)
  {
    var existing := InstalledIds(installed);
    var cleared := if |existing| > 0 then RemoveRules(installed, existing) else installed;
    RemoveInstalledClears(installed);
    if !s.globalEnabled then cleared
    else
      var toAdd := Translate(s.rules, 1);
      if |toAdd| > 0 then AddRules(cleared, toAdd) else cleared
  }

  /** The installed list after a sync depends on the state alone. */
  lemma SyncIgnoresPrevious(a: seq<Descriptor>, b: seq<Descriptor>, s: State)
    ensures Sync(a, s) == Sync(b, s)
  {
  }

  /** Syncing twice with the same state is syncing once. */
  lemma SyncIdempotent(installed: seq<Descriptor>, s: State)
    ensures Sync(Sync(installed, s), s) == Sync(installed, s)
  {
  }

  /** With the master switch off nothing stays installed, whatever the
      rules' own switches say. */
  lemma KillSwitch(installed: seq<Descriptor>, s: State)
    requires !s.globalEnabled
    ensures Sync(installed, s) == []
  {
  }

  /** With the master switch on, the k-th installed descriptor comes from
      the k-th enabled rule: id k + 1, priority 1, a redirect to its
      replacement, its pattern as the filter, the fixed resource types. */
  lemma SyncInstallsEnabledRules(installed: seq<Descriptor>, s: State)
    requires s.globalEnabled
    ensures |Sync(installed, s)| == |EnabledRules(s.rules)|
    ensures forall k :: 0 <= k < |Sync(installed, s)| ==>
      var d := Sync(installed, s)[k];
      var rule := EnabledRules(s.rules)[k];
      && d.id == DescriptorId(k + 1)
      && d.priority == 1
      && d.action == Redirect(rule.replacement)
      && d.condition.regexFilter == rule.pattern
      && d.condition.resourceTypes == AllResourceTypes
  {
  }

  /** `d` matches with `rule`'s pattern and redirects with its replacement,
      and `rule` is an enabled rule of `s`. */
  predicate FromRule(d: Descriptor, rule: Rule, s: State) {
    && rule in s.rules
    && rule.enabled
    && d.condition.regexFilter == rule.pattern
    && d.action == Redirect(rule.replacement)
  }

  /** Installed descriptor ids are distinct. */
  lemma SyncIdsDistinct(installed: seq<Descriptor>, s: State)
    ensures forall j, k :: 0 <= j < k < |Sync(installed, s)| ==>
      Sync(installed, s)[j].id != Sync(installed, s)[k].id
  {
  }

  /** Every installed descriptor comes from an enabled rule of the state. */
  lemma SyncDescriptorsFromRules(installed: seq<Descriptor>, s: State)
    ensures forall d :: d in Sync(installed, s) ==> exists rule :: FromRule(d, rule, s)
  {
    var r := Sync(installed, s);
    forall d | d in r
      ensures exists rule :: FromRule(d, rule, s)
    {
      var k :| 0 <= k < |r| && r[k] == d;
      assert FromRule(d, EnabledRules(s.rules)[k], s);
    }
  }

  /** Every enabled rule of a globally enabled state is installed. */
  lemma SyncCoversEnabledRules(installed: seq<Descriptor>, s: State, rule: Rule)
    requires s.globalEnabled
    requires rule in s.rules && rule.enabled
    ensures exists k :: 0 <= k < |Sync(installed, s)| && Sync(installed, s)[k] == Describe(rule, k + 1)
  {
    EnabledRulesComplete(s.rules);
    var e := EnabledRules(s.rules);
    var k :| 0 <= k < |e| && e[k] == rule;
    assert Sync(installed, s)[k] == Describe(rule, k + 1);
  }

  /** The worked example: one enabled rule yields exactly one descriptor
      with that rule's pattern and substitution. */
  lemma SingleRuleExample(installed: seq<Descriptor>)
    ensures var s := State(true, [Rule(RuleId(1), "^http://example\\.com/(.*)$", "https://example.com/$1", true)]);
      Sync(installed, s) == [Descriptor(DescriptorId(1), 1,
        Redirect("https://example.com/$1"),
        Condition("^http://example\\.com/(.*)$", AllResourceTypes))]
  {
  }
}
